/**
 * The process-level helpers the pipeline relies on: the SIGINT handler that
 * starts the shutdown, the interactive choice of sinks, and the split of a
 * duration into minutes, seconds and milliseconds for the reports.
 */
module SystemUtils {
  import opened Common

  /** The signal number of SIGINT. */
  const SIGINT: int := 2

  /** The number of attempts each question of ask_user_preferences allows. */
  const MAX_ATTEMPTS: nat := 3

  /** Every stage of the channel received exactly one more wake-up, and nothing else changed. */
  twostate predicate PostedOnce(ch: Channel)
    reads ch
  {
    && ch.dataCsv == old(ch.dataCsv).PostIf(true)
    && ch.dataDac == old(ch.dataDac).PostIf(true)
    && ch.model == old(ch.model).PostIf(true)
    && ch.resultCsv == old(ch.resultCsv).PostIf(true)
    && ch.resultDac == old(ch.resultDac).PostIf(true)
  }

  /** A wake-up posted to every stage keeps the pipeline invariant: queues are untouched and counts only grow. */
  lemma PostsKeepValid(cfg: Config, width: nat, acquireCount: nat, acquired: seq<Chunk>, inferred: seq<ModelResult>,
                       dataCsv: Stage<Chunk>, dataDac: Stage<Chunk>, model: Stage<Chunk>,
                       resultCsv: Stage<ModelResult>, resultDac: Stage<ModelResult>)
    requires StagesValid(cfg, width, acquireCount, acquired, inferred, dataCsv, dataDac, model, resultCsv, resultDac)
    ensures StagesValid(cfg, width, acquireCount, acquired, inferred,
                        dataCsv.PostIf(true), dataDac.PostIf(true), model.PostIf(true),
                        resultCsv.PostIf(true), resultDac.PostIf(true))
  {
    assert dataCsv.PostIf(true).queue == dataCsv.queue && dataCsv.PostIf(true).taken == dataCsv.taken;
    assert dataDac.PostIf(true).queue == dataDac.queue && dataDac.PostIf(true).taken == dataDac.taken;
    assert model.PostIf(true).queue == model.queue && model.PostIf(true).taken == model.taken;
    assert resultCsv.PostIf(true).queue == resultCsv.queue && resultCsv.PostIf(true).taken == resultCsv.taken;
    assert resultDac.PostIf(true).queue == resultDac.queue && resultDac.PostIf(true).taken == resultDac.taken;
  }

  /** The five sem_post calls on one channel. */
  method PostAll(ch: Channel)
    modifies ch`dataCsv, ch`dataDac, ch`model, ch`resultCsv, ch`resultDac
    ensures PostedOnce(ch)
    ensures forall cfg :: old(ch.Valid(cfg)) ==> ch.Valid(cfg)
  {
    forall cfg | ch.Valid(cfg)
      ensures StagesValid(cfg, ch.width, ch.acquireCount, ch.acquired, ch.inferred,
                          ch.dataCsv.PostIf(true), ch.dataDac.PostIf(true), ch.model.PostIf(true),
                          ch.resultCsv.PostIf(true), ch.resultDac.PostIf(true))
    {
      PostsKeepValid(cfg, ch.width, ch.acquireCount, ch.acquired, ch.inferred,
                     ch.dataCsv, ch.dataDac, ch.model, ch.resultCsv, ch.resultDac);
    }
    ch.dataCsv := ch.dataCsv.PostIf(true);
    ch.dataDac := ch.dataDac.PostIf(true);
    ch.model := ch.model.PostIf(true);
    ch.resultCsv := ch.resultCsv.PostIf(true);
    ch.resultDac := ch.resultDac.PostIf(true);
  }

  /**
   * signal_handler: on SIGINT, interrupted, stop_program and stop_acquisition
   * are set and each of the ten semaphores of the two channels is posted
   * exactly once; any other signal changes nothing. A repeated SIGINT leaves
   * the flags set and posts once more.
   */
  method SignalHandler(sig: int, g: Flags, ch1: Channel, ch2: Channel)
    requires ch1 != ch2
    modifies g, ch1`dataCsv, ch1`dataDac, ch1`model, ch1`resultCsv, ch1`resultDac
    modifies ch2`dataCsv, ch2`dataDac, ch2`model, ch2`resultCsv, ch2`resultDac
    ensures sig == SIGINT ==> g.interrupted && g.stopProgram && g.stopAcquisition && PostedOnce(ch1) && PostedOnce(ch2)
    ensures sig != SIGINT ==> unchanged(g, ch1, ch2)
    ensures forall cfg :: old(ch1.Valid(cfg)) ==> ch1.Valid(cfg)
    ensures forall cfg :: old(ch2.Valid(cfg)) ==> ch2.Valid(cfg)
  {
    if sig == SIGINT {
      g.interrupted := true;
      g.stopProgram := true;
      g.stopAcquisition := true;
      PostAll(ch1);
      PostAll(ch2);
    }
  }

  /** One answer read by `std::cin >> choice`, or the way the read ended without one. */
  datatype Answer =
    | Number(n: int)  // a number was read
    | ReadFailure     // cin failed (no number, or end of input)
    | Interrupted     // the SIGINT flag was seen before or right after the read

  /** The raw-data choice: 1 CSV only, 2 DAC only, 3 both, 4 neither. Gives (save_data_csv, save_data_dac). */
  function DataChoice(choice: int): (r: (bool, bool))
    requires 1 <= choice <= 4
    ensures r.0 && r.1 <==> choice == 3
    ensures !r.0 && !r.1 <==> choice == 4
  {
    (choice == 1 || choice == 3, choice == 2 || choice == 3)
  }

  /** The raw-data choice that selects the given pair of sinks. */
  function DataCode(csv: bool, dac: bool): (c: int)
    ensures 1 <= c <= 4 && DataChoice(c) == (csv, dac)
  {
    if csv && dac then 3 else if csv then 1 else if dac then 2 else 4
  }

  /**
   * The four raw-data choices select the four combinations of sinks, each
   * exactly once: the choice is recovered from the combination it selects.
   */
  lemma DataChoiceBijective(choice: int)
    requires 1 <= choice <= 4
    ensures DataCode(DataChoice(choice).0, DataChoice(choice).1) == choice
  {
  }

  /**
   * The model-output choice (same numbering), given whether raw data already
   * goes to the DAC. Gives (save_output_csv, save_output_dac).
   */
  function OutputChoice(option: int, saveDataDac: bool): (r: (bool, bool))
    requires 1 <= option <= 4
    ensures saveDataDac ==> !r.1
  {
    var wantsDac := option == 2 || option == 3;
    (option == 1 || option == 3, if saveDataDac && wantsDac then false else wantsDac)
  }

  /**
   * The output CSV is chosen by options 1 and 3; the output DAC by options 2
   * and 3 unless the raw data already uses the DAC, so the two DAC sinks are
   * never both on.
   */
  lemma OutputChoiceExclusive(option: int, saveDataDac: bool)
    requires 1 <= option <= 4
    ensures OutputChoice(option, saveDataDac).0 <==> option == 1 || option == 3
    ensures OutputChoice(option, saveDataDac).1 <==> !saveDataDac && (option == 2 || option == 3)
    ensures !(saveDataDac && OutputChoice(option, saveDataDac).1)
  {
  }

  /**
   * One question with up to `attemptsLeft` attempts, reading answers from
   * position `pos`: the first in-range number and the position after it, or
   * None when the attempts run out, a read fails or an interrupt is seen.
   */
  function Question(answers: seq<Answer>, pos: nat, attemptsLeft: nat): (r: Option<(nat, int)>)
    ensures r.Some? ==> pos < r.value.0 <= pos + attemptsLeft && r.value.0 <= |answers| && 1 <= r.value.1 <= 4
    decreases attemptsLeft
  {
    if attemptsLeft == 0 || pos >= |answers| then None
    else match answers[pos]
      case Number(n) =>
        if 1 <= n <= 4 then Some((pos + 1, n)) else Question(answers, pos + 1, attemptsLeft - 1)
      case ReadFailure => None
      case Interrupted => None
  }

  /**
   * What ask_user_preferences does to the four save_* flags and what it
   * returns: the raw-data flags are set as soon as the first question is
   * answered, even when the second question then fails.
   */
  function Preferences(answers: seq<Answer>, init: Config): (r: (bool, Config))
    ensures !r.0 ==> r.1.saveOutputCsv == init.saveOutputCsv && r.1.saveOutputDac == init.saveOutputDac
  {
    match Question(answers, 0, MAX_ATTEMPTS)
    case None => (false, init)
    case Some((next, choice)) =>
      var data := DataChoice(choice);
      var cfg := init.(saveDataCsv := data.0, saveDataDac := data.1);
      match Question(answers, next, MAX_ATTEMPTS)
      case None => (false, cfg)
      case Some((_, option)) =>
        var output := OutputChoice(option, cfg.saveDataDac);
        (true, cfg.(saveOutputCsv := output.0, saveOutputDac := output.1))
  }

  /** A successful run of the questions never sends both the raw data and the model output to the DAC. */
  lemma PreferencesNeverBothDacs(answers: seq<Answer>, init: Config)
    ensures Preferences(answers, init).0 ==> !(Preferences(answers, init).1.saveDataDac && Preferences(answers, init).1.saveOutputDac)
  {
    match Question(answers, 0, MAX_ATTEMPTS)
    case None =>
    case Some((next, choice)) =>
      match Question(answers, next, MAX_ATTEMPTS)
      case None =>
      case Some((_, option)) =>
        OutputChoiceExclusive(option, DataChoice(choice).1);
  }

  /** Three out-of-range answers to the first question end the dialogue with false and no flag changed. */
  lemma ThreeInvalidAnswersFail(answers: seq<Answer>, init: Config)
    requires |answers| >= 3
    requires forall i | 0 <= i < 3 :: answers[i].Number? && !(1 <= answers[i].n <= 4)
    ensures Preferences(answers, init) == (false, init)
  {
    assert Question(answers, 3, 0) == None;
    assert Question(answers, 2, 1) == None;
    assert Question(answers, 1, 2) == None;
  }

  /** A read failure or an interrupt at the first answer ends the dialogue with false and no flag changed. */
  lemma FailedFirstReadFails(answers: seq<Answer>, init: Config)
    requires |answers| >= 1 && !answers[0].Number?
    ensures Preferences(answers, init) == (false, init)
  {
  }

  /** One question's `for (attempt = 1; attempt <= max_attempts; ++attempt)` loop. */
  method AskQuestion(answers: seq<Answer>, start: nat) returns (r: Option<(nat, int)>)
    ensures r == Question(answers, start, MAX_ATTEMPTS)
  {
    var pos := start;
    var attempt := 1;
    while attempt <= MAX_ATTEMPTS
      invariant 1 <= attempt <= MAX_ATTEMPTS + 1 && pos == start + attempt - 1
      invariant Question(answers, pos, MAX_ATTEMPTS - attempt + 1) == Question(answers, start, MAX_ATTEMPTS)
      decreases MAX_ATTEMPTS - attempt
    {
      if pos >= |answers| {
        return None;
      }
      var answer := answers[pos];
      if !answer.Number? {
        return None;
      }
      if 1 <= answer.n <= 4 {
        return Some((pos + 1, answer.n));
      }
      if attempt == MAX_ATTEMPTS {
        return None;
      }
      pos := pos + 1;
      attempt := attempt + 1;
    }
    return None;
  }

  /**
   * ask_user_preferences: the raw-data question, then the model-output
   * question; `init` holds the flags on entry and `cfg` on return.
   */
  method AskUserPreferences(answers: seq<Answer>, init: Config) returns (ok: bool, cfg: Config)
    ensures (ok, cfg) == Preferences(answers, init)
  {
    cfg := init;
    var first := AskQuestion(answers, 0);
    if first.None? {
      return false, cfg;
    }
    var choice := first.value.1;
    cfg := cfg.(saveDataCsv := choice == 1 || choice == 3, saveDataDac := choice == 2 || choice == 3);
    var second := AskQuestion(answers, first.value.0);
    if second.None? {
      return false, cfg;
    }
    var option := second.value.1;
    var saveOutputDac;
    if cfg.saveDataDac && (option == 2 || option == 3) {
      saveOutputDac := false;
    } else {
      saveOutputDac := option == 2 || option == 3;
    }
    cfg := cfg.(saveOutputCsv := option == 1 || option == 3, saveOutputDac := saveOutputDac);
    return true, cfg;
  }

  /** C++'s `%`: the remainder of the truncating division, with the sign of the dividend. */
  function CRem(a: int, b: int): (r: int)
    requires b != 0
    ensures Abs(r) < Abs(b)
    ensures r == 0 || (r > 0 <==> a > 0)
  {
    CDivTruncates(a, b);
    a - b * CDiv(a, b)
  }

  /** A duration in milliseconds split as the reports print it: minutes, seconds, milliseconds. */
  datatype Clock = Clock(minutes: int, seconds: int, millis: int)

  /** The split of print_channel_stats (and of print_duration), in C++'s truncating arithmetic. */
  function Breakdown(ms: int): (c: Clock)
    ensures Abs(c.seconds) < 60 && Abs(c.millis) < 1000
  {
    CDivTruncates(CRem(ms, 60000), 1000);
    Clock(CDiv(ms, 60000), CDiv(CRem(ms, 60000), 1000), CRem(ms, 1000))
  }

  lemma BreakdownNonNeg(ms: nat)
    ensures Breakdown(ms) == Clock(ms / 60000, (ms % 60000) / 1000, ms % 1000)
  {
  }

  /** Division with remainder is unique. */
  lemma DivModUnique(n: int, d: int, q: int, r: int)
    requires d > 0 && 0 <= r < d && n == d * q + r
    ensures n / d == q && n % d == r
  {
    var q', r' := n / d, n % d;
    assert n == d * q' + r';
    assert d * (q - q') == r' - r by {
      assert d * (q - q') == d * q - d * q';
    }
    if q - q' >= 1 {
      MulAtLeast(d, q - q');
      assert false;
    } else if q' - q >= 1 {
      MulAtLeast(d, q' - q);
      assert false;
    }
  }

  lemma MulAtLeast(d: nat, x: int)
    requires x >= 1
    ensures d * x >= d
  {
    assert d * x == d + d * (x - 1);
  }

  lemma BreakdownNonNegExact(ms: nat)
    ensures var c := Breakdown(ms);
            && c.minutes * 60000 + c.seconds * 1000 + c.millis == ms
            && 0 <= c.seconds < 60 && 0 <= c.millis < 1000 && c.minutes >= 0
  {
    BreakdownNonNeg(ms);
    var q, r := ms / 60000, ms % 60000;
    var s, m := r / 1000, r % 1000;
    assert ms == 60000 * q + r;
    assert r == 1000 * s + m;
    assert ms == 1000 * (60 * q + s) + m;
    DivModUnique(ms, 1000, 60 * q + s, m);
    assert s < 60;
  }

  /**
   * The split is exact for every duration: minutes*60000 + seconds*1000 + ms
   * gives the duration back, seconds and milliseconds stay below a minute
   * and a second in magnitude, and all three carry the duration's sign.
   */
  lemma BreakdownExact(ms: int)
    ensures var c := Breakdown(ms);
            && c.minutes * 60000 + c.seconds * 1000 + c.millis == ms
            && -60 < c.seconds < 60 && -1000 < c.millis < 1000
            && (ms >= 0 ==> c.minutes >= 0 && c.seconds >= 0 && c.millis >= 0)
            && (ms <= 0 ==> c.minutes <= 0 && c.seconds <= 0 && c.millis <= 0)
  {
    if ms >= 0 {
      BreakdownNonNegExact(ms);
    } else {
      BreakdownNonNegExact(-ms);
      BreakdownNegates(ms);
    }
  }

  lemma BreakdownNegates(ms: int)
    requires ms < 0
    ensures Breakdown(ms) == Clock(-Breakdown(-ms).minutes, -Breakdown(-ms).seconds, -Breakdown(-ms).millis)
  {
    assert CDiv(ms, 60000) == -CDiv(-ms, 60000);
    assert CRem(ms, 60000) == -CRem(-ms, 60000);
    assert CRem(ms, 1000) == -CRem(-ms, 1000);
    var r := CRem(-ms, 60000);
    assert r >= 0;
    if r == 0 {
      assert CDiv(-r, 1000) == 0;
    } else {
      assert CDiv(-r, 1000) == -CDiv(r, 1000);
    }
  }

  /** print_duration's elapsed milliseconds: the nanosecond difference, or 0 when the end is not after the start. */
  function DurationMs(startNs: nat, endNs: nat): (ms: nat)
    ensures endNs <= startNs ==> ms == 0
    ensures endNs > startNs ==> ms * 1000000 <= endNs - startNs < (ms + 1) * 1000000
  {
    if endNs > startNs then (endNs - startNs) / 1000000 else 0
  }
}
