/**
 * The inference-result CSV sink (log_results_csv): every result taken off the
 * CSV result buffer becomes one line "index,value,time", numbered from 1.
 * The time is rendered by `fmt`, which stands for fprintf's "%.6f" of the
 * measured inference time.
 */
module ModelWriterCsv {
  import opened Common
  import opened Printf

  /** A complete line: it ends in a line break, and has no other when the time text has none. */
  predicate IsLine(line: string, time: string)
  {
    |line| >= 1 && line[|line| - 1] == '\n' && ('\n' !in time ==> '\n' !in line[..|line| - 1])
  }

  /** write_output for an integral output: "%d,%d,%.6f\n" of the index, the value and the time. */
  function WriteOutput(index: int, value: int, time: string): (line: string)
    ensures IsLine(line, time)
  {
    DecimalIsField(index);
    DecimalIsField(value);
    var body := Decimal(index) + "," + Decimal(value) + "," + time;
    assert (body + "\n")[..|body|] == body;
    body + "\n"
  }

  /**
   * A written line reads back as what was written: it ends in its only line
   * break, and splitting the rest at its commas gives three fields, the
   * first two parsing to the index and the value and the third the time.
   */
  lemma OutputLineReadsBack(index: int, value: int, time: string)
    requires IsField(time)
    ensures var line := WriteOutput(index, value, time);
            && |line| >= 1 && line[|line| - 1] == '\n' && '\n' !in line[..|line| - 1]
            && Split(line[..|line| - 1]) == [Decimal(index), Decimal(value), time]
            && ParseDecimal(Split(line[..|line| - 1])[0]) == Some(index)
            && ParseDecimal(Split(line[..|line| - 1])[1]) == Some(value)
  {
    var fields := [Decimal(index), Decimal(value), time];
    DecimalIsField(index);
    DecimalIsField(value);
    DecimalRoundTrip(index);
    DecimalRoundTrip(value);
    assert JoinCommas(fields[2..]) == time;
    assert JoinCommas(fields) == Decimal(index) + "," + (Decimal(value) + "," + time);
    var line := WriteOutput(index, value, time);
    assert line[..|line| - 1] == JoinCommas(fields);
    forall f | f in fields ensures ',' !in f && '\n' !in f {
    }
    SplitJoin(fields);
    JoinCommasNoNewline(fields);
  }

  /** The lines logged for the results, numbered consecutively from `first`: only output[0] of each. */
  function LogLines(first: int, rs: seq<ModelResult>, fmt: real -> string): string
    decreases rs
  {
    if rs == [] then "" else WriteOutput(first, rs[0].output[0], fmt(rs[0].computationTime)) + LogLines(first + 1, rs[1..], fmt)
  }

  /** Logging two batches in turn numbers the second batch on from where the first stopped. */
  lemma {:induction false} LogLinesAppend(first: int, a: seq<ModelResult>, b: seq<ModelResult>, fmt: real -> string)
    ensures LogLines(first, a + b, fmt) == LogLines(first, a, fmt) + LogLines(first + |a|, b, fmt)
    decreases a
  {
    if a == [] {
      assert a + b == b;
    } else {
      assert (a + b)[1..] == a[1..] + b;
      LogLinesAppend(first + 1, a[1..], b, fmt);
    }
  }

  lemma LogLinesSingle(first: int, r: ModelResult, fmt: real -> string)
    ensures LogLines(first, [r], fmt) == WriteOutput(first, r.output[0], fmt(r.computationTime))
  {
    assert [r][1..] == [];
    assert WriteOutput(first, r.output[0], fmt(r.computationTime)) + "" == WriteOutput(first, r.output[0], fmt(r.computationTime));
  }

  /** The k-th logged line (counting from 0) is the line of result k, carrying index first + k. */
  lemma LogLinesSplit(first: int, rs: seq<ModelResult>, k: nat, fmt: real -> string)
    requires k < |rs|
    ensures LogLines(first, rs, fmt) ==
              LogLines(first, rs[..k], fmt)
              + WriteOutput(first + k, rs[k].output[0], fmt(rs[k].computationTime))
              + LogLines(first + k + 1, rs[k + 1..], fmt)
  {
    assert rs == rs[..k] + ([rs[k]] + rs[k + 1..]);
    LogLinesAppend(first, rs[..k], [rs[k]] + rs[k + 1..], fmt);
    LogLinesAppend(first + k, [rs[k]], rs[k + 1..], fmt);
    LogLinesSingle(first + k, rs[k], fmt);
  }

  /** The log holds exactly the lines of the first `taken` results, numbered from 1. */
  ghost predicate Logged(text: string, history: seq<ModelResult>, taken: nat, fmt: real -> string)
  {
    taken <= |history| && text == LogLines(1, history[..taken], fmt)
  }

  /**
   * Logging the results queued after the first `taken` ones, numbered on
   * from taken + 1, to a log that holds the lines of those first ones,
   * leaves it holding the lines of all of them.
   */
  lemma LoggedInOrder(history: seq<ModelResult>, taken: nat, queue: seq<ModelResult>, text: string,
                      fmt: real -> string, index: int)
    requires taken + |queue| <= |history|
    requires history[..taken + |queue|] == history[..taken] + queue
    ensures Logged(text, history, taken, fmt) && index == taken + 1 ==>
              Logged(text + LogLines(index, queue, fmt), history, taken + |queue|, fmt)
  {
    LogLinesAppend(1, history[..taken], queue, fmt);
  }

  /** fopen of the output file; the index of the first line to write is 1. */
  method OpenResultLog(succeeds: bool) returns (file: Option<TextFile>, index: int)
    ensures file.Some? <==> succeeds
    ensures file.Some? ==> fresh(file.value) && file.value.text == ""
    ensures index == 1
  {
    file := Open(succeeds);
    index := 1;
  }

  /**
   * The inner `while (!result_buffer_csv.empty())` loop: the front result is
   * written with the next index, and only then popped and counted in
   * log_count_csv.
   */
  method DrainResultCsv(ch: Channel, file: TextFile, fmt: real -> string, index: int) returns (next: int)
    modifies ch`resultCsv, file
    ensures ch.resultCsv == old(ch.resultCsv).(queue := [], taken := old(ch.resultCsv.taken) + |old(ch.resultCsv.queue)|)
    ensures file.text == old(file.text) + LogLines(index, old(ch.resultCsv.queue), fmt)
    ensures next == index + |old(ch.resultCsv.queue)|
  {
    ghost var s0, text0 := ch.resultCsv, file.text;
    ghost var q0 := s0.queue;
    ghost var k := 0;
    next := index;
    while ch.resultCsv.queue != []
      invariant k <= |q0| && ch.resultCsv == s0.(queue := q0[k..], taken := s0.taken + k)
      invariant next == index + k
      invariant file.text == text0 + LogLines(index, q0[..k], fmt)
      decreases |ch.resultCsv.queue|
    {
      var result := ch.resultCsv.queue[0];
      var line := WriteOutput(next, result.output[0], fmt(result.computationTime));
      TakeSnoc(q0, k);
      LogLinesAppend(index, q0[..k], [result], fmt);
      LogLinesSingle(next, result, fmt);
      ConcatAssoc(text0, LogLines(index, q0[..k], fmt), line);
      file.Write(line);
      next := next + 1;
      ch.resultCsv := ch.resultCsv.(queue := ch.resultCsv.queue[1..], taken := ch.resultCsv.taken + 1);
      k := k + 1;
    }
    assert q0[..k] == q0;
  }

  /**
   * A pass past the semaphore: the wake-up is consumed; a stopping program
   * with nothing buffered leaves at once, otherwise the buffer is drained
   * and the loop left when processing is done.
   */
  method ConsumeResultCsv(ch: Channel, g: Flags, file: TextFile, fmt: real -> string, index: int)
    returns (leave: bool, next: int)
    requires ch.resultCsv.sem > 0
    requires ch.resultCsv.taken + |ch.resultCsv.queue| <= |ch.inferred|
    requires ch.inferred[..ch.resultCsv.taken + |ch.resultCsv.queue|] == ch.inferred[..ch.resultCsv.taken] + ch.resultCsv.queue
    modifies ch`resultCsv, file
    ensures ch.resultCsv == Stage([], old(ch.resultCsv.sem) - 1, old(ch.resultCsv.taken) + |old(ch.resultCsv.queue)|)
    ensures file.text == old(file.text) + LogLines(index, old(ch.resultCsv.queue), fmt)
    ensures next == index + |old(ch.resultCsv.queue)|
    ensures leave <==> (g.stopProgram && old(ch.resultCsv.queue) == []) || ch.processingDone
    ensures old(Logged(file.text, ch.inferred, ch.resultCsv.taken, fmt)) && index == old(ch.resultCsv.taken) + 1 ==>
              Logged(file.text, ch.inferred, ch.resultCsv.taken, fmt) && next == ch.resultCsv.taken + 1
  {
    LoggedInOrder(ch.inferred, ch.resultCsv.taken, ch.resultCsv.queue, file.text, fmt, index);
    ch.resultCsv := ch.resultCsv.(sem := ch.resultCsv.sem - 1);
    if g.stopProgram && ch.resultCsv.queue == [] {
      assert file.text + LogLines(index, ch.resultCsv.queue, fmt) == file.text;
      return true, index;
    }
    next := DrainResultCsv(ch, file, fmt, index);
    leave := ch.processingDone && ch.resultCsv.queue == [];
  }

  /**
   * One pass of the log_results_csv loop: a zero result_sem_csv blocks;
   * otherwise the wake-up is consumed and the buffer logged, and the loop
   * is left on a stop with nothing buffered or once processing is done.
   * `index` is output_index, kept by the caller from one pass to the next.
   */
  method ResultCsvStep(ch: Channel, g: Flags, cfg: Config, file: TextFile, fmt: real -> string, index: int)
    returns (out: StageOutcome, next: int)
    requires ch.Valid(cfg)
    modifies ch`resultCsv, file
    ensures ch.Valid(cfg)
    ensures out == Blocked <==> old(ch.resultCsv.sem) == 0
    ensures out == Blocked ==> ch.resultCsv == old(ch.resultCsv) && file.text == old(file.text) && next == index
    ensures out == Finished <==> out != Blocked && ((g.stopProgram && old(ch.resultCsv.queue) == []) || ch.processingDone)
    ensures out != Blocked ==>
              && ch.resultCsv == Stage([], old(ch.resultCsv.sem) - 1, old(ch.resultCsv.taken) + |old(ch.resultCsv.queue)|)
              && file.text == old(file.text) + LogLines(index, old(ch.resultCsv.queue), fmt)
              && next == index + |old(ch.resultCsv.queue)|
    ensures old(Logged(file.text, ch.inferred, ch.resultCsv.taken, fmt)) && index == old(ch.resultCsv.taken) + 1 ==>
              Logged(file.text, ch.inferred, ch.resultCsv.taken, fmt) && next == ch.resultCsv.taken + 1
  {
    if ch.resultCsv.sem == 0 {
      return Blocked, index;
    }
    TracksConsumed(cfg.saveOutputCsv, ch.resultCsv, ch.inferred);
    var leave;
    leave, next := ConsumeResultCsv(ch, g, file, fmt, index);
    SinkPassKeepsValid(cfg, ch.width, ch.acquireCount, ch.acquired, ch.inferred, ch.model,
                       ch.dataCsv, ch.dataDac, old(ch.resultCsv), ch.resultDac,
                       ch.dataCsv, ch.dataDac, ch.resultCsv, ch.resultDac);
    out := if leave then Finished else Continue;
  }
}
