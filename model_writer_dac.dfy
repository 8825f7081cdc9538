/**
 * The inference-result DAC sink (log_results_dac): element 0 of every result
 * taken off the DAC result buffer is played as one clamped amplitude.
 */
module ModelWriterDac {
  import opened Common
  import opened Dac

  /** The amplitudes written for the results: one per result, of its output[0], in order. */
  function ResultAmplitudes(t: ElementType, rs: seq<ModelResult>): (a: seq<real>)
    ensures |a| == |rs|
  {
    if rs == [] then [] else [Amplitude(t, rs[0].output[0])] + ResultAmplitudes(t, rs[1..])
  }

  lemma {:induction false} ResultAmplitudesAppend(t: ElementType, a: seq<ModelResult>, b: seq<ModelResult>)
    ensures ResultAmplitudes(t, a + b) == ResultAmplitudes(t, a) + ResultAmplitudes(t, b)
  {
    if a == [] {
      assert a + b == b;
    } else {
      assert (a + b)[1..] == a[1..] + b;
      ResultAmplitudesAppend(t, a[1..], b);
    }
  }

  /**
   * One amplitude per result, in result order: the i-th written amplitude is
   * the clamped level of the i-th result's output[0], which lies in [-1, 1].
   */
  lemma {:induction false} ResultAmplitudesAt(t: ElementType, rs: seq<ModelResult>, i: nat)
    requires i < |rs|
    ensures ResultAmplitudes(t, rs)[i] == Amplitude(t, rs[i].output[0])
    ensures -1.0 <= ResultAmplitudes(t, rs)[i] <= 1.0
  {
    if i > 0 {
      ResultAmplitudesAt(t, rs[1..], i - 1);
    } else {
      AmplitudeMonotone(t, rs[0].output[0], rs[0].output[0]);
    }
  }

  /** The output holds exactly the amplitudes of the first `taken` results, in order. */
  ghost predicate Played(t: ElementType, played: seq<real>, history: seq<ModelResult>, taken: nat)
  {
    taken <= |history| && played == ResultAmplitudes(t, history[..taken])
  }

  /**
   * Playing the results queued after the first `taken` ones, on an output
   * that holds the amplitudes of those first ones, leaves it holding the
   * amplitudes of all of them, in result order.
   */
  lemma PlayedInOrder(t: ElementType, history: seq<ModelResult>, taken: nat, queue: seq<ModelResult>, played: seq<real>)
    requires taken + |queue| <= |history|
    requires history[..taken + |queue|] == history[..taken] + queue
    ensures Played(t, played, history, taken) ==> Played(t, played + ResultAmplitudes(t, queue), history, taken + |queue|)
  {
    ResultAmplitudesAppend(t, history[..taken], queue);
  }

  /**
   * The inner `while (!result_buffer_dac.empty())` loop: the front result is
   * peeked, its output[0] played, and only then popped and counted in
   * log_count_dac.
   */
  method DrainResultDac(ch: Channel, t: ElementType, gen: Generator)
    modifies ch`resultDac, gen
    ensures ch.resultDac == old(ch.resultDac).(queue := [], taken := old(ch.resultDac.taken) + |old(ch.resultDac.queue)|)
    ensures gen.amplitudes == old(gen.amplitudes) + ResultAmplitudes(t, old(ch.resultDac.queue))
  {
    ghost var s0, a0 := ch.resultDac, gen.amplitudes;
    ghost var q0 := s0.queue;
    ghost var k := 0;
    while ch.resultDac.queue != []
      invariant k <= |q0| && ch.resultDac == s0.(queue := q0[k..], taken := s0.taken + k)
      invariant gen.amplitudes == a0 + ResultAmplitudes(t, q0[..k])
      decreases |ch.resultDac.queue|
    {
      var result := ch.resultDac.queue[0];
      TakeSnoc(q0, k);
      ResultAmplitudesAppend(t, q0[..k], [result]);
      ConcatAssoc(a0, ResultAmplitudes(t, q0[..k]), [Amplitude(t, result.output[0])]);
      var voltage := OutputToVoltage(t, result.output[0]);
      voltage := Clamp(voltage);
      assert voltage == Amplitude(t, result.output[0]);
      gen.GenAmp(voltage);
      ch.resultDac := ch.resultDac.(queue := ch.resultDac.queue[1..], taken := ch.resultDac.taken + 1);
      k := k + 1;
    }
    assert q0[..k] == q0;
  }

  /**
   * A pass past the semaphore: the wake-up is consumed; a stopping program
   * with nothing buffered leaves at once, otherwise the buffer is drained
   * and the loop left when processing is done.
   */
  method ConsumeResultDac(ch: Channel, g: Flags, t: ElementType, gen: Generator) returns (leave: bool)
    requires ch.resultDac.sem > 0
    requires ch.resultDac.taken + |ch.resultDac.queue| <= |ch.inferred|
    requires ch.inferred[..ch.resultDac.taken + |ch.resultDac.queue|] == ch.inferred[..ch.resultDac.taken] + ch.resultDac.queue
    modifies ch`resultDac, gen
    ensures ch.resultDac == Stage([], old(ch.resultDac.sem) - 1, old(ch.resultDac.taken) + |old(ch.resultDac.queue)|)
    ensures gen.amplitudes == old(gen.amplitudes) + ResultAmplitudes(t, old(ch.resultDac.queue))
    ensures leave <==> (g.stopProgram && old(ch.resultDac.queue) == []) || ch.processingDone
    ensures old(Played(t, gen.amplitudes, ch.inferred, ch.resultDac.taken)) ==>
              Played(t, gen.amplitudes, ch.inferred, ch.resultDac.taken)
  {
    PlayedInOrder(t, ch.inferred, ch.resultDac.taken, ch.resultDac.queue, gen.amplitudes);
    ch.resultDac := ch.resultDac.(sem := ch.resultDac.sem - 1);
    if g.stopProgram && ch.resultDac.queue == [] {
      return true;
    }
    DrainResultDac(ch, t, gen);
    leave := ch.processingDone && ch.resultDac.queue == [];
  }

  /**
   * One pass of the log_results_dac loop: a zero result_sem_dac blocks;
   * otherwise the wake-up is consumed and the buffer played out, and the loop
   * is left on a stop with nothing buffered or once processing is done.
   */
  method ResultDacStep(ch: Channel, g: Flags, cfg: Config, t: ElementType, gen: Generator) returns (out: StageOutcome)
    requires ch.Valid(cfg)
    modifies ch`resultDac, gen
    ensures ch.Valid(cfg)
    ensures out == Blocked <==> old(ch.resultDac.sem) == 0
    ensures out == Blocked ==> ch.resultDac == old(ch.resultDac) && gen.amplitudes == old(gen.amplitudes)
    ensures out == Finished <==> out != Blocked && ((g.stopProgram && old(ch.resultDac.queue) == []) || ch.processingDone)
    ensures out != Blocked ==>
              && ch.resultDac == Stage([], old(ch.resultDac.sem) - 1, old(ch.resultDac.taken) + |old(ch.resultDac.queue)|)
              && gen.amplitudes == old(gen.amplitudes) + ResultAmplitudes(t, old(ch.resultDac.queue))
    ensures old(Played(t, gen.amplitudes, ch.inferred, ch.resultDac.taken)) ==>
              Played(t, gen.amplitudes, ch.inferred, ch.resultDac.taken)
  {
    if ch.resultDac.sem == 0 {
      return Blocked;
    }
    TracksConsumed(cfg.saveOutputDac, ch.resultDac, ch.inferred);
    var leave := ConsumeResultDac(ch, g, t, gen);
    SinkPassKeepsValid(cfg, ch.width, ch.acquireCount, ch.acquired, ch.inferred, ch.model,
                       ch.dataCsv, ch.dataDac, ch.resultCsv, old(ch.resultDac),
                       ch.dataCsv, ch.dataDac, ch.resultCsv, ch.resultDac);
    out := if leave then Finished else Continue;
  }
}
