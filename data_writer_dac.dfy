/**
 * The raw-data DAC sink (write_data_dac): every chunk taken off the DAC data
 * queue is played on the analog output, one clamped amplitude per sample.
 */
module DataWriterDac {
  import opened Common
  import opened Dac

  /** The amplitudes written for one chunk, one per sample, in sample order. */
  function ChunkAmplitudes(t: ElementType, c: Chunk): (a: seq<real>)
    ensures |a| == |c|
    ensures forall i | 0 <= i < |c| :: a[i] == Amplitude(t, c[i])
  {
    if c == [] then [] else [Amplitude(t, c[0])] + ChunkAmplitudes(t, c[1..])
  }

  /** The amplitudes written for the chunks, chunk after chunk. */
  function Amplitudes(t: ElementType, chunks: seq<Chunk>): seq<real>
  {
    if chunks == [] then [] else ChunkAmplitudes(t, chunks[0]) + Amplitudes(t, chunks[1..])
  }

  lemma {:induction false} AmplitudesAppend(t: ElementType, a: seq<Chunk>, b: seq<Chunk>)
    ensures Amplitudes(t, a + b) == Amplitudes(t, a) + Amplitudes(t, b)
  {
    if a == [] {
      assert a + b == b;
    } else {
      assert (a + b)[1..] == a[1..] + b;
      AmplitudesAppend(t, a[1..], b);
    }
  }

  lemma ChunkAmplitudesSnoc(t: ElementType, c: Chunk, k: nat)
    requires k < |c|
    ensures ChunkAmplitudes(t, c[..k + 1]) == ChunkAmplitudes(t, c[..k]) + [Amplitude(t, c[k])]
  {
    var lhs, rhs := ChunkAmplitudes(t, c[..k + 1]), ChunkAmplitudes(t, c[..k]) + [Amplitude(t, c[k])];
    forall i | 0 <= i < |lhs| ensures lhs[i] == rhs[i] {
    }
  }

  /** Chunks of `width` samples give exactly `width` amplitude writes each. */
  lemma {:induction false} AmplitudesCount(t: ElementType, chunks: seq<Chunk>, width: nat)
    requires AllOfWidth(chunks, width)
    ensures |Amplitudes(t, chunks)| == width * |chunks|
  {
    if chunks != [] {
      var n := |chunks[1..]|;
      assert |chunks[0]| == width;
      AmplitudesCount(t, chunks[1..], width);
      MulSucc(width, n);
    }
  }

  lemma MulSucc(a: nat, n: nat)
    ensures a * (n + 1) == a + a * n
  {
  }

  /** Every amplitude written lies in [-1, 1]. */
  lemma {:induction false} AmplitudesBounded(t: ElementType, chunks: seq<Chunk>)
    ensures forall i | 0 <= i < |Amplitudes(t, chunks)| :: -1.0 <= Amplitudes(t, chunks)[i] <= 1.0
  {
    if chunks != [] {
      AmplitudesBounded(t, chunks[1..]);
      var head := ChunkAmplitudes(t, chunks[0]);
      forall i | 0 <= i < |head| ensures -1.0 <= head[i] <= 1.0 {
        AmplitudeMonotone(t, chunks[0][i], chunks[0][i]);
      }
    }
  }

  /** The output holds exactly the amplitudes of the first `taken` chunks, in order. */
  ghost predicate Played(t: ElementType, played: seq<real>, history: seq<Chunk>, taken: nat)
  {
    taken <= |history| && played == Amplitudes(t, history[..taken])
  }

  /**
   * Playing the chunks queued after the first `taken` ones, on an output
   * that holds the amplitudes of those first ones, leaves it holding the
   * amplitudes of all of them, in chunk order.
   */
  lemma PlayedInOrder(t: ElementType, history: seq<Chunk>, taken: nat, queue: seq<Chunk>, played: seq<real>)
    requires taken + |queue| <= |history|
    requires history[..taken + |queue|] == history[..taken] + queue
    ensures Played(t, played, history, taken) ==> Played(t, played + Amplitudes(t, queue), history, taken + |queue|)
  {
    AmplitudesAppend(t, history[..taken], queue);
  }

  /** The inner `for k` loop: one rp_GenAmp per sample, in index order. */
  method PlayChunk(gen: Generator, t: ElementType, c: Chunk)
    modifies gen
    ensures gen.amplitudes == old(gen.amplitudes) + ChunkAmplitudes(t, c)
  {
    ghost var a0 := gen.amplitudes;
    for k := 0 to |c|
      invariant gen.amplitudes == a0 + ChunkAmplitudes(t, c[..k])
    {
      ChunkAmplitudesSnoc(t, c, k);
      var voltage := OutputToVoltage(t, c[k]);
      voltage := Clamp(voltage);
      assert voltage == Amplitude(t, c[k]);
      gen.GenAmp(voltage);
    }
    assert c[..|c|] == c;
  }

  /**
   * The inner `while (!data_queue_dac.empty())` loop: every queued chunk,
   * front first, popped, played and counted in write_count_dac.
   */
  method DrainDataDac(ch: Channel, t: ElementType, gen: Generator)
    modifies ch`dataDac, gen
    ensures ch.dataDac == old(ch.dataDac).(queue := [], taken := old(ch.dataDac.taken) + |old(ch.dataDac.queue)|)
    ensures gen.amplitudes == old(gen.amplitudes) + Amplitudes(t, old(ch.dataDac.queue))
  {
    ghost var s0, a0 := ch.dataDac, gen.amplitudes;
    ghost var q0 := s0.queue;
    ghost var k := 0;
    while ch.dataDac.queue != []
      invariant k <= |q0| && ch.dataDac == s0.(queue := q0[k..], taken := s0.taken + k)
      invariant gen.amplitudes == a0 + Amplitudes(t, q0[..k])
      decreases |ch.dataDac.queue|
    {
      var part := ch.dataDac.queue[0];
      TakeSnoc(q0, k);
      AmplitudesAppend(t, q0[..k], [part]);
      ConcatAssoc(a0, Amplitudes(t, q0[..k]), ChunkAmplitudes(t, part));
      ch.dataDac := ch.dataDac.(queue := ch.dataDac.queue[1..]);
      PlayChunk(gen, t, part);
      ch.dataDac := ch.dataDac.(taken := ch.dataDac.taken + 1);
      k := k + 1;
    }
    assert q0[..k] == q0;
  }

  /**
   * A pass past the semaphore: the wake-up is consumed; a stopping program
   * with nothing queued leaves at once, otherwise the queue is drained and
   * the loop left when acquisition is done.
   */
  method ConsumeDataDac(ch: Channel, g: Flags, t: ElementType, gen: Generator) returns (leave: bool)
    requires ch.dataDac.sem > 0
    requires ch.dataDac.taken + |ch.dataDac.queue| <= |ch.acquired|
    requires ch.acquired[..ch.dataDac.taken + |ch.dataDac.queue|] == ch.acquired[..ch.dataDac.taken] + ch.dataDac.queue
    modifies ch`dataDac, gen
    ensures ch.dataDac == Stage([], old(ch.dataDac.sem) - 1, old(ch.dataDac.taken) + |old(ch.dataDac.queue)|)
    ensures gen.amplitudes == old(gen.amplitudes) + Amplitudes(t, old(ch.dataDac.queue))
    ensures leave <==> (g.stopProgram && old(ch.dataDac.queue) == []) || ch.acquisitionDone
    ensures old(Played(t, gen.amplitudes, ch.acquired, ch.dataDac.taken)) ==>
              Played(t, gen.amplitudes, ch.acquired, ch.dataDac.taken)
  {
    PlayedInOrder(t, ch.acquired, ch.dataDac.taken, ch.dataDac.queue, gen.amplitudes);
    ch.dataDac := ch.dataDac.(sem := ch.dataDac.sem - 1);
    if g.stopProgram && ch.dataDac.queue == [] {
      return true;
    }
    DrainDataDac(ch, t, gen);
    leave := ch.acquisitionDone && ch.dataDac.queue == [];
  }

  /**
   * One pass of the write_data_dac loop: a zero data_sem_dac blocks;
   * otherwise the wake-up is consumed and the queue played out, and the loop
   * is left on a stop with nothing queued or once acquisition is done.
   */
  method DataDacStep(ch: Channel, g: Flags, cfg: Config, t: ElementType, gen: Generator) returns (out: StageOutcome)
    requires ch.Valid(cfg)
    modifies ch`dataDac, gen
    ensures ch.Valid(cfg)
    ensures out == Blocked <==> old(ch.dataDac.sem) == 0
    ensures out == Blocked ==> ch.dataDac == old(ch.dataDac) && gen.amplitudes == old(gen.amplitudes)
    ensures out == Finished <==> out != Blocked && ((g.stopProgram && old(ch.dataDac.queue) == []) || ch.acquisitionDone)
    ensures out != Blocked ==>
              && ch.dataDac == Stage([], old(ch.dataDac.sem) - 1, old(ch.dataDac.taken) + |old(ch.dataDac.queue)|)
              && gen.amplitudes == old(gen.amplitudes) + Amplitudes(t, old(ch.dataDac.queue))
    ensures old(Played(t, gen.amplitudes, ch.acquired, ch.dataDac.taken)) ==>
              Played(t, gen.amplitudes, ch.acquired, ch.dataDac.taken)
  {
    if ch.dataDac.sem == 0 {
      return Blocked;
    }
    TracksConsumed(cfg.saveDataDac, ch.dataDac, ch.acquired);
    var leave := ConsumeDataDac(ch, g, t, gen);
    SinkPassKeepsValid(cfg, ch.width, ch.acquireCount, ch.acquired, ch.inferred, ch.model,
                       old(ch.dataCsv), old(ch.dataDac), ch.resultCsv, ch.resultDac,
                       ch.dataCsv, ch.dataDac, ch.resultCsv, ch.resultDac);
    out := if leave then Finished else Continue;
  }
}
