/**
 * The inference stage: the integer branch of sample_norm (min/max scaling of
 * a chunk's column 0 to [0, 512]) and one body of the model_inference /
 * model_inference_mod loops, which drain the model queue through `cnn` into
 * the enabled result buffers. `cnn` is a parameter: any pure function from a
 * chunk to a non-empty output vector. The inference time of each result comes
 * from a clock parameter indexed by the result's position.
 */
module ModelProcessing {
  import opened Common

  /** Whether v fits the element type. */
  predicate InRange(t: InputType, v: int)
  {
    if t == Int16Type then -32768 <= v <= 32767 else -128 <= v <= 127
  }

  /** Storing an int into an element of type t: two's-complement wrap-around. */
  function Wrap(t: InputType, v: int): (r: int)
    ensures InRange(t, r)
    ensures InRange(t, v) ==> r == v
  {
    if t == Int16Type then (v + 32768) % 65536 - 32768 else (v + 128) % 256 - 128
  }

  /** The stored value differs from the computed one by a multiple of the type's modulus. */
  lemma WrapIsModular(t: InputType, v: int)
    ensures t == Int16Type ==> (v - Wrap(t, v)) % 65536 == 0
    ensures t == Int8Type ==> (v - Wrap(t, v)) % 256 == 0
  {
  }

  /** The smallest sample, found by a left-to-right scan. */
  function SeqMin(s: seq<int>): (m: int)
    requires |s| >= 1
    ensures forall i | 0 <= i < |s| :: m <= s[i]
  {
    if |s| == 1 then s[0]
    else
      var m' := SeqMin(s[..|s| - 1]);
      if s[|s| - 1] < m' then s[|s| - 1] else m'
  }

  /** The largest sample, found by a left-to-right scan. */
  function SeqMax(s: seq<int>): (m: int)
    requires |s| >= 1
    ensures forall i | 0 <= i < |s| :: s[i] <= m
  {
    if |s| == 1 then s[0]
    else
      var m' := SeqMax(s[..|s| - 1]);
      if s[|s| - 1] > m' then s[|s| - 1] else m'
  }

  /** The minimum and the maximum are samples of the chunk. */
  lemma {:induction false} SeqMinMaxAttained(s: seq<int>)
    requires |s| >= 1
    ensures exists i | 0 <= i < |s| :: s[i] == SeqMin(s)
    ensures exists i | 0 <= i < |s| :: s[i] == SeqMax(s)
  {
    if |s| > 1 {
      var p := s[..|s| - 1];
      SeqMinMaxAttained(p);
      var i :| 0 <= i < |p| && p[i] == SeqMin(p);
      var j :| 0 <= j < |p| && p[j] == SeqMax(p);
      var last := |s| - 1;
      if s[last] < SeqMin(p) {
        assert s[last] == SeqMin(s);
      } else {
        assert s[i] == SeqMin(s);
      }
      if s[last] > SeqMax(p) {
        assert s[last] == SeqMax(s);
      } else {
        assert s[j] == SeqMax(s);
      }
    } else {
      assert s[0] == SeqMin(s) && s[0] == SeqMax(s);
    }
  }

  /**
   * The divisor: max - min stored back into the element type, with 0 replaced
   * by 1. When the span fits the type the divisor is the span itself (or 1).
   */
  function NormRange(t: InputType, lo: int, hi: int): (r: int)
    ensures r != 0
    ensures lo <= hi && InRange(t, hi - lo) ==> r == if hi == lo then 1 else hi - lo
  {
    var w := Wrap(t, hi - lo);
    if w == 0 then 1 else w
  }

  /** ((x - min) * 512) / range in int arithmetic. */
  function Scale(x: int, lo: int, range: int): int
    requires range != 0
  {
    CDiv((x - lo) * 512, range)
  }

  /** The scaled value of sample x in a chunk with minimum lo and maximum hi, before it is stored. */
  function Scaled(t: InputType, x: int, lo: int, hi: int): int
  {
    Scale(x, lo, NormRange(t, lo, hi))
  }

  /** The value sample_norm stores for sample x of a chunk with minimum lo and maximum hi. */
  function NormalizeValue(t: InputType, x: int, lo: int, hi: int): (r: int)
    ensures InRange(t, r)
  {
    Wrap(t, Scaled(t, x, lo, hi))
  }

  /** The chunk sample_norm leaves behind, as a value. */
  function NormalizeChunk(t: InputType, c: Chunk): (r: Chunk)
    ensures |r| == |c| && forall i | 0 <= i < |r| :: InRange(t, r[i])
  {
    if c == [] then [] else NormalizeWith(t, c, SeqMin(c), SeqMax(c))
  }

  /** Every sample of the chunk normalised against the given minimum and maximum. */
  function NormalizeWith(t: InputType, c: Chunk, lo: int, hi: int): (r: Chunk)
    ensures |r| == |c|
    ensures forall i {:trigger r[i]} | 0 <= i < |c| :: r[i] == NormalizeValue(t, c[i], lo, hi)
  {
    seq(|c|, i requires 0 <= i < |c| => NormalizeValue(t, c[i], lo, hi))
  }

  lemma MulMonotone(d: int, x: int, y: int)
    requires d > 0 && x <= y
    ensures d * x <= d * y
  {
  }

  lemma MulCancel(d: int, x: int, y: int)
    requires d > 0 && d * x < d * y
    ensures x < y
  {
    if x >= y {
      MulMonotone(d, y, x);
    }
  }

  lemma DivMonotone(a: int, b: int, d: int)
    requires 0 <= a <= b && d > 0
    ensures a / d <= b / d
  {
    var qa, qb := a / d, b / d;
    assert d * qa <= a && b < d * qb + d;
    MulCancel(d, qa, qb + 1);
  }

  lemma DivExact(q: int, d: int)
    requires d > 0
    ensures (d * q) / d == q
  {
    var r := (d * q) / d;
    assert d * r <= d * q < d * r + d;
    MulCancel(d, r, q + 1);
    MulCancel(d, q, r + 1);
  }

  /** A quotient by d of a value between 0 and 512 * d lies between 0 and 512, reaching both ends. */
  lemma QuotientBounds(n: int, d: int)
    requires d > 0 && 0 <= n <= d * 512
    ensures 0 <= n / d <= 512
    ensures n == 0 ==> n / d == 0
    ensures n == d * 512 ==> n / d == 512
  {
    DivNonNeg(n, d);
    DivMonotone(n, d * 512, d);
    DivExact(512, d);
  }

  /**
   * With the span inside the element type, the scaled value of a sample lies
   * in [0, 512]; the minimum scales to 0 and the maximum to 512.
   */
  lemma ScaledBounds(t: InputType, x: int, lo: int, hi: int)
    requires lo <= x <= hi && InRange(t, hi - lo)
    ensures 0 <= Scaled(t, x, lo, hi) <= 512
    ensures x == lo ==> Scaled(t, x, lo, hi) == 0
    ensures x == hi && lo < hi ==> Scaled(t, x, lo, hi) == 512
  {
    var n: int := (x - lo) * 512;
    if lo == hi {
      assert Scaled(t, x, lo, hi) == n / 1;
    } else {
      var span: int := hi - lo;
      assert NormRange(t, lo, hi) == span;
      assert Scaled(t, x, lo, hi) == n / span;
      QuotientBounds(n, span);
    }
  }

  /** With the span inside the element type, scaling preserves the order of samples. */
  lemma ScaledMonotone(t: InputType, x: int, y: int, lo: int, hi: int)
    requires lo <= x <= y <= hi && InRange(t, hi - lo)
    ensures Scaled(t, x, lo, hi) <= Scaled(t, y, lo, hi)
  {
    if lo < hi {
      var span: int := hi - lo;
      assert NormRange(t, lo, hi) == span;
      var nx: int, ny: int := (x - lo) * 512, (y - lo) * 512;
      assert Scaled(t, x, lo, hi) == nx / span && Scaled(t, y, lo, hi) == ny / span;
      DivMonotone(nx, ny, span);
    }
  }

  /**
   * For int16 chunks whose span fits an int16, the stored values are the
   * scaled ones: all in [0, 512], the minimum at 0, the maximum at 512 (when
   * the chunk is not constant), and sample order preserved.
   */
  lemma NormalizeChunkInt16(c: Chunk)
    requires |c| >= 1 && SeqMax(c) - SeqMin(c) <= 32767
    ensures var r := NormalizeChunk(Int16Type, c);
      && (forall i | 0 <= i < |c| :: 0 <= r[i] <= 512)
      && (forall i | 0 <= i < |c| && c[i] == SeqMin(c) :: r[i] == 0)
      && (forall i | 0 <= i < |c| && c[i] == SeqMax(c) && SeqMin(c) < SeqMax(c) :: r[i] == 512)
      && (forall i, j | 0 <= i < |c| && 0 <= j < |c| && c[i] <= c[j] :: r[i] <= r[j])
  {
    var r := NormalizeChunk(Int16Type, c);
    var lo, hi := SeqMin(c), SeqMax(c);
    forall i | 0 <= i < |c|
      ensures 0 <= r[i] <= 512 && r[i] == Scaled(Int16Type, c[i], lo, hi)
      ensures c[i] == lo ==> r[i] == 0
      ensures c[i] == hi && lo < hi ==> r[i] == 512
    {
      ScaledBounds(Int16Type, c[i], lo, hi);
    }
    forall i, j | 0 <= i < |c| && 0 <= j < |c| && c[i] <= c[j]
      ensures r[i] <= r[j]
    {
      ScaledBounds(Int16Type, c[i], lo, hi);
      ScaledBounds(Int16Type, c[j], lo, hi);
      ScaledMonotone(Int16Type, c[i], c[j], lo, hi);
    }
  }

  /** A constant chunk has its range replaced by 1: every sample becomes 0, for either element type. */
  lemma ConstantChunkNormalizesToZero(t: InputType, c: Chunk)
    requires |c| >= 1 && forall i | 0 <= i < |c| :: c[i] == c[0]
    ensures forall i | 0 <= i < |c| :: NormalizeChunk(t, c)[i] == 0
  {
    SeqMinMaxAttained(c);
    assert SeqMin(c) == c[0] && SeqMax(c) == c[0];
    assert NormRange(t, c[0], c[0]) == 1;
  }

  /** The first loop of sample_norm: minimum and maximum of column 0, scanning from row 1. */
  method ChunkMinMax(data: array2<int>) returns (lo: int, hi: int)
    requires data.Length0 >= 1 && data.Length1 >= 1
    ensures lo == SeqMin(Column0(data)) && hi == SeqMax(Column0(data))
  {
    ghost var c := Column0(data);
    lo, hi := data[0, 0], data[0, 0];
    for i := 1 to data.Length0
      invariant lo == SeqMin(c[..i]) && hi == SeqMax(c[..i])
    {
      assert c[..i + 1][..i] == c[..i];
      if data[i, 0] < lo {
        lo := data[i, 0];
      }
      if data[i, 0] > hi {
        hi := data[i, 0];
      }
    }
    assert c[..data.Length0] == c;
  }

  /** The second loop of sample_norm: every column-0 sample replaced by its scaled and stored value. */
  method RescaleColumn0(t: InputType, data: array2<int>, lo: int, range: int)
    requires data.Length1 >= 1 && range != 0
    modifies data
    ensures forall k | 0 <= k < data.Length0 :: data[k, 0] == Wrap(t, Scale(old(data[k, 0]), lo, range))
    ensures forall k, j | 0 <= k < data.Length0 && 1 <= j < data.Length1 :: data[k, j] == old(data[k, j])
  {
    for i := 0 to data.Length0
      invariant forall k | 0 <= k < i :: data[k, 0] == Wrap(t, Scale(old(data[k, 0]), lo, range))
      invariant forall k | i <= k < data.Length0 :: data[k, 0] == old(data[k, 0])
      invariant forall k, j | 0 <= k < data.Length0 && 1 <= j < data.Length1 :: data[k, j] == old(data[k, j])
    {
      data[i, 0] := Wrap(t, Scale(data[i, 0], lo, range));
    }
  }

  /**
   * sample_norm on a chunk buffer in place: column 0 becomes the normalised
   * chunk; every other column is left as it was.
   */
  method SampleNorm(t: InputType, data: array2<int>)
    requires data.Length0 >= 1 && data.Length1 >= 1
    modifies data
    ensures Column0(data) == NormalizeChunk(t, old(Column0(data)))
    ensures forall i, j | 0 <= i < data.Length0 && 1 <= j < data.Length1 :: data[i, j] == old(data[i, j])
  {
    ghost var c := Column0(data);
    var lo, hi := ChunkMinMax(data);
    var range := Wrap(t, hi - lo);
    if range == 0 {
      range := 1;
    }
    assert range == NormRange(t, lo, hi);
    RescaleColumn0(t, data, lo, range);
    RescaledIsNormalized(t, c, Column0(data), range);
  }

  /** Rescaling every sample with the chunk's own minimum and divisor is the normalised chunk. */
  lemma RescaledIsNormalized(t: InputType, c: Chunk, d: Chunk, range: int)
    requires |c| >= 1 && |d| == |c| && range == NormRange(t, SeqMin(c), SeqMax(c))
    requires forall k | 0 <= k < |c| :: d[k] == Wrap(t, Scale(c[k], SeqMin(c), range))
    ensures d == NormalizeChunk(t, c)
  {
  }

  /** c2 is c with the same offset d added to every sample (a DC shift of the input signal). */
  predicate Shifted(c: Chunk, c2: Chunk, d: int)
  {
    |c2| == |c| && forall i | 0 <= i < |c| :: c2[i] == c[i] + d
  }

  /** Shifting every sample shifts the minimum and the maximum by the same offset. */
  lemma {:induction false} SeqMinMaxShift(c: Chunk, c2: Chunk, d: int)
    requires |c| >= 1 && Shifted(c, c2, d)
    ensures SeqMin(c2) == SeqMin(c) + d
    ensures SeqMax(c2) == SeqMax(c) + d
  {
    if |c| > 1 {
      var n := |c| - 1;
      SeqMinMaxShift(c[..n], c2[..n], d);
    }
  }

  lemma NormalizeValueShift(t: InputType, x: int, lo: int, hi: int, d: int)
    ensures NormalizeValue(t, x + d, lo + d, hi + d) == NormalizeValue(t, x, lo, hi)
  {
    var range := NormRange(t, lo, hi);
    assert NormRange(t, lo + d, hi + d) == range by {
      assert (hi + d) - (lo + d) == hi - lo;
    }
    var n: int := x - lo;
    assert (x + d) - (lo + d) == n;
  }

  /** Shifting the samples and both bounds by the same offset normalises to the same values. */
  lemma NormalizeWithShift(t: InputType, c: Chunk, c2: Chunk, lo: int, hi: int, d: int)
    requires Shifted(c, c2, d)
    ensures NormalizeWith(t, c2, lo + d, hi + d) == NormalizeWith(t, c, lo, hi)
  {
    var r, r2 := NormalizeWith(t, c, lo, hi), NormalizeWith(t, c2, lo + d, hi + d);
    forall i | 0 <= i < |c|
      ensures r2[i] == r[i]
    {
      NormalizeValueShift(t, c[i], lo, hi, d);
    }
  }

  lemma NormalizeChunkWithBounds(t: InputType, c: Chunk, lo: int, hi: int)
    requires c != [] && SeqMin(c) == lo && SeqMax(c) == hi
    ensures NormalizeChunk(t, c) == NormalizeWith(t, c, lo, hi)
  {
  }

  /** Min-max normalisation removes any offset: a shifted chunk normalises to the same values. */
  lemma NormalizeShiftInvariant(t: InputType, c: Chunk, c2: Chunk, d: int)
    requires Shifted(c, c2, d)
    ensures NormalizeChunk(t, c2) == NormalizeChunk(t, c)
  {
    if c != [] {
      var lo, hi := SeqMin(c), SeqMax(c);
      SeqMinMaxShift(c, c2, d);
      NormalizeWithShift(t, c, c2, lo, hi, d);
      NormalizeChunkWithBounds(t, c, lo, hi);
      NormalizeChunkWithBounds(t, c2, lo + d, hi + d);
    }
  }

  /** The inference model_inference_mod performs: cnn applied to the normalised chunk. */
  function NormalizedInfer(t: InputType, cnn: Chunk -> Output): Chunk -> Output
  {
    c => cnn(NormalizeChunk(t, c))
  }

  /** The normalising variant's results do not depend on a DC offset of the input. */
  lemma NormalizedInferIgnoresOffset(t: InputType, cnn: Chunk -> Output, c: Chunk, c2: Chunk, d: int)
    requires Shifted(c, c2, d)
    ensures NormalizedInfer(t, cnn)(c2) == NormalizedInfer(t, cnn)(c)
  {
    NormalizeShiftInvariant(t, c, c2, d);
  }

  /** The result of the k-th inference (k counted from 0 over the channel's lifetime). */
  function Infer(infer: Chunk -> Output, elapsed: nat -> real, k: nat, c: Chunk): ModelResult
  {
    ModelResult(infer(c), elapsed(k))
  }

  /** The results of inferring chunks in queue order, the first being result number `first`. */
  function Results(infer: Chunk -> Output, elapsed: nat -> real, first: nat, chunks: seq<Chunk>): (rs: seq<ModelResult>)
    ensures |rs| == |chunks|
    ensures forall i | 0 <= i < |chunks| :: rs[i].output == infer(chunks[i])
  {
    seq(|chunks|, i requires 0 <= i < |chunks| => Infer(infer, elapsed, first + i, chunks[i]))
  }

  lemma ResultsSnoc(infer: Chunk -> Output, elapsed: nat -> real, first: nat, chunks: seq<Chunk>, c: Chunk)
    ensures Results(infer, elapsed, first, chunks + [c])
              == Results(infer, elapsed, first, chunks) + [Infer(infer, elapsed, first + |chunks|, c)]
  {
  }

  /** Nothing upstream of the model queue changed. */
  twostate predicate RawSideUnchanged(ch: Channel)
    reads ch
  {
    && ch.dataCsv == old(ch.dataCsv) && ch.dataDac == old(ch.dataDac)
    && ch.acquireCount == old(ch.acquireCount) && ch.acquired == old(ch.acquired)
    && ch.acquisitionDone == old(ch.acquisitionDone) && ch.channelTriggered == old(ch.channelTriggered)
  }

  /**
   * One pass of the drain loop: pop the head chunk, infer it, push the
   * result (and post) at each enabled result sink, and count it.
   */
  method InferOne(ch: Channel, cfg: Config, infer: Chunk -> Output, elapsed: nat -> real)
    requires ch.model.queue != []
    modifies ch`model, ch`resultCsv, ch`resultDac, ch`inferred
    ensures ch.model == old(ch.model).(queue := old(ch.model.queue[1..]), taken := old(ch.model.taken) + 1)
    ensures var r := Infer(infer, elapsed, old(ch.model.taken), old(ch.model.queue[0]));
      && ch.resultCsv == old(ch.resultCsv).PushIf(cfg.saveOutputCsv, r)
      && ch.resultDac == old(ch.resultDac).PushIf(cfg.saveOutputDac, r)
      && ch.inferred == old(ch.inferred) + [r]
  {
    var part := ch.model.queue[0];
    var result := Infer(infer, elapsed, ch.model.taken, part);
    ch.model := ch.model.(queue := ch.model.queue[1..], taken := ch.model.taken + 1);
    if cfg.saveOutputCsv {
      ch.resultCsv := ch.resultCsv.Push(result);
    }
    if cfg.saveOutputDac {
      ch.resultDac := ch.resultDac.Push(result);
    }
    ch.inferred := ch.inferred + [result];
  }

  /**
   * The inner `while (!model_queue.empty())` loop: every queued chunk is
   * inferred in queue order, each result buffered at the enabled sinks with
   * one post each, and model_count raised once per chunk.
   */
  method Drain(ch: Channel, cfg: Config, infer: Chunk -> Output, elapsed: nat -> real)
    modifies ch`model, ch`resultCsv, ch`resultDac, ch`inferred
    ensures ch.model == old(ch.model).(queue := [], taken := old(ch.model.taken) + |old(ch.model.queue)|)
    ensures var rs := Results(infer, elapsed, old(ch.model.taken), old(ch.model.queue));
      && ch.inferred == old(ch.inferred) + rs
      && ch.resultCsv == old(ch.resultCsv).PushAllIf(cfg.saveOutputCsv, rs)
      && ch.resultDac == old(ch.resultDac).PushAllIf(cfg.saveOutputDac, rs)
  {
    ghost var m0, inf0, csv0, dac0 := ch.model, ch.inferred, ch.resultCsv, ch.resultDac;
    ghost var q0, t0 := m0.queue, m0.taken;
    ghost var k, rs := 0, [];
    while ch.model.queue != []
      invariant k <= |q0| && ch.model.queue == q0[k..]
      invariant ch.model == m0.(queue := ch.model.queue, taken := t0 + k)
      invariant rs == Results(infer, elapsed, t0, q0[..k])
      invariant ch.inferred == inf0 + rs
      invariant ch.resultCsv == csv0.PushAllIf(cfg.saveOutputCsv, rs)
      invariant ch.resultDac == dac0.PushAllIf(cfg.saveOutputDac, rs)
      decreases |ch.model.queue|
    {
      ghost var r := Infer(infer, elapsed, ch.model.taken, ch.model.queue[0]);
      assert ch.model.taken == t0 + |q0[..k]| && ch.model.queue[0] == q0[k];
      TakeSnoc(q0, k);
      ResultsSnoc(infer, elapsed, t0, q0[..k], q0[k]);
      ConcatAssoc(inf0, rs, [r]);
      PushAllSnoc(csv0, cfg.saveOutputCsv, rs, r);
      PushAllSnoc(dac0, cfg.saveOutputDac, rs, r);
      ghost var csv, dac := ch.resultCsv, ch.resultDac;
      InferOne(ch, cfg, infer, elapsed);
      assert ch.resultCsv == csv.PushIf(cfg.saveOutputCsv, r);
      assert ch.resultDac == dac.PushIf(cfg.saveOutputDac, r);
      k, rs := k + 1, rs + [r];
    }
    assert q0[..k] == q0;
  }

  /**
   * Inferring the whole model queue and buffering the results keeps the
   * inference side tracking the histories, leaves every wake-up count
   * covering its queue, and extends the results by the inferences of
   * exactly the chunks that were queued.
   */
  lemma DrainKeepsTracking(cfg: Config, acquired: seq<Chunk>, model: Stage<Chunk>, inferred: seq<ModelResult>,
                           resultCsv: Stage<ModelResult>, resultDac: Stage<ModelResult>,
                           infer: Chunk -> Output, elapsed: nat -> real)
    requires InferenceTracks(cfg, acquired, model, inferred, resultCsv, resultDac)
    ensures var rs := Results(infer, elapsed, model.taken, model.queue);
      && InferenceTracks(cfg, acquired, model.(queue := [], taken := model.taken + |model.queue|), inferred + rs,
                         resultCsv.PushAllIf(cfg.saveOutputCsv, rs), resultDac.PushAllIf(cfg.saveOutputDac, rs))
      && (resultCsv.WakeupsPending() ==> resultCsv.PushAllIf(cfg.saveOutputCsv, rs).WakeupsPending())
      && (resultDac.WakeupsPending() ==> resultDac.PushAllIf(cfg.saveOutputDac, rs).WakeupsPending())
      && (InferredFrom(inferred, acquired, infer) ==> InferredFrom(inferred + rs, acquired, infer))
  {
    var rs := Results(infer, elapsed, model.taken, model.queue);
    TracksDrained(model, acquired);
    TracksPushAll(cfg.saveOutputCsv, resultCsv, inferred, rs);
    TracksPushAll(cfg.saveOutputDac, resultDac, inferred, rs);
    if InferredFrom(inferred, acquired, infer) {
      forall i | 0 <= i < |rs| ensures rs[i].output == infer(acquired[|inferred| + i]) {
        assert model.queue[i] == acquired[model.taken + i];
      }
      InferredFromExtend(inferred, acquired, infer, rs);
    }
  }

  /**
   * What one pass of the inference loop did to the channel: `consumed`
   * wake-ups (0 or 1) taken from model_sem, every queued chunk inferred in
   * queue order and counted, each result buffered with a post at the enabled
   * result sinks, and, when the pass left the loop, processing_done set and
   * one more post to each enabled result sink. Nothing upstream changes.
   */
  twostate predicate InferencePass(ch: Channel, cfg: Config, infer: Chunk -> Output, elapsed: nat -> real,
                                   consumed: nat, exited: bool)
    reads ch
  {
    var rs := Results(infer, elapsed, old(ch.model.taken), old(ch.model.queue));
    && old(ch.model.sem) >= consumed
    && ch.model == Stage([], old(ch.model.sem) - consumed, old(ch.model.taken) + |old(ch.model.queue)|)
    && ch.inferred == old(ch.inferred) + rs
    && ch.resultCsv == old(ch.resultCsv).PushAllIf(cfg.saveOutputCsv, rs).PostIf(exited && cfg.saveOutputCsv)
    && ch.resultDac == old(ch.resultDac).PushAllIf(cfg.saveOutputDac, rs).PostIf(exited && cfg.saveOutputDac)
    && ch.processingDone == (old(ch.processingDone) || exited)
    && RawSideUnchanged(ch)
  }

  /**
   * One pass of the model_inference loop (and of model_inference_mod, whose
   * `infer` is NormalizedInfer(t, cnn)): a zero model_sem blocks; otherwise
   * the wake-up is consumed, the loop is left when the program is stopping
   * and the queue is empty, and else the queue is drained and the loop is
   * left when acquisition is done. Leaving runs the exit path.
   */
  method InferenceStep(ch: Channel, g: Flags, cfg: Config, infer: Chunk -> Output, elapsed: nat -> real)
    returns (out: StageOutcome)
    requires ch.Valid(cfg)
    modifies ch
    ensures ch.Valid(cfg)
    ensures old(ch.InferredBy(infer)) ==> ch.InferredBy(infer)
    ensures out == Blocked <==> old(ch.model.sem) == 0
    ensures out == Blocked ==> unchanged(ch)
    ensures out == Finished <==> out != Blocked && ((g.stopProgram && old(ch.model.queue) == []) || ch.acquisitionDone)
    ensures out != Blocked ==> InferencePass(ch, cfg, infer, elapsed, 1, out == Finished)
  {
    if ch.model.sem == 0 {
      return Blocked;
    }
    var leave := ConsumeWakeup(ch, g, cfg, infer, elapsed);
    if leave {
      FinishProcessing(ch, cfg);
      return Finished;
    }
    return Continue;
  }

  /**
   * The part of a pass after sem_wait succeeded: the wake-up is consumed; when
   * the program is stopping with an empty queue the loop is left at once,
   * otherwise the queue is drained and the loop is left when acquisition is done.
   */
  method ConsumeWakeup(ch: Channel, g: Flags, cfg: Config, infer: Chunk -> Output, elapsed: nat -> real)
    returns (leave: bool)
    requires ch.Valid(cfg) && ch.model.sem > 0
    modifies ch
    ensures ch.Valid(cfg)
    ensures old(ch.InferredBy(infer)) ==> ch.InferredBy(infer)
    ensures leave <==> (g.stopProgram && old(ch.model.queue) == []) || ch.acquisitionDone
    ensures InferencePass(ch, cfg, infer, elapsed, 1, false)
  {
    ch.model := ch.model.(sem := ch.model.sem - 1);
    if g.stopProgram && ch.model.queue == [] {
      assert Results(infer, elapsed, ch.model.taken, ch.model.queue) == [];
      return true;
    }
    ghost var m, inf, csv, dac := ch.model, ch.inferred, ch.resultCsv, ch.resultDac;
    Drain(ch, cfg, infer, elapsed);
    DrainKeepsTracking(cfg, ch.acquired, m, inf, csv, dac, infer, elapsed);
    return ch.acquisitionDone;
  }

  /** The exit path of the inference loop: processing_done set, one wake-up to each enabled result sink. */
  method FinishProcessing(ch: Channel, cfg: Config)
    requires ch.Valid(cfg)
    modifies ch
    ensures ch.Valid(cfg) && ch.processingDone
    ensures ch.resultCsv == old(ch.resultCsv).PostIf(cfg.saveOutputCsv)
    ensures ch.resultDac == old(ch.resultDac).PostIf(cfg.saveOutputDac)
    ensures ch.model == old(ch.model) && ch.inferred == old(ch.inferred) && RawSideUnchanged(ch)
  {
    ch.processingDone := true;
    if cfg.saveOutputCsv {
      ch.resultCsv := ch.resultCsv.PostIf(true);
    }
    if cfg.saveOutputDac {
      ch.resultDac := ch.resultDac.PostIf(true);
    }
  }
}
