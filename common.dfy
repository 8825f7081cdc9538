/**
 * Shared definitions of the two-channel acquisition pipeline: constants, the
 * sample and result types, the run configuration, the process-wide shutdown
 * flags and the per-channel pipeline state (`Channel`).
 */
module Common {

  datatype Option<T> = None | Some(value: T)

  /** Capacity, in samples, of the hardware ring buffer the acquisition stage reads. */
  const DATA_SIZE: nat := 16384

  /** Upper bound of the queues; declared by the program but never enforced by any stage. */
  const QUEUE_MAX_SIZE: nat := 1000000

  /** Number of distinct 32-bit unsigned values. */
  const UINT32_MODULUS: nat := 0x1_0000_0000

  type Int16 = x: int | -32768 <= x <= 32767
  type UInt32 = x: int | 0 <= x < 0x1_0000_0000

  /**
   * The element type of a sample chunk or of an inference output vector.
   * `OtherIntegral` stands for any integral type other than int16_t and int8_t.
   * Floating-point element types are not modelled.
   */
  datatype ElementType = Int16Type | Int8Type | OtherIntegral

  /** The element types `convert_raw_data` accepts (anything else does not compile). */
  type InputType = t: ElementType | t != OtherIntegral witness Int16Type

  /** One chunk of samples (column 0 of input_t), shared read-only by every queue it is pushed on. */
  type Chunk = seq<int>

  /** The inference output vector; the sinks read its element 0, so it is never empty. */
  type Output = s: seq<int> | |s| > 0 witness [0]

  /** An inference result: the output vector and the measured inference time in milliseconds. */
  datatype ModelResult = ModelResult(output: Output, computationTime: real)

  /** Which optional sinks the user enabled (the four save_* globals). */
  datatype Config = Config(saveDataCsv: bool, saveDataDac: bool, saveOutputCsv: bool, saveOutputDac: bool)

  /** How one step (one body of a thread's loop) ended. */
  datatype StageOutcome =
    | Blocked   // the semaphore count was zero: the thread waits, nothing changed
    | Continue  // the loop goes round again
    | Finished  // the thread left its loop

  /**
   * std::round(x / 64.0f) for a 16-bit x (the division is exact in float):
   * the nearest integer, halves rounded away from zero. The result fits an
   * int8_t exactly when x lies in [-8223, 8159].
   */
  function RoundDiv64(x: int): (r: int)
    ensures x >= 0 ==> 64 * r - 32 <= x < 64 * r + 32
    ensures x < 0 ==> 64 * r - 32 < x <= 64 * r + 32
    ensures -128 <= r <= 127 <==> -8223 <= x <= 8159
  {
    if x >= 0 then (x + 32) / 64 else -((32 - x) / 64)
  }

  /** One element of `convert_raw_data`: int16 is copied, int8 is the rounded quotient by 64. */
  function ConvertSample(t: InputType, x: Int16): (r: int)
    ensures t == Int16Type ==> r == x
    ensures t == Int8Type ==> r == RoundDiv64(x)
  {
    match t
    case Int16Type => x
    case Int8Type => RoundDiv64(x)
  }

  /** The chunk `convert_raw_data` produces from a raw buffer, element by element. */
  function ConvertChunk(t: InputType, raw: seq<Int16>): (c: Chunk)
    ensures |c| == |raw|
    ensures forall i | 0 <= i < |raw| :: c[i] == ConvertSample(t, raw[i])
  {
    if raw == [] then [] else [ConvertSample(t, raw[0])] + ConvertChunk(t, raw[1..])
  }

  /**
   * The int8 conversion stores a value an int8_t can hold exactly for raw
   * samples in [-8223, 8159]. Outside that interval the cast is out of range;
   * the model keeps the rounded quotient, which no int8_t holds.
   */
  lemma Int8ConversionFits(x: Int16)
    ensures -128 <= ConvertSample(Int8Type, x) <= 127 <==> -8223 <= x <= 8159
  {
  }

  /** The 14-bit ADC's full-scale reading 8191 converts to 128, one above the int8 range. */
  lemma FullScaleInt8Overflows()
    ensures ConvertSample(Int8Type, 8191) == 128
  {
  }

  /**
   * convert_raw_data: fills dst[i][0] for every i < count and writes nothing else.
   * `dst` is the chunk's two-dimensional buffer input_t.
   */
  method ConvertRawData(t: InputType, src: seq<Int16>, dst: array2<int>, count: nat)
    requires count <= |src| && count <= dst.Length0 && 1 <= dst.Length1
    modifies dst
    ensures forall i, j | 0 <= i < dst.Length0 && 0 <= j < dst.Length1 ::
              dst[i, j] == if i < count && j == 0 then ConvertSample(t, src[i]) else old(dst[i, j])
  {
    for i := 0 to count
      invariant forall i', j | 0 <= i' < dst.Length0 && 0 <= j < dst.Length1 ::
                  dst[i', j] == if i' < i && j == 0 then ConvertSample(t, src[i']) else old(dst[i', j])
    {
      dst[i, 0] := ConvertSample(t, src[i]);
    }
  }

  /** Column 0 of a chunk buffer, as a value. */
  function Column0(a: array2<int>): (c: Chunk)
    requires a.Length1 >= 1
    reads a
    ensures |c| == a.Length0 && forall i | 0 <= i < a.Length0 :: c[i] == a[i, 0]
  {
    seq(a.Length0, i requires 0 <= i < a.Length0 reads a => a[i, 0])
  }

  function Abs(x: int): nat
  {
    if x < 0 then -x else x
  }

  /**
   * C++ integer division: the quotient truncated toward zero, so the
   * remainder is smaller than the divisor in magnitude and has the sign of
   * the dividend (or is zero).
   */
  function CDiv(a: int, b: int): int
    requires b != 0
  {
    if a >= 0 && b > 0 then a / b
    else if a >= 0 then -(a / -b)
    else if b > 0 then -((-a) / b)
    else (-a) / (-b)
  }

  lemma DivNonNeg(n: int, d: int)
    requires n >= 0 && d > 0
    ensures n / d >= 0
  {
  }

  /**
   * CDiv is C++'s division, truncating toward zero: the magnitude of the
   * quotient is the floor of the magnitudes' quotient, and its sign is the
   * product of the operands' signs.
   */
  lemma CDivTruncates(a: int, b: int)
    requires b != 0
    ensures Abs(CDiv(a, b)) == Abs(a) / Abs(b)
    ensures CDiv(a, b) == 0 || (CDiv(a, b) > 0 <==> (a > 0) == (b > 0))
  {
    var n: int, d: int := Abs(a), Abs(b);
    DivNonNeg(n, d);
    var m: int := n / d;
    if a >= 0 && b > 0 {
      assert CDiv(a, b) == m;
    } else if a >= 0 {
      assert CDiv(a, b) == -m;
    } else if b > 0 {
      assert CDiv(a, b) == -m;
    } else {
      assert CDiv(a, b) == m;
    }
  }

  /** Concatenation of f applied to each element, in order. */
  function FlatMap<T, U>(f: T -> seq<U>, xs: seq<T>): seq<U>
  {
    if xs == [] then [] else f(xs[0]) + FlatMap(f, xs[1..])
  }

  lemma {:induction false} FlatMapAppend<T, U>(f: T -> seq<U>, xs: seq<T>, ys: seq<T>)
    ensures FlatMap(f, xs + ys) == FlatMap(f, xs) + FlatMap(f, ys)
  {
    if xs == [] {
      assert xs + ys == ys;
    } else {
      assert (xs + ys)[1..] == xs[1..] + ys;
      FlatMapAppend(f, xs[1..], ys);
    }
  }

  /** Every element of a sequence of lists has the same length n: the flattening has n per element. */
  lemma {:induction false} FlatMapLength<T, U>(f: T -> seq<U>, xs: seq<T>, n: nat)
    requires forall x | x in xs :: |f(x)| == n
    ensures |FlatMap(f, xs)| == n * |xs|
  {
    if xs != [] {
      FlatMapLength(f, xs[1..], n);
      assert n * |xs| == n + n * |xs[1..]|;
    }
  }

  /**
   * One consumer's side of the channel: its FIFO queue, the wake-up count of
   * its semaphore, and the number of items the consumer has taken off the
   * queue (the stage's counter: write_count_*, model_count or log_count_*).
   */
  datatype Stage<T> = Stage(queue: seq<T>, sem: nat, taken: nat)
  {
    /** Every queued item is covered by a pending post, so the consumer never sleeps on a non-empty queue. */
    predicate WakeupsPending()
    {
      |queue| <= sem
    }

    /** push followed by sem_post. */
    function Push(x: T): (s: Stage<T>)
      ensures s.queue == queue + [x] && s.sem == sem + 1 && s.taken == taken
    {
      this.(queue := queue + [x], sem := sem + 1)
    }

    /** A push and its post when the guard holds; nothing otherwise. */
    function PushIf(guard: bool, x: T): Stage<T>
    {
      if guard then Push(x) else this
    }

    /** Each item pushed, with one post per item, when the guard holds; nothing otherwise. */
    function PushAllIf(guard: bool, xs: seq<T>): (s: Stage<T>)
      ensures s.taken == taken
      ensures s.queue == if guard then queue + xs else queue
      ensures s.sem == if guard then sem + |xs| else sem
    {
      if guard then this.(queue := queue + xs, sem := sem + |xs|) else this
    }

    /** A sem_post when the guard holds (a wake-up with nothing pushed). */
    function PostIf(guard: bool): (s: Stage<T>)
      ensures s.queue == queue && s.taken == taken
      ensures s.sem == if guard then sem + 1 else sem
    {
      if guard then this.(sem := sem + 1) else this
    }
  }

  /** Pushing a batch and then one more item is pushing the longer batch. */
  lemma PushAllSnoc<T>(s: Stage<T>, guard: bool, xs: seq<T>, x: T)
    ensures s.PushAllIf(guard, xs).PushIf(guard, x) == s.PushAllIf(guard, xs + [x])
  {
    if guard {
      assert s.queue + xs + [x] == s.queue + (xs + [x]);
    }
  }

  function EmptyStage<T>(): Stage<T>
  {
    Stage([], 0, 0)
  }

  /**
   * A stage seen against the full history of items its producer made: when
   * the sink is enabled the queue holds exactly the items not yet taken, in
   * production order; otherwise it stays empty and nothing is ever taken.
   */
  ghost predicate Tracks<T>(enabled: bool, s: Stage<T>, history: seq<T>)
  {
    if enabled then s.taken <= |history| && s.queue == history[s.taken..]
    else s.queue == [] && s.taken == 0
  }

  /** Producing one more item and pushing it exactly when the sink is enabled keeps the stage tracking. */
  lemma TracksPush<T>(enabled: bool, s: Stage<T>, history: seq<T>, x: T)
    requires Tracks(enabled, s, history)
    ensures Tracks(enabled, s.PushIf(enabled, x), history + [x])
  {
    if enabled {
      assert (history + [x])[s.taken..] == history[s.taken..] + [x];
    }
  }

  /** Producing a batch and pushing all of it exactly when the sink is enabled keeps the stage tracking. */
  lemma TracksPushAll<T>(enabled: bool, s: Stage<T>, history: seq<T>, xs: seq<T>)
    requires Tracks(enabled, s, history)
    ensures Tracks(enabled, s.PushAllIf(enabled, xs), history + xs)
  {
    if enabled {
      assert (history + xs)[s.taken..] == history[s.taken..] + xs;
    }
  }

  /** A consumer that takes everything queued leaves the stage tracking with an empty queue. */
  lemma TracksDrained<T>(s: Stage<T>, history: seq<T>)
    requires Tracks(true, s, history)
    ensures s.taken + |s.queue| == |history|
    ensures Tracks(true, s.(queue := [], taken := s.taken + |s.queue|), history)
  {
  }

  /**
   * A consumer that takes one wake-up and everything queued leaves the stage
   * tracking with an empty queue; what it took extends what it had taken.
   */
  lemma TracksConsumed<T>(enabled: bool, s: Stage<T>, history: seq<T>)
    requires Tracks(enabled, s, history) && s.sem > 0
    ensures s.taken + |s.queue| <= |history|
    ensures history[..s.taken + |s.queue|] == history[..s.taken] + s.queue
    ensures Tracks(enabled, Stage([], s.sem - 1, s.taken + |s.queue|), history)
  {
    if enabled {
      assert history[..|history|] == history;
    }
  }

  lemma ConcatAssoc<T>(a: seq<T>, b: seq<T>, c: seq<T>)
    ensures a + b + c == a + (b + c)
  {
  }

  lemma TakeSnoc<T>(s: seq<T>, k: nat)
    requires k < |s|
    ensures s[..k + 1] == s[..k] + [s[k]]
    ensures s[k + 1..] == s[k..][1..]
  {
  }

  /**
   * The inference side of the pipeline against the histories: the model
   * queue holds the acquired chunks not yet inferred, one result exists per
   * chunk taken, and each enabled result sink holds the results it has not
   * yet logged.
   */
  ghost predicate InferenceTracks(cfg: Config, acquired: seq<Chunk>, model: Stage<Chunk>, inferred: seq<ModelResult>,
                                  resultCsv: Stage<ModelResult>, resultDac: Stage<ModelResult>)
  {
    && Tracks(true, model, acquired)
    && |inferred| == model.taken
    && Tracks(cfg.saveOutputCsv, resultCsv, inferred)
    && Tracks(cfg.saveOutputDac, resultDac, inferred)
  }

  /** Every chunk holds exactly `width` samples. */
  ghost predicate AllOfWidth(chunks: seq<Chunk>, width: nat)
  {
    forall i | 0 <= i < |chunks| :: |chunks[i]| == width
  }

  /** Result i is the inference of chunk i, for every result. */
  ghost predicate InferredFrom(results: seq<ModelResult>, chunks: seq<Chunk>, infer: Chunk -> Output)
  {
    |results| <= |chunks| &&
    forall i | 0 <= i < |results| :: results[i].output == infer(chunks[i])
  }

  /** Extending the results with the inferences of the next chunks keeps them inferred from the chunks. */
  lemma InferredFromExtend(results: seq<ModelResult>, chunks: seq<Chunk>, infer: Chunk -> Output, rs: seq<ModelResult>)
    requires InferredFrom(results, chunks, infer)
    requires |results| + |rs| <= |chunks|
    requires forall i | 0 <= i < |rs| :: rs[i].output == infer(chunks[|results| + i])
    ensures InferredFrom(results + rs, chunks, infer)
  {
    var all := results + rs;
    forall i | 0 <= i < |all| ensures all[i].output == infer(chunks[i]) {
      if i >= |results| {
        assert all[i] == rs[i - |results|];
      }
    }
  }

  /**
   * The pipeline invariant over the channel's state:
   * - every queue holds exactly the items its consumer has not yet taken,
   *   in the order they were produced (nothing lost, nothing duplicated),
   *   so "produced = taken + still queued" for every stage;
   * - every queued item is covered by a pending post on its semaphore;
   * - every chunk holds `width` samples.
   */
  ghost predicate StagesValid(cfg: Config, width: nat, acquireCount: nat, acquired: seq<Chunk>, inferred: seq<ModelResult>,
                              dataCsv: Stage<Chunk>, dataDac: Stage<Chunk>, model: Stage<Chunk>,
                              resultCsv: Stage<ModelResult>, resultDac: Stage<ModelResult>)
  {
    && |acquired| == acquireCount
    && Tracks(cfg.saveDataCsv, dataCsv, acquired)
    && Tracks(cfg.saveDataDac, dataDac, acquired)
    && InferenceTracks(cfg, acquired, model, inferred, resultCsv, resultDac)
    && AllOfWidth(acquired, width)
    && dataCsv.WakeupsPending() && dataDac.WakeupsPending() && model.WakeupsPending()
    && resultCsv.WakeupsPending() && resultDac.WakeupsPending()
  }

  /** The process-wide shutdown state: stop_acquisition, stop_program and the SIGINT flag. */
  class Flags {
    var stopAcquisition: bool
    var stopProgram: bool
    var interrupted: bool

    /** Both stop flags start false, and so does the interrupt flag. */
    constructor ()
      ensures !stopAcquisition && !stopProgram && !interrupted
    {
      stopAcquisition, stopProgram, interrupted := false, false, false;
    }
  }

  /**
   * The state of one channel's pipeline. Each consumer's queue, semaphore and
   * counter form one Stage: dataCsv (data_queue_csv, data_sem_csv,
   * write_count_csv), dataDac (data_queue_dac, data_sem_dac, write_count_dac),
   * model (model_queue, model_sem, model_count), resultCsv (result_buffer_csv,
   * result_sem_csv, log_count_csv) and resultDac (result_buffer_dac,
   * result_sem_dac, log_count_dac). The ghost fields record every chunk ever
   * acquired and every result ever inferred, in order.
   */
  class Channel {
    /** Samples per chunk (MODEL_INPUT_DIM_0). */
    const width: nat

    var dataCsv: Stage<Chunk>
    var dataDac: Stage<Chunk>
    var model: Stage<Chunk>
    var resultCsv: Stage<ModelResult>
    var resultDac: Stage<ModelResult>

    var acquisitionDone: bool
    var processingDone: bool
    var channelTriggered: bool
    var acquireCount: nat

    ghost var acquired: seq<Chunk>
    ghost var inferred: seq<ModelResult>

    /** The pipeline invariant for a configuration (see StagesValid). */
    ghost predicate Valid(cfg: Config)
      reads this
    {
      StagesValid(cfg, width, acquireCount, acquired, inferred, dataCsv, dataDac, model, resultCsv, resultDac)
    }

    /** Result i is the inference of chunk i. */
    ghost predicate InferredBy(infer: Chunk -> Output)
      reads this
    {
      InferredFrom(inferred, acquired, infer)
    }

    /** A fresh channel: empty queues, zero semaphores and counters, all flags false. */
    constructor (width: nat)
      ensures this.width == width
      ensures dataCsv == dataDac == model == EmptyStage()
      ensures resultCsv == resultDac == EmptyStage()
      ensures !acquisitionDone && !processingDone && !channelTriggered && acquireCount == 0
      ensures acquired == [] && inferred == []
      ensures forall cfg :: Valid(cfg)
      ensures forall infer :: InferredBy(infer)
    {
      this.width := width;
      dataCsv, dataDac, model := EmptyStage(), EmptyStage(), EmptyStage();
      resultCsv, resultDac := EmptyStage(), EmptyStage();
      acquisitionDone, processingDone, channelTriggered := false, false, false;
      acquireCount := 0;
      acquired, inferred := [], [];
    }
  }

  /** A sink pass either left its stage alone or consumed one wake-up and everything queued. */
  ghost predicate ConsumedOrSame<T>(before: Stage<T>, after: Stage<T>)
  {
    after == before || (before.sem > 0 && after == Stage([], before.sem - 1, before.taken + |before.queue|))
  }

  /**
   * Sink passes keep the pipeline invariant: when each sink stage was left
   * alone or consumed one wake-up and everything queued, and nothing
   * upstream changed, the state stays valid.
   */
  lemma SinkPassKeepsValid(cfg: Config, width: nat, acquireCount: nat, acquired: seq<Chunk>, inferred: seq<ModelResult>,
                           model: Stage<Chunk>, dataCsv: Stage<Chunk>, dataDac: Stage<Chunk>,
                           resultCsv: Stage<ModelResult>, resultDac: Stage<ModelResult>,
                           dataCsv': Stage<Chunk>, dataDac': Stage<Chunk>,
                           resultCsv': Stage<ModelResult>, resultDac': Stage<ModelResult>)
    requires StagesValid(cfg, width, acquireCount, acquired, inferred, dataCsv, dataDac, model, resultCsv, resultDac)
    requires ConsumedOrSame(dataCsv, dataCsv') && ConsumedOrSame(dataDac, dataDac')
    requires ConsumedOrSame(resultCsv, resultCsv') && ConsumedOrSame(resultDac, resultDac')
    ensures StagesValid(cfg, width, acquireCount, acquired, inferred, dataCsv', dataDac', model, resultCsv', resultDac')
  {
    if dataCsv' != dataCsv {
      TracksConsumed(cfg.saveDataCsv, dataCsv, acquired);
    }
    if dataDac' != dataDac {
      TracksConsumed(cfg.saveDataDac, dataDac, acquired);
    }
    if resultCsv' != resultCsv {
      TracksConsumed(cfg.saveOutputCsv, resultCsv, inferred);
    }
    if resultDac' != resultDac {
      TracksConsumed(cfg.saveOutputDac, resultDac, inferred);
    }
  }

  /**
   * Conservation in a valid channel: every chunk acquired has either been
   * inferred or is still on the model queue (acquire_count = model_count +
   * |model_queue|), every enabled raw sink has taken or still queues every
   * chunk, every enabled result sink every result, and a disabled sink has
   * neither queued nor taken anything.
   */
  lemma ValidConserves(ch: Channel, cfg: Config)
    requires ch.Valid(cfg)
    ensures ch.acquireCount == ch.model.taken + |ch.model.queue|
    ensures cfg.saveDataCsv ==> ch.acquireCount == ch.dataCsv.taken + |ch.dataCsv.queue|
    ensures cfg.saveDataDac ==> ch.acquireCount == ch.dataDac.taken + |ch.dataDac.queue|
    ensures cfg.saveOutputCsv ==> ch.model.taken == ch.resultCsv.taken + |ch.resultCsv.queue|
    ensures cfg.saveOutputDac ==> ch.model.taken == ch.resultDac.taken + |ch.resultDac.queue|
    ensures !cfg.saveDataCsv ==> ch.dataCsv.queue == [] && ch.dataCsv.taken == 0
    ensures !cfg.saveDataDac ==> ch.dataDac.queue == [] && ch.dataDac.taken == 0
    ensures !cfg.saveOutputCsv ==> ch.resultCsv.queue == [] && ch.resultCsv.taken == 0
    ensures !cfg.saveOutputDac ==> ch.resultDac.queue == [] && ch.resultDac.taken == 0
  {
    TracksDrained(ch.model, ch.acquired);
    if cfg.saveDataCsv {
      TracksDrained(ch.dataCsv, ch.acquired);
    }
    if cfg.saveDataDac {
      TracksDrained(ch.dataDac, ch.acquired);
    }
    if cfg.saveOutputCsv {
      TracksDrained(ch.resultCsv, ch.inferred);
    }
    if cfg.saveOutputDac {
      TracksDrained(ch.resultDac, ch.inferred);
    }
  }
}
