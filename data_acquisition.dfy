/**
 * The acquisition stage after the trigger: one call of AcquireIteration is one
 * pass of the `while (!stop_acquisition)` loop in acquire_data, including the
 * exit protocol when the pass leaves the loop. The hardware write cursor, the
 * raw sample read and the disk-space probe are inputs of the pass.
 */
module DataAcquisition {
  import opened Common

  /** What the disk probe and the hardware report during one pass. */
  datatype Probe = Probe(
    diskLow: bool,                     // free disk space below the threshold
    writePointer: Option<UInt32>,      // None: reading the write cursor failed
    rawData: Option<seq<Int16>>)       // None: reading the raw samples failed

  /** How a pass ended. */
  datatype AcquireOutcome =
    | Polled    // the loop goes round again (with or without a chunk read)
    | Stopped   // the loop was left normally and the exit protocol ran
    | Overran   // an overrun was detected and the function returned

  /**
   * The wrap-aware distance from the read cursor to the hardware write cursor,
   * in the source's 32-bit unsigned arithmetic. With both cursors inside the
   * ring it is their difference modulo DATA_SIZE; an overrun (a distance of a
   * whole ring or more) is then reported only for a write cursor at least
   * DATA_SIZE past the read cursor, i.e. outside the ring.
   */
  function Distance(pos: UInt32, pwrite: UInt32): (d: nat)
    ensures pos < DATA_SIZE && pwrite < DATA_SIZE ==> d < DATA_SIZE && d == (pwrite - pos) % DATA_SIZE
    ensures pos < DATA_SIZE ==> (d >= DATA_SIZE <==> pwrite >= pos + DATA_SIZE)
  {
    if pwrite >= pos then pwrite - pos else (DATA_SIZE - pos + pwrite) % UINT32_MODULUS
  }

  /** The read cursor after a chunk of n samples: advanced and wrapped once. */
  function Advance(pos: UInt32, n: nat): (p: UInt32)
    requires pos < DATA_SIZE && n <= DATA_SIZE
    ensures p < DATA_SIZE && p == (pos + n) % DATA_SIZE
  {
    if pos + n >= DATA_SIZE then pos + n - DATA_SIZE else pos + n
  }

  /** Whether a pass that got past the stop checks reads a chunk. */
  predicate ReadsChunk(pos: UInt32, probe: Probe, width: nat)
  {
    && probe.writePointer.Some?
    && width <= Distance(pos, probe.writePointer.value) < DATA_SIZE
    && probe.rawData.Some?
  }

  /** Whether a pass that got past the stop checks detects an overrun. */
  predicate DetectsOverrun(pos: UInt32, probe: Probe)
  {
    probe.writePointer.Some? && Distance(pos, probe.writePointer.value) >= DATA_SIZE
  }

  /** The fan-out of one chunk: CSV queue iff enabled, DAC queue iff enabled, model queue always. */
  twostate predicate FannedOut(ch: Channel, cfg: Config, chunk: Chunk)
    reads ch
  {
    && ch.dataCsv == old(ch.dataCsv).PushIf(cfg.saveDataCsv, chunk)
    && ch.dataDac == old(ch.dataDac).PushIf(cfg.saveDataDac, chunk)
    && ch.model == old(ch.model).Push(chunk)
    && ch.acquireCount == old(ch.acquireCount) + 1
    && ch.acquired == old(ch.acquired) + [chunk]
    && ch.acquisitionDone == old(ch.acquisitionDone)
    && ResultSideUnchanged(ch)
  }

  /** The exit protocol: acquisition_done set, one wake-up to the model and to each enabled raw sink. */
  twostate predicate ExitProtocolRan(ch: Channel, cfg: Config)
    reads ch
  {
    && ch.acquisitionDone
    && ch.dataCsv == old(ch.dataCsv).PostIf(cfg.saveDataCsv)
    && ch.dataDac == old(ch.dataDac).PostIf(cfg.saveDataDac)
    && ch.model == old(ch.model).PostIf(true)
    && ch.acquireCount == old(ch.acquireCount) && ch.acquired == old(ch.acquired)
    && ResultSideUnchanged(ch)
  }

  /** Nothing downstream of the model queue changed, and the trigger flag neither. */
  twostate predicate ResultSideUnchanged(ch: Channel)
    reads ch
  {
    && ch.resultCsv == old(ch.resultCsv) && ch.resultDac == old(ch.resultDac)
    && ch.processingDone == old(ch.processingDone) && ch.channelTriggered == old(ch.channelTriggered)
    && ch.inferred == old(ch.inferred)
  }

  /** Pushes one chunk onto every enabled queue, posting once per push, and counts it. */
  method FanOut(ch: Channel, cfg: Config, chunk: Chunk)
    requires ch.Valid(cfg) && |chunk| == ch.width
    modifies ch
    ensures ch.Valid(cfg) && FannedOut(ch, cfg, chunk)
    ensures forall infer :: old(ch.InferredBy(infer)) ==> ch.InferredBy(infer)
  {
    TracksPush(cfg.saveDataCsv, ch.dataCsv, ch.acquired, chunk);
    TracksPush(cfg.saveDataDac, ch.dataDac, ch.acquired, chunk);
    TracksPush(true, ch.model, ch.acquired, chunk);
    if cfg.saveDataCsv {
      ch.dataCsv := ch.dataCsv.Push(chunk);
    }
    if cfg.saveDataDac {
      ch.dataDac := ch.dataDac.Push(chunk);
    }
    ch.model := ch.model.Push(chunk);
    ch.acquireCount := ch.acquireCount + 1;
    ch.acquired := ch.acquired + [chunk];
  }

  /** The end of acquire_data after the loop: mark acquisition done and wake every consumer once. */
  method FinishAcquisition(ch: Channel, cfg: Config)
    requires ch.Valid(cfg)
    modifies ch
    ensures ch.Valid(cfg) && ExitProtocolRan(ch, cfg)
    ensures forall infer :: old(ch.InferredBy(infer)) ==> ch.InferredBy(infer)
  {
    ch.acquisitionDone := true;
    if cfg.saveDataCsv {
      ch.dataCsv := ch.dataCsv.PostIf(true);
    }
    if cfg.saveDataDac {
      ch.dataDac := ch.dataDac.PostIf(true);
    }
    ch.model := ch.model.PostIf(true);
  }

  /** The raw samples converted through a one-column buffer, as the acquisition loop does. */
  method ReadChunk(t: InputType, raw: seq<Int16>) returns (chunk: Chunk)
    ensures chunk == ConvertChunk(t, raw)
  {
    var buffer := new int[|raw|, 1]((i, j) => 0);
    ConvertRawData(t, raw, buffer, |raw|);
    chunk := Column0(buffer);
  }

  /**
   * The tail of the loop body once no overrun was detected: when a whole chunk
   * is available and the raw read succeeds, the chunk is converted, the read
   * cursor advanced and the chunk fanned out; otherwise nothing changes.
   */
  method TakeChunk(ch: Channel, cfg: Config, t: InputType, pos: UInt32, distance: nat, rawData: Option<seq<Int16>>)
    returns (pos': UInt32)
    requires ch.Valid(cfg) && pos < DATA_SIZE && distance < DATA_SIZE
    requires rawData.Some? ==> |rawData.value| == ch.width
    modifies ch
    ensures ch.Valid(cfg) && pos' < DATA_SIZE
    ensures forall infer :: old(ch.InferredBy(infer)) ==> ch.InferredBy(infer)
    ensures distance >= ch.width && rawData.Some? ==>
              pos' == Advance(pos, ch.width) && FannedOut(ch, cfg, ConvertChunk(t, rawData.value))
    ensures !(distance >= ch.width && rawData.Some?) ==> pos' == pos && unchanged(ch)
  {
    if distance >= ch.width {
      if rawData.None? {
        return pos;
      }
      var chunk := ReadChunk(t, rawData.value);
      pos' := Advance(pos, ch.width);
      FanOut(ch, cfg, chunk);
      return pos';
    }
    return pos;
  }

  /** How the loop body (disk check to fan-out) ended. */
  datatype BodyResult = Next | Break | OverrunReturn

  /**
   * The loop body of acquire_data: the disk-space check, the write-cursor
   * query, the overrun test, and the read, conversion, cursor advance and
   * fan-out of one chunk when a whole chunk is available. A failed cursor
   * query or raw read changes nothing. (The source's test for a negative
   * distance never fires: the distance is computed unsigned.)
   */
  method AcquireBody(ch: Channel, g: Flags, cfg: Config, t: InputType, pos: UInt32, probe: Probe)
    returns (r: BodyResult, pos': UInt32)
    requires ch.Valid(cfg) && pos < DATA_SIZE
    requires probe.rawData.Some? ==> |probe.rawData.value| == ch.width
    modifies ch, g`stopAcquisition
    ensures ch.Valid(cfg) && pos' < DATA_SIZE
    ensures forall infer :: old(ch.InferredBy(infer)) ==> ch.InferredBy(infer)
    ensures r == Break <==> probe.diskLow
    ensures r == OverrunReturn <==> !probe.diskLow && DetectsOverrun(pos, probe)
    ensures r != Next ==> g.stopAcquisition && pos' == pos && unchanged(ch)
    ensures r == Next ==> g.stopAcquisition == old(g.stopAcquisition)
    ensures r == Next && ReadsChunk(pos, probe, ch.width) ==>
              pos' == Advance(pos, ch.width) && FannedOut(ch, cfg, ConvertChunk(t, probe.rawData.value))
    ensures r == Next && !ReadsChunk(pos, probe, ch.width) ==> pos' == pos && unchanged(ch)
  {
    if probe.diskLow {
      g.stopAcquisition := true;
      return Break, pos;
    }
    if probe.writePointer.None? {
      return Next, pos;
    }
    var distance := Distance(pos, probe.writePointer.value);
    if distance >= DATA_SIZE {
      g.stopAcquisition := true;
      return OverrunReturn, pos;
    }
    pos' := TakeChunk(ch, cfg, t, pos, distance, probe.rawData);
    return Next, pos';
  }

  /**
   * One pass of the acquisition loop, as written: the loop guard, the body,
   * and the exit protocol when the loop is left by the guard or the disk
   * check. An overrun returns straight away: it sets stop_acquisition but
   * neither marks acquisition done nor wakes any consumer.
   */
  method AcquireIteration(ch: Channel, g: Flags, cfg: Config, t: InputType, pos: UInt32, probe: Probe)
    returns (out: AcquireOutcome, pos': UInt32)
    requires ch.Valid(cfg) && pos < DATA_SIZE
    requires probe.rawData.Some? ==> |probe.rawData.value| == ch.width
    modifies ch, g`stopAcquisition
    ensures ch.Valid(cfg) && pos' < DATA_SIZE
    ensures forall infer :: old(ch.InferredBy(infer)) ==> ch.InferredBy(infer)
    ensures old(g.stopAcquisition) ==> g.stopAcquisition
    ensures out == Stopped <==> old(g.stopAcquisition) || probe.diskLow
    ensures out == Stopped ==> g.stopAcquisition && pos' == pos && ExitProtocolRan(ch, cfg)
    ensures out == Overran <==> !old(g.stopAcquisition) && !probe.diskLow && DetectsOverrun(pos, probe)
    ensures out == Overran ==> g.stopAcquisition && pos' == pos && unchanged(ch)
    ensures out == Polled ==> !g.stopAcquisition
    ensures out == Polled && ReadsChunk(pos, probe, ch.width) ==>
              pos' == Advance(pos, ch.width) && FannedOut(ch, cfg, ConvertChunk(t, probe.rawData.value))
    ensures out == Polled && !ReadsChunk(pos, probe, ch.width) ==> pos' == pos && unchanged(ch)
  {
    if g.stopAcquisition {
      FinishAcquisition(ch, cfg);
      return Stopped, pos;
    }
    var r;
    r, pos' := AcquireBody(ch, g, cfg, t, pos, probe);
    match r
    case Next =>
      out := Polled;
    case Break =>
      FinishAcquisition(ch, cfg);
      out := Stopped;
    case OverrunReturn =>
      out := Overran;
  }

  /**
   * One pass of the acquisition loop with the overrun path corrected: an
   * overrun leaves the loop through the same exit protocol as any other stop,
   * so acquisition is marked done and every consumer is woken to drain and exit.
   */
  method AcquireIterationCorrected(ch: Channel, g: Flags, cfg: Config, t: InputType, pos: UInt32, probe: Probe)
    returns (out: AcquireOutcome, pos': UInt32)
    requires ch.Valid(cfg) && pos < DATA_SIZE
    requires probe.rawData.Some? ==> |probe.rawData.value| == ch.width
    modifies ch, g`stopAcquisition
    ensures ch.Valid(cfg) && pos' < DATA_SIZE
    ensures forall infer :: old(ch.InferredBy(infer)) ==> ch.InferredBy(infer)
    ensures old(g.stopAcquisition) ==> g.stopAcquisition
    ensures out == Stopped <==> old(g.stopAcquisition) || probe.diskLow
    ensures out == Overran <==> !old(g.stopAcquisition) && !probe.diskLow && DetectsOverrun(pos, probe)
    ensures out != Polled ==> g.stopAcquisition && pos' == pos && ExitProtocolRan(ch, cfg)
    ensures out == Polled ==> !g.stopAcquisition
    ensures out == Polled && ReadsChunk(pos, probe, ch.width) ==>
              pos' == Advance(pos, ch.width) && FannedOut(ch, cfg, ConvertChunk(t, probe.rawData.value))
    ensures out == Polled && !ReadsChunk(pos, probe, ch.width) ==> pos' == pos && unchanged(ch)
  {
    if g.stopAcquisition {
      FinishAcquisition(ch, cfg);
      return Stopped, pos;
    }
    var r;
    r, pos' := AcquireBody(ch, g, cfg, t, pos, probe);
    match r
    case Next =>
      out := Polled;
    case Break =>
      FinishAcquisition(ch, cfg);
      out := Stopped;
    case OverrunReturn =>
      FinishAcquisition(ch, cfg);
      out := Overran;
  }

  /** With the write cursor inside the ring, no pass ever reports an overrun. */
  lemma InRingCursorNeverOverruns(pos: UInt32, probe: Probe)
    requires pos < DATA_SIZE
    requires probe.writePointer.Some? && probe.writePointer.value < DATA_SIZE
    ensures !DetectsOverrun(pos, probe)
  {
  }

  /** A chunk read starts at the read cursor and ends at or before the write cursor, modulo the ring. */
  lemma ChunkReadWithinAvailableData(pos: UInt32, probe: Probe, width: nat)
    requires pos < DATA_SIZE && ReadsChunk(pos, probe, width)
    ensures width < DATA_SIZE
    ensures (pos + width) % DATA_SIZE == Advance(pos, width)
    ensures probe.writePointer.value < DATA_SIZE ==>
              (probe.writePointer.value - Advance(pos, width)) % DATA_SIZE
                == Distance(pos, probe.writePointer.value) - width
  {
  }
}
