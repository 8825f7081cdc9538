/**
 * The shutdown path after an acquisition overrun, followed through the
 * acquisition pass and the raw-data CSV writer of one channel that saves
 * raw data to CSV only. The read cursor is at 0 and the hardware reports a
 * write cursor a whole ring ahead, so the pass detects an overrun.
 */
module Pipeline {
  import opened Common
  import opened Printf
  import opened DataAcquisition
  import opened DataWriterCsv

  /** The probe of a pass that sees the write cursor DATA_SIZE samples past a read cursor at 0. */
  const OVERRUN_PROBE: Probe := Probe(false, Some(DATA_SIZE), None)

  /** Raw data to CSV only. */
  const CSV_ONLY: Config := Config(true, false, false, false)

  /**
   * As written: the overrun pass returns without marking acquisition done and
   * without posting data_sem_csv, so the CSV writer's next pass finds no
   * wake-up and blocks, with acquisition_done still false; nothing upstream
   * will ever post again.
   */
  method OverrunStrandsCsvWriter(width: nat) returns (acq: AcquireOutcome, out: StageOutcome, done: bool)
    ensures acq == Overran && out == Blocked && !done
  {
    var ch := new Channel(width);
    var g := new Flags();
    var file := new TextFile();
    var pos;
    acq, pos := AcquireIteration(ch, g, CSV_ONLY, Int16Type, 0, OVERRUN_PROBE);
    out := DataCsvStep(ch, CSV_ONLY, file);
    done := ch.acquisitionDone;
  }

  /**
   * Corrected: the overrun pass leaves through the exit protocol, so the CSV
   * writer's next pass takes the wake-up, drains its (empty) queue and
   * finishes, having written nothing.
   */
  method OverrunDrainsCsvWriter(width: nat) returns (acq: AcquireOutcome, out: StageOutcome, text: string)
    ensures acq == Overran && out == Finished && text == ""
  {
    var ch := new Channel(width);
    var g := new Flags();
    var file := new TextFile();
    var pos;
    acq, pos := AcquireIterationCorrected(ch, g, CSV_ONLY, Int16Type, 0, OVERRUN_PROBE);
    out := DataCsvStep(ch, CSV_ONLY, file);
    text := file.text;
  }
}
