/**
 * The raw-data CSV sink (write_data_csv): every chunk taken off the CSV data
 * queue becomes one line of comma-separated "%d" fields.
 */
module DataWriterCsv {
  import opened Common
  import opened Printf

  /** write_scalar for an integral sample: its "%d" text, which reads back as the sample. */
  function WriteScalar(v: int): (s: string)
    ensures ParseDecimal(s) == Some(v) && IsField(s)
  {
    DecimalRoundTrip(v);
    DecimalIsField(v);
    Decimal(v)
  }

  /** The fields of one row, one per sample, in sample order. */
  function Fields(c: Chunk): (fs: seq<string>)
    ensures |fs| == |c| && forall i | 0 <= i < |c| :: fs[i] == WriteScalar(c[i])
  {
    if c == [] then [] else [WriteScalar(c[0])] + Fields(c[1..])
  }

  /** The line written for one chunk: the fields joined by commas, then a newline. */
  function Row(c: Chunk): (line: string)
    ensures |line| >= 1 && line[|line| - 1] == '\n' && '\n' !in line[..|line| - 1]
    ensures CountChar(line, '\n') == 1
  {
    var fs := Fields(c);
    forall f | f in fs ensures '\n' !in f {
    }
    JoinCommasNoNewline(fs);
    var body := JoinCommas(fs);
    CountCharAbsent(body, '\n');
    CountCharAppend(body, "\n", '\n');
    assert (body + "\n")[..|body|] == body;
    body + "\n"
  }

  /** Every row written for the chunks, in order. */
  function Rows(chunks: seq<Chunk>): (text: string)
    ensures CountChar(text, '\n') == |chunks|
  {
    RowsLineCount(chunks);
    FlatMap(Row, chunks)
  }

  /** One line break per row written. */
  lemma {:induction false} RowsLineCount(chunks: seq<Chunk>)
    ensures CountChar(FlatMap(Row, chunks), '\n') == |chunks|
  {
    if chunks != [] {
      RowsLineCount(chunks[1..]);
      CountCharAppend(Row(chunks[0]), FlatMap(Row, chunks[1..]), '\n');
    }
  }

  /**
   * A written row reads back as its chunk: it ends in its only line break,
   * carries one comma between neighbouring samples, and splitting the line
   * at its commas gives one field per sample that parses to that sample.
   */
  lemma RowReadsBack(c: Chunk)
    requires c != []
    ensures var line := JoinCommas(Fields(c));
            && Row(c) == line + "\n" && '\n' !in line
            && CountChar(Row(c), ',') == |c| - 1
            && |Split(line)| == |c|
            && forall i | 0 <= i < |c| :: ParseDecimal(Split(line)[i]) == Some(c[i])
  {
    var fs := Fields(c);
    forall f | f in fs ensures ',' !in f && '\n' !in f {
    }
    JoinCommasNoNewline(fs);
    JoinCommasCount(fs);
    CountCharAppend(JoinCommas(fs), "\n", ',');
    assert CountChar("\n", ',') == 0;
    SplitJoin(fs);
  }

  /** What the inner loop has written after k samples: k fields, and the comma after the last unless it closes the row. */
  function RowPrefix(c: Chunk, k: nat): string
    requires k <= |c|
  {
    JoinCommas(Fields(c[..k])) + (if 0 < k < |c| then "," else "")
  }

  /** The separator written after sample k. */
  function Separator(c: Chunk, k: nat): string
  {
    if k < |c| - 1 then "," else ""
  }

  lemma RowPrefixStep(c: Chunk, k: nat)
    requires k < |c|
    ensures RowPrefix(c, k + 1) == RowPrefix(c, k) + (WriteScalar(c[k]) + Separator(c, k))
  {
    var fs, f := Fields(c[..k]), WriteScalar(c[k]);
    assert c[..k + 1] == c[..k] + [c[k]];
    assert Fields(c[..k + 1]) == fs + [f];
    JoinCommasSnoc(fs, f);
    if k == 0 {
      assert fs == [];
    } else {
      ConcatAssoc(JoinCommas(fs), ",", f);
      ConcatAssoc(JoinCommas(fs) + ",", f, Separator(c, k));
    }
  }

  /**
   * The inner `for k` loop and the closing newline: each sample written with
   * write_scalar, a comma after every sample but the last, then "\n".
   */
  method WriteRow(file: TextFile, c: Chunk)
    modifies file
    ensures file.text == old(file.text) + Row(c)
  {
    ghost var text0 := file.text;
    for k := 0 to |c|
      invariant file.text == text0 + RowPrefix(c, k)
    {
      ghost var before := file.text;
      RowPrefixStep(c, k);
      ConcatAssoc(text0, RowPrefix(c, k), WriteScalar(c[k]) + Separator(c, k));
      file.Write(WriteScalar(c[k]));
      if k < |c| - 1 {
        file.Write(",");
      }
      assert file.text == before + (WriteScalar(c[k]) + Separator(c, k));
    }
    assert c[..|c|] == c;
    file.Write("\n");
  }

  /**
   * The inner `while (!data_queue_csv.empty())` loop: every queued chunk,
   * front first, popped, written as one row and counted in write_count_csv.
   */
  method DrainDataCsv(ch: Channel, file: TextFile)
    modifies ch`dataCsv, file
    ensures ch.dataCsv == old(ch.dataCsv).(queue := [], taken := old(ch.dataCsv.taken) + |old(ch.dataCsv.queue)|)
    ensures file.text == old(file.text) + Rows(old(ch.dataCsv.queue))
  {
    ghost var s0, text0 := ch.dataCsv, file.text;
    ghost var q0 := s0.queue;
    ghost var k := 0;
    while ch.dataCsv.queue != []
      invariant k <= |q0| && ch.dataCsv == s0.(queue := q0[k..], taken := s0.taken + k)
      invariant file.text == text0 + Rows(q0[..k])
      decreases |ch.dataCsv.queue|
    {
      var part := ch.dataCsv.queue[0];
      TakeSnoc(q0, k);
      FlatMapAppend(Row, q0[..k], [part]);
      ConcatAssoc(text0, Rows(q0[..k]), Row(part));
      ch.dataCsv := ch.dataCsv.(queue := ch.dataCsv.queue[1..]);
      WriteRow(file, part);
      ch.dataCsv := ch.dataCsv.(taken := ch.dataCsv.taken + 1);
      k := k + 1;
    }
    assert q0[..k] == q0;
  }

  /**
   * A pass past the semaphore: the wake-up is consumed and the queue
   * drained into the file, row after row.
   */
  method ConsumeDataCsv(ch: Channel, file: TextFile)
    requires ch.dataCsv.sem > 0
    requires ch.dataCsv.taken + |ch.dataCsv.queue| <= |ch.acquired|
    requires ch.acquired[..ch.dataCsv.taken + |ch.dataCsv.queue|] == ch.acquired[..ch.dataCsv.taken] + ch.dataCsv.queue
    modifies ch`dataCsv, file
    ensures ch.dataCsv == Stage([], old(ch.dataCsv.sem) - 1, old(ch.dataCsv.taken) + |old(ch.dataCsv.queue)|)
    ensures file.text == old(file.text) + Rows(old(ch.dataCsv.queue))
    ensures old(Written(file.text, ch.acquired, ch.dataCsv.taken)) ==> Written(file.text, ch.acquired, ch.dataCsv.taken)
  {
    WrittenInOrder(ch.acquired, ch.dataCsv.taken, ch.dataCsv.queue, file.text);
    ch.dataCsv := ch.dataCsv.(sem := ch.dataCsv.sem - 1);
    DrainDataCsv(ch, file);
  }

  /**
   * One pass of the write_data_csv loop: a zero data_sem_csv blocks;
   * otherwise the wake-up is consumed, the queue drained, and the loop left
   * when acquisition is done. There is no early exit on stop_program.
   */
  method DataCsvStep(ch: Channel, cfg: Config, file: TextFile) returns (out: StageOutcome)
    requires ch.Valid(cfg)
    modifies ch`dataCsv, file
    ensures ch.Valid(cfg)
    ensures out == Blocked <==> old(ch.dataCsv.sem) == 0
    ensures out == Blocked ==> ch.dataCsv == old(ch.dataCsv) && file.text == old(file.text)
    ensures out == Finished <==> out != Blocked && ch.acquisitionDone
    ensures out != Blocked ==>
              && ch.dataCsv == Stage([], old(ch.dataCsv.sem) - 1, old(ch.dataCsv.taken) + |old(ch.dataCsv.queue)|)
              && file.text == old(file.text) + Rows(old(ch.dataCsv.queue))
    ensures old(Written(file.text, ch.acquired, ch.dataCsv.taken)) ==> Written(file.text, ch.acquired, ch.dataCsv.taken)
  {
    if ch.dataCsv.sem == 0 {
      return Blocked;
    }
    TracksConsumed(cfg.saveDataCsv, ch.dataCsv, ch.acquired);
    ConsumeDataCsv(ch, file);
    SinkPassKeepsValid(cfg, ch.width, ch.acquireCount, ch.acquired, ch.inferred, ch.model,
                       old(ch.dataCsv), ch.dataDac, ch.resultCsv, ch.resultDac,
                       ch.dataCsv, ch.dataDac, ch.resultCsv, ch.resultDac);
    out := if ch.acquisitionDone then Finished else Continue;
  }

  /** The file holds exactly the rows of the first `taken` chunks, in order. */
  ghost predicate Written(text: string, history: seq<Chunk>, taken: nat)
  {
    taken <= |history| && text == Rows(history[..taken])
  }

  /**
   * Writing the rows of the chunks queued after the first `taken` ones, to a
   * file that holds the rows of those first ones, leaves it holding the rows
   * of all of them, in chunk order.
   */
  lemma WrittenInOrder(history: seq<Chunk>, taken: nat, queue: seq<Chunk>, text: string)
    requires taken + |queue| <= |history|
    requires history[..taken + |queue|] == history[..taken] + queue
    ensures Written(text, history, taken) ==> Written(text + Rows(queue), history, taken + |queue|)
  {
    FlatMapAppend(Row, history[..taken], queue);
  }
}
