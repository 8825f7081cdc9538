# threads_sem pipeline model

A Dafny model of the per-channel pipeline of threads_sem, a two-channel Red Pitaya program. One acquisition
thread per channel reads sample chunks from the hardware ring buffer. It fans each chunk out to a raw-data CSV
writer, a raw-data DAC writer and the inference thread. The inference thread runs `cnn` on each chunk and fans the
result out to a result CSV logger and a result DAC writer. A SIGINT handler and two process-wide flags,
`stop_acquisition` and `stop_program`, shut everything down.

How the model is built:

- **The channel.** Each channel is a `Channel` object (module `Common`). Each consumer's queue, semaphore and
  counter form one `Stage`: the FIFO queue is a `seq`, the semaphore a wake-up count, and the counter the number
  of items taken.
- **History and invariant.** Ghost histories record every chunk acquired and every result inferred.
  `Channel.Valid(cfg)` is the pipeline invariant:
  - every enabled queue holds exactly the items its consumer has not yet taken, in production order (nothing
    lost, nothing duplicated);
  - a disabled queue stays empty;
  - one result exists per inferred chunk;
  - every queued item is covered by a pending post;
  - every chunk has the model's input width.
- **Steps.** One body of a thread's loop is one atomic step method on the channel (`AcquireIteration`,
  `InferenceStep`, `DataCsvStep`, `DataDacStep`, `ResultCsvStep`, `ResultDacStep`).
  - A `sem_wait` on a zero count is the outcome `Blocked`, and nothing changes.
  - Otherwise the step takes one wake-up, drains its queue with the source's own loop, and reports whether the
    thread leaves its loop.
  - Every step keeps `Valid`.
  - Each sink proves that its output holds exactly the rows, lines or amplitudes of everything it has taken so
    far, in order (`Written`, `Played`, `Logged`).
- **Outside world.** The output file is a `TextFile` that `fprintf` appends to. The analog output is a
  `Generator` that records the amplitudes handed to `rp_GenAmp`. The hardware cursor, the raw read and the disk
  probe of one acquisition pass are a `Probe` parameter. `cnn`, the measured inference time and its `%.6f`
  rendering are function parameters (`infer`, `elapsed`, `fmt`). Keyboard input is a sequence of `Answer`s.

The semaphore invariant is the one the code keeps: every push comes with one post (src/DataAcquisition.cpp:105-118,
src/ModelProcessing.cpp:76-86), and the exit protocols (src/DataAcquisition.cpp:125-139,
src/ModelProcessing.cpp:95-99) and the SIGINT handler (src/SystemUtils.cpp:62-72) post with nothing pushed, so a
semaphore's count can exceed its queue's length but never falls below it. So the model keeps `|queue| <= sem`: leftover posts cause
harmless spurious wake-ups, and no consumer sleeps on a non-empty queue.

## Model

| member | source | states |
|---|---|---|
| Common.RoundDiv64 | include/Common.hpp:104-106 | the int8 conversion rounds x/64 to the nearest integer, halves away from zero; the result fits int8 exactly for x in [-8223, 8159] |
| Common.ConvertSample | include/Common.hpp:104-110 | int16 samples are copied unchanged; int8 samples are the rounded quotient by 64 |
| Common.Int8ConversionFits | include/Common.hpp:104-106 | the int8 conversion gives a value an int8_t holds exactly for raw samples in [-8223, 8159] |
| Common.FullScaleInt8Overflows | include/Common.hpp:104-106 | the ADC's full-scale reading 8191 converts to 128, outside the int8 range |
| Common.ConvertChunk | include/Common.hpp:96-117 | the converted chunk has one element per raw sample, each converted independently |
| Common.ConvertRawData | include/Common.hpp:96-117 | convert_raw_data writes dst[i][0] for every i < count and leaves every other cell as it was |
| Common.CDiv | src/SystemUtils.cpp:96-98 | C++'s `/` on integers, truncating toward zero; its properties are stated by CDivTruncates |
| Common.CDivTruncates | src/SystemUtils.cpp:96-98 | C++ integer division truncates toward zero: the remainder is smaller than the divisor in magnitude and has the dividend's sign |
| Common.FlatMapLength | src/DataWriterDAC.cpp:32-37 | items of equal length n concatenate to n times their number |
| Common.Stage.Push | src/DataAcquisition.cpp:105-118 | a push appends at the back of the FIFO queue and posts exactly once |
| Common.Stage.PushAllIf | src/ModelProcessing.cpp:76-86 | a batch of pushes appends the batch and posts once per item, only when the sink is enabled |
| Common.Stage.PostIf | src/DataAcquisition.cpp:133-139 | a post without a push raises the wake-up count and leaves queue and counter unchanged |
| Common.TracksPush | src/DataAcquisition.cpp:105-118 | pushing each new chunk exactly when the sink is enabled keeps the queue equal to the untaken suffix of the history |
| Common.TracksPushAll | src/ModelProcessing.cpp:65-89 | the same for a batch of results |
| Common.TracksDrained | src/DataWriterCSV.cpp:45-61 | produced = taken + still queued; taking everything queued leaves the queue empty and the stage tracking |
| Common.TracksConsumed | src/DataWriterCSV.cpp:38-61 | a pass that takes one wake-up and everything queued keeps tracking; what it took extends what was taken before, in order |
| Common.InferredFromExtend | src/ModelProcessing.cpp:65-89 | appending the inferences of the next chunks keeps "result i is cnn of chunk i" |
| Common.Flags.constructor | include/Common.hpp:90-91 | both stop flags and the interrupt flag start false |
| Common.Channel.constructor | include/Common.hpp:54-88 | a fresh channel has empty queues, zero semaphores and counters, all three flags false, and is valid for every configuration |
| Common.SinkPassKeepsValid | include/Common.hpp:54-88 | sink passes, each leaving its stage alone or taking one wake-up and everything queued, keep the pipeline invariant |
| Common.ValidConserves | include/Common.hpp:77-82 | in a valid channel, acquire_count = model_count + \|model_queue\|; every enabled sink has taken or still queues every item produced for it; a disabled sink has neither |
| Dac.OutputToVoltage | include/DAC.hpp:13-25 | int16 maps into [-4, 32767/8192], int8 into [-1, 127/128]; the result is zero or positive exactly when the input is |
| Dac.Amplitude | src/DataWriterDAC.cpp:34-35 | the amplitude handed to rp_GenAmp is the clamped level of the value and always lies in [-1, 1] |
| Dac.Clamp | src/DataWriterDAC.cpp:35 | std::clamp to [-1, 1]: in range unchanged, below gives -1, above gives 1 |
| Dac.OutputToVoltageMonotone | include/DAC.hpp:13-25 | the mapping is monotone for every element type |
| Dac.Int8NeedsNoClamp | include/DAC.hpp:18-19 | an int8 value's level is left unchanged by the clamp |
| Dac.AmplitudeMonotone | src/ModelWriterDAC.cpp:28-29 | the written amplitude is monotone in the value and always lies in [-1, 1] |
| Dac.Generator.GenAmp | src/DataWriterDAC.cpp:36 | rp_GenAmp adds exactly one amplitude to the output |
| Printf.DigitChar | src/DataWriterCSV.cpp:16 | a digit value below 10 prints as a decimal digit character |
| Printf.DigitValue | src/DataWriterCSV.cpp:16 | a decimal digit character reads back as a value below 10 |
| Printf.DigitRoundTrip | src/DataWriterCSV.cpp:16 | reading back a printed digit gives the digit |
| Printf.NatRoundTrip | src/DataWriterCSV.cpp:16 | the digits of a natural number are all decimal digits and read back as the number |
| Printf.NatToDigits | src/DataWriterCSV.cpp:16 | the digits of a natural number are never empty and start with a digit |
| Printf.Decimal | src/DataWriterCSV.cpp:14-17 | "%d" text is never empty and starts with '-' exactly for a negative value |
| Printf.DecimalChars | src/DataWriterCSV.cpp:14-17 | "%d" text starts with '-' exactly for negative values and is digits otherwise |
| Printf.DecimalRoundTrip | src/DataWriterCSV.cpp:14-17 | parsing the "%d" text of any integer gives the integer back |
| Printf.DecimalIsField | src/DataWriterCSV.cpp:14-17 | "%d" text holds no comma and no line break |
| Printf.SplitFieldPrefix | src/DataWriterCSV.cpp:50-57 | splitting at commas, a comma-free prefix joins the first field and leaves the rest alone |
| Printf.SplitJoin | src/DataWriterCSV.cpp:50-57 | splitting comma-joined comma-free fields at the commas gives back exactly the fields |
| Printf.CountCharAppend | src/DataWriterCSV.cpp:50-57 | character counts add up over concatenation |
| Printf.CountCharAbsent | src/DataWriterCSV.cpp:50-57 | a character that does not occur is counted zero times |
| Printf.JoinCommasCount | src/DataWriterCSV.cpp:53-54 | n comma-free fields joined carry exactly n - 1 commas: no leading or trailing comma |
| Printf.JoinCommasNoNewline | src/DataWriterCSV.cpp:50-57 | joined fields free of line breaks contain no line break |
| Printf.JoinCommasSnoc | src/DataWriterCSV.cpp:52-54 | one more field is joined with a comma unless it is the first |
| Printf.TextFile.Write | src/DataWriterCSV.cpp:52-57 | fprintf appends its text at the end of the file |
| Printf.Open | src/DataWriterCSV.cpp:29-34 | fopen yields a fresh, empty file or nothing |
| DataAcquisition.Distance | src/DataAcquisition.cpp:74-80 | with both cursors in the ring, the distance is their difference modulo DATA_SIZE and below DATA_SIZE (so the negative-distance branch is dead); it reaches DATA_SIZE exactly for a write cursor a whole ring ahead |
| DataAcquisition.Advance | src/DataAcquisition.cpp:101-103 | the cursor advances by the chunk size and wraps once, staying in [0, DATA_SIZE) |
| DataAcquisition.FanOut | src/DataAcquisition.cpp:105-120 | the chunk goes to the CSV queue iff save_data_csv, to the DAC queue iff save_data_dac, and to the model queue always; one post per push; acquire_count + 1; the invariant holds |
| DataAcquisition.FinishAcquisition | src/DataAcquisition.cpp:131-139 | the normal exit sets acquisition_done and posts once to model_sem and once to each enabled data semaphore |
| DataAcquisition.ReadChunk | include/Common.hpp:96-117 | converting the raw buffer through a one-column chunk buffer gives the converted chunk |
| DataAcquisition.TakeChunk | src/DataAcquisition.cpp:89-121 | a chunk is read only when the distance is at least the chunk size and the raw read succeeds; a failed read changes neither cursor, queues nor counters |
| DataAcquisition.AcquireBody | src/DataAcquisition.cpp:64-121 | low disk space sets stop_acquisition and breaks; a failed cursor query changes nothing; an overrun sets stop_acquisition and reads nothing; otherwise a chunk is read as above |
| DataAcquisition.AcquireIteration | src/DataAcquisition.cpp:62-139 | one pass of the loop as written: a set flag or low disk space leaves through the exit protocol; an overrun returns with the channel unchanged (no acquisition_done, no post) |
| DataAcquisition.AcquireIterationCorrected | src/DataAcquisition.cpp:82-87 | the same pass where an overrun leaves through the exit protocol |
| DataAcquisition.InRingCursorNeverOverruns | src/DataAcquisition.cpp:74-87 | with the write cursor inside the ring, no overrun is ever detected |
| DataAcquisition.ChunkReadWithinAvailableData | src/DataAcquisition.cpp:89-103 | a chunk read starts at the read cursor and ends at or before the write cursor, modulo the ring |
| ModelProcessing.Wrap | src/ModelProcessing.cpp:44 | storing into the element type gives a value in its range, unchanged when the value already fits |
| ModelProcessing.WrapIsModular | src/ModelProcessing.cpp:44 | the stored value differs from the computed one by a multiple of 2^16 (int16) or 2^8 (int8) |
| ModelProcessing.SeqMin | src/ModelProcessing.cpp:21-30 | the scan's minimum is at most every sample |
| ModelProcessing.SeqMax | src/ModelProcessing.cpp:21-30 | the scan's maximum is at least every sample |
| ModelProcessing.SeqMinMaxAttained | src/ModelProcessing.cpp:21-30 | the minimum and the maximum are samples of the chunk |
| ModelProcessing.NormRange | src/ModelProcessing.cpp:32-34 | the divisor is never zero; it is the span, or 1 for a constant chunk, when the span fits the type |
| ModelProcessing.NormalizeValue | src/ModelProcessing.cpp:44 | every stored value lies in the element type's range |
| ModelProcessing.NormalizeChunk | src/ModelProcessing.cpp:17-47 | the chunk sample_norm leaves behind has one value per sample, each in the element type's range |
| ModelProcessing.NormalizeWith | src/ModelProcessing.cpp:36-46 | every sample is normalised independently against the same minimum and maximum |
| ModelProcessing.QuotientBounds | src/ModelProcessing.cpp:44 | a truncated quotient of a value in [0, 512·d] by d lies in [0, 512] and reaches both ends |
| ModelProcessing.ScaledBounds | src/ModelProcessing.cpp:44 | with the span inside the type, ((x - min) * 512) / range lies in [0, 512]; min maps to 0 and max to 512 |
| ModelProcessing.ScaledMonotone | src/ModelProcessing.cpp:44 | normalisation preserves the order of samples |
| ModelProcessing.NormalizeChunkInt16 | src/ModelProcessing.cpp:17-47 | for int16 chunks whose span fits, every stored value is in [0, 512], min goes to 0, max to 512 (non-constant chunk), order preserved |
| ModelProcessing.ConstantChunkNormalizesToZero | src/ModelProcessing.cpp:32-34 | a constant chunk has its range replaced by 1 and every sample becomes 0 |
| ModelProcessing.ChunkMinMax | src/ModelProcessing.cpp:21-30 | the first loop of sample_norm computes the chunk's minimum and maximum |
| ModelProcessing.RescaleColumn0 | src/ModelProcessing.cpp:36-46 | the second loop rewrites every column-0 sample with its scaled, stored value and leaves every other column alone |
| ModelProcessing.SampleNorm | src/ModelProcessing.cpp:17-47 | sample_norm in place: column 0 becomes the normalised chunk, every other column is unchanged |
| ModelProcessing.RescaledIsNormalized | src/ModelProcessing.cpp:36-46 | rescaling against the chunk's own minimum and divisor is the normalised chunk |
| ModelProcessing.SeqMinMaxShift | src/ModelProcessing.cpp:21-30 | adding an offset to every sample shifts minimum and maximum by that offset |
| ModelProcessing.NormalizeWithShift | src/ModelProcessing.cpp:44 | shifting the samples and both bounds by one offset normalises to the same values |
| ModelProcessing.NormalizeChunkWithBounds | src/ModelProcessing.cpp:17-47 | the normalised chunk is the chunk normalised against its own minimum and maximum |
| ModelProcessing.NormalizeShiftInvariant | src/ModelProcessing.cpp:17-47 | min-max normalisation removes any offset: a shifted chunk normalises to the same values |
| ModelProcessing.NormalizedInferIgnoresOffset | src/ModelProcessing.cpp:126-137 | model_inference_mod's results do not depend on a DC offset of the input chunk |
| ModelProcessing.Results | src/ModelProcessing.cpp:65-89 | one result per chunk, in queue order, result i being cnn of chunk i |
| ModelProcessing.ResultsSnoc | src/ModelProcessing.cpp:65-89 | inferring one more chunk appends exactly its result |
| ModelProcessing.InferOne | src/ModelProcessing.cpp:67-88 | one pass of the drain: the head chunk is popped and inferred; the result is pushed with a post at each enabled result sink; model_count + 1 |
| ModelProcessing.Drain | src/ModelProcessing.cpp:65-89 | the drain empties model_queue, infers every chunk in FIFO order, and buffers each result at each enabled sink with one post each |
| ModelProcessing.DrainKeepsTracking | src/ModelProcessing.cpp:65-89 | draining keeps the inference side tracking the histories, every wake-up count covering its queue, and result i the inference of chunk i |
| ModelProcessing.InferenceStep | src/ModelProcessing.cpp:53-99 | one loop pass: blocks on a zero count; leaves on stop_program with an empty queue, or on acquisition_done after a drain; leaving sets processing_done and posts each enabled result semaphore; the invariant holds |
| ModelProcessing.ConsumeWakeup | src/ModelProcessing.cpp:62-92 | after a successful wait the wake-up is consumed, then the early exit or the drain follows, and the exit condition is as in the source |
| ModelProcessing.FinishProcessing | src/ModelProcessing.cpp:95-99 | the exit path sets processing_done and posts once to each enabled result semaphore, nothing else |
| DataWriterCsv.WriteScalar | src/DataWriterCSV.cpp:14-17 | an integer sample is written as its "%d" text, which reads back as the sample and holds no separator |
| DataWriterCsv.Fields | src/DataWriterCSV.cpp:50-55 | one field per sample, in sample order |
| DataWriterCsv.Row | src/DataWriterCSV.cpp:50-57 | the line written for a chunk ends in a line break and holds no other |
| DataWriterCsv.Rows | src/DataWriterCSV.cpp:45-61 | the rows of n chunks hold exactly n line breaks: one line per chunk |
| DataWriterCsv.RowsLineCount | src/DataWriterCSV.cpp:45-61 | concatenated rows carry one line break per chunk |
| DataWriterCsv.RowReadsBack | src/DataWriterCSV.cpp:50-57 | a row ends in its only newline, has \|chunk\| - 1 commas, and splits into one field per sample that parses back to that sample |
| DataWriterCsv.RowPrefixStep | src/DataWriterCSV.cpp:50-55 | each inner-loop step adds one field and a comma unless it is the last sample |
| DataWriterCsv.WriteRow | src/DataWriterCSV.cpp:50-57 | the inner loop and the newline append exactly the chunk's row |
| DataWriterCsv.DrainDataCsv | src/DataWriterCSV.cpp:45-61 | the drain writes one row per queued chunk in queue order, counts each once, and leaves the queue empty |
| DataWriterCsv.WrittenInOrder | src/DataWriterCSV.cpp:45-61 | rows of the next queued chunks, appended to the rows of all earlier chunks, give the rows of all chunks taken, in order |
| DataWriterCsv.ConsumeDataCsv | src/DataWriterCSV.cpp:38-61 | a pass past the semaphore consumes one wake-up, writes everything queued, and keeps the file equal to the rows of all chunks taken |
| DataWriterCsv.DataCsvStep | src/DataWriterCSV.cpp:36-65 | one loop pass: blocks on a zero count; otherwise drains and leaves iff acquisition_done (there is no stop_program check); the invariant and the row log hold |
| DataWriterDac.ChunkAmplitudes | src/DataWriterDAC.cpp:32-37 | one amplitude per sample, in index order, each the clamped level of its sample |
| DataWriterDac.Amplitudes | src/DataWriterDAC.cpp:27-40 | the amplitudes played for the chunks, chunk after chunk; AmplitudesCount, AmplitudesBounded and AmplitudesAppend state their count, bounds and concatenation |
| DataWriterDac.AmplitudesAppend | src/DataWriterDAC.cpp:27-40 | playing two batches in turn plays their concatenation |
| DataWriterDac.ChunkAmplitudesSnoc | src/DataWriterDAC.cpp:32-37 | each step of the inner loop adds the amplitude of the next sample |
| DataWriterDac.AmplitudesCount | src/DataWriterDAC.cpp:32-37 | chunks of the input width give exactly width amplitude writes each |
| DataWriterDac.AmplitudesBounded | src/DataWriterDAC.cpp:35 | every amplitude written lies in [-1, 1] |
| DataWriterDac.PlayedInOrder | src/DataWriterDAC.cpp:27-40 | playing the next queued chunks after all earlier ones leaves the output holding the amplitudes of every chunk taken, in order |
| DataWriterDac.PlayChunk | src/DataWriterDAC.cpp:32-37 | the inner loop plays exactly the chunk's amplitudes |
| DataWriterDac.DrainDataDac | src/DataWriterDAC.cpp:27-40 | the drain plays every queued chunk in order, counts each once, and leaves the queue empty |
| DataWriterDac.ConsumeDataDac | src/DataWriterDAC.cpp:16-44 | a pass past the semaphore consumes one wake-up; it leaves at once on stop_program with an empty queue, or after the drain iff acquisition_done |
| DataWriterDac.DataDacStep | src/DataWriterDAC.cpp:14-45 | one loop pass: blocks on a zero count; otherwise as ConsumeDataDac; the invariant and the played log hold |
| ModelWriterCsv.WriteOutput | src/ModelWriterCSV.cpp:9-24 | write_output for an integral value gives a line ending in a line break, with no other when the time text has none |
| ModelWriterCsv.OutputLineReadsBack | src/ModelWriterCSV.cpp:12-15 | a line is "index,value,time" and a newline: it splits into those three fields and the first two parse back |
| ModelWriterCsv.LogLines | src/ModelWriterCSV.cpp:51-58 | the lines logged for the results, numbered consecutively; LogLinesAppend and LogLinesSplit state their numbering and order |
| ModelWriterCsv.LogLinesAppend | src/ModelWriterCSV.cpp:51-58 | logging two batches in turn numbers the second on from where the first stopped |
| ModelWriterCsv.LogLinesSplit | src/ModelWriterCSV.cpp:37-54 | the k-th logged line is result k's output[0], carrying index first + k |
| ModelWriterCsv.LoggedInOrder | src/ModelWriterCSV.cpp:51-58 | logging the next queued results, numbered from taken + 1, keeps the log equal to the lines of every result taken, numbered from 1 |
| ModelWriterCsv.OpenResultLog | src/ModelWriterCSV.cpp:30-37 | fopen yields an empty file or nothing; the first index is 1 |
| ModelWriterCsv.DrainResultCsv | src/ModelWriterCSV.cpp:51-58 | each result is written with the next index before it is popped and counted; the index rises by one per result; the buffer ends empty |
| ModelWriterCsv.ConsumeResultCsv | src/ModelWriterCSV.cpp:41-61 | a pass past the semaphore consumes one wake-up; it leaves at once on stop_program with an empty buffer, or after the drain iff processing_done |
| ModelWriterCsv.ResultCsvStep | src/ModelWriterCSV.cpp:39-62 | one loop pass: blocks on a zero count; otherwise as ConsumeResultCsv; the invariant holds, the log holds all lines so far, and the next index is taken + 1 |
| ModelWriterDac.ResultAmplitudes | src/ModelWriterDAC.cpp:25-33 | one amplitude per result played |
| ModelWriterDac.ResultAmplitudesAt | src/ModelWriterDAC.cpp:27-30 | one amplitude per result, in order: the i-th is the clamped level of result i's output[0], inside [-1, 1] |
| ModelWriterDac.PlayedInOrder | src/ModelWriterDAC.cpp:25-33 | playing the next buffered results after all earlier ones leaves the output holding the amplitudes of every result taken, in order |
| ModelWriterDac.DrainResultDac | src/ModelWriterDAC.cpp:25-33 | each result is peeked, played, then popped and counted; the buffer ends empty |
| ModelWriterDac.ConsumeResultDac | src/ModelWriterDAC.cpp:15-36 | a pass past the semaphore consumes one wake-up; it leaves at once on stop_program with an empty buffer, or after the drain iff processing_done |
| ModelWriterDac.ResultDacStep | src/ModelWriterDAC.cpp:13-37 | one loop pass: blocks on a zero count; otherwise as ConsumeResultDac; the invariant and the played log hold |
| SystemUtils.PostsKeepValid | src/SystemUtils.cpp:62-72 | a post to every stage keeps the pipeline invariant |
| SystemUtils.PostAll | src/SystemUtils.cpp:62-66 | the five posts on one channel: each stage gets exactly one more wake-up, and the invariant holds |
| SystemUtils.SignalHandler | src/SystemUtils.cpp:51-74 | SIGINT sets interrupted, stop_program and stop_acquisition and posts exactly once to each of the ten semaphores; any other signal changes nothing; a repeat adds one more post each |
| SystemUtils.DataChoice | src/SystemUtils.cpp:187-191 | choice 3 enables both raw-data sinks and choice 4 neither |
| SystemUtils.OutputChoice | src/SystemUtils.cpp:221-234 | when raw data already goes to the DAC, the model output never does |
| SystemUtils.Preferences | src/SystemUtils.cpp:163-247 | a failed dialogue never changes the model-output flags |
| SystemUtils.DataCode | src/SystemUtils.cpp:187-191 | every (csv, dac) combination is selected by one data choice in 1..4 |
| SystemUtils.DataChoiceBijective | src/SystemUtils.cpp:187-191 | the data choice is recovered from the combination it selects, so 1..4 map one-to-one onto the four combinations |
| SystemUtils.OutputChoiceExclusive | src/SystemUtils.cpp:221-234 | save_output_csv iff option 1 or 3; save_output_dac iff option 2 or 3 and not save_data_dac; the two DAC sinks are never both on |
| SystemUtils.Question | src/SystemUtils.cpp:167-199 | a question succeeds with an in-range answer within its attempts, reading at most that many answers |
| SystemUtils.PreferencesNeverBothDacs | src/SystemUtils.cpp:163-247 | a successful dialogue never enables both DAC sinks |
| SystemUtils.ThreeInvalidAnswersFail | src/SystemUtils.cpp:193-198 | three out-of-range answers to the first question return false and change no flag |
| SystemUtils.FailedFirstReadFails | src/SystemUtils.cpp:169-185 | a read failure or an interrupt at the first answer returns false and changes no flag |
| SystemUtils.AskQuestion | src/SystemUtils.cpp:167-199 | the attempt loop of one question computes Question |
| SystemUtils.AskUserPreferences | src/SystemUtils.cpp:163-247 | the dialogue computes Preferences: the raw-data flags are set once the first question is answered, even if the second then fails |
| SystemUtils.CRem | src/SystemUtils.cpp:96-98 | C++'s `%`: the remainder is smaller than the divisor in magnitude and, when nonzero, has the dividend's sign |
| SystemUtils.Breakdown | src/SystemUtils.cpp:96-98 | the split's seconds part is below 60 and its milliseconds part below 1000 in magnitude |
| SystemUtils.BreakdownNonNeg | src/SystemUtils.cpp:81-83 | for non-negative durations the truncating split is the plain quotient and remainder split |
| SystemUtils.DivModUnique | src/SystemUtils.cpp:81-83 | division with remainder is unique |
| SystemUtils.BreakdownNonNegExact | src/SystemUtils.cpp:81-83 | for non-negative durations, minutes·60000 + seconds·1000 + ms gives the duration back, with seconds < 60 and ms < 1000 |
| SystemUtils.BreakdownNegates | src/SystemUtils.cpp:96-98 | a negative duration splits into the negated parts of its magnitude |
| SystemUtils.BreakdownExact | src/SystemUtils.cpp:96-98 | for every duration, minutes·60000 + seconds·1000 + ms gives it back; \|seconds\| < 60, \|ms\| < 1000; all parts carry the duration's sign |
| SystemUtils.DurationMs | src/SystemUtils.cpp:78-79 | print_duration saturates to 0 when the end is not after the start; otherwise it gives the whole milliseconds elapsed |
| Pipeline.OverrunStrandsCsvWriter | src/DataAcquisition.cpp:82-87 | as written: after an overrun, the CSV writer's next pass is Blocked and acquisition_done stays false |
| Pipeline.OverrunDrainsCsvWriter | src/DataAcquisition.cpp:131-139 | corrected: after an overrun, the CSV writer's next pass finds the wake-up and finishes |

## Left out

- Threads, real blocking and EINTR are not modelled. Each loop body is one atomic step, and a `sem_wait` on a zero count is the outcome `Blocked`. The EINTR exit of every consumer loop (`errno == EINTR && stop_program`) is not modelled, and neither is any interleaving inside a step.
- The trigger wait of acquire_data (src/DataAcquisition.cpp:21-46) is not modelled. It is a busy-wait on the hardware, and its failure paths call `exit(-1)`. Steps start after the trigger.
- Hardware and vendor calls are not modelled: `rp_*`, src/ADC.cpp and src/DAC.cpp. The write cursor, the raw read and the disk probe of one pass are inputs (`Probe`). `rp_GenAmp` is `Generator.GenAmp`.
- `cnn` is a function parameter, since its header is not part of this model. The clock and `computation_time` are the parameter `elapsed`, and the `%.6f` rendering of the time is the parameter `fmt`.
- Floating-point element types are not modelled. This covers the float branches of `convert_raw_data`, `sample_norm`, `write_scalar`, `write_output` and `OutputToVoltage`. Integer `OutputToVoltage` and the clamp are modelled over `real`, which is exact for divisions by powers of two.
- `sample_norm` for int8 is modelled with the wrap-around made explicit (`Wrap`). The order and bounds properties are proved only for int16, when the span fits (`NormalizeChunkInt16`): for int8 the scaled values reach 512 and wrap even when the span fits.
- Common.ConvertSample: the int8 conversion of a raw sample outside [-8223, 8159] is an out-of-range cast in the source, whose result C++ does not define. The model does not capture that: it keeps the rounded quotient, so full-scale readings 8160..8191 give 128 (`Int8ConversionFits`, `FullScaleInt8Overflows`). The same holds for Common.ConvertChunk, Common.ConvertRawData and the acquisition steps that use them.
- DECIMATION (include/Common.hpp:27) is used only by the hardware setup in src/ADC.cpp, which is not modelled, so it has no counterpart.
- DataWriterDac.Amplitudes, ModelWriterCsv.LogLines and Common.CDiv carry no contract of their own; the lemmas named in their rows state what they compute.
- `output_index` in log_results_csv is an unbounded integer. Its 32-bit overflow after 2^31 results is not modelled.
- The model's chunks are values, not shared pointers. So the in-place normalisation by model_inference_mod of a chunk that the raw sinks also hold is not captured. The model gives the raw sinks the chunk as acquired.
- fclose, fflush, the `std::cout`/`std::cerr` messages and the exception handlers are not modelled. The sinks' files are `TextFile`s that only grow.
- QUEUE_MAX_SIZE is declared but never enforced by any stage, so no bound is modelled.
- Not modelled: src/main.cpp (semaphore setup, thread start and join), plot.py, folder_manager, set_thread_priority, set_thread_affinity, is_disk_space_below_threshold (its result is `Probe.diskLow`), and the print layout of the statistics.
- print_channel_stats: only the split of the duration into minutes, seconds and milliseconds is modelled (`Breakdown`). Its DAC statistics line prints write_count_csv instead of write_count_dac (src/SystemUtils.cpp:112); this is noted here and not modelled.
- SystemUtils.AskUserPreferences: the `interrupted` flag and `std::cin` are modelled as one stream of `Answer`s. An interrupt seen before or right after a read is the answer `Interrupted`. Running out of input counts as a read failure. The unreachable final `return true` (src/SystemUtils.cpp:246) has no counterpart.
- Common.Channel.constructor: the timestamps and the channel identifier of the Channel struct are not modelled.

## Findings

| source | as written | input that shows it | evidently intended | confidence | as-written member | corrected member |
|---|---|---|---|---|---|---|
| src/DataAcquisition.cpp:82-87 | on overrun, acquire_data sets stop_acquisition and returns. It skips setting acquisition_done and skips the posts to the data and model semaphores. The raw-data CSV writer checks only acquisition_done (src/DataWriterCSV.cpp:63), so it is never released except through the EINTR path of a later SIGINT. | read cursor 0 and a reported write cursor of 16384 (DATA_SIZE), with raw data saved to CSV only: the pass reports an overrun, and the CSV writer's next pass is Blocked with acquisition_done false. The overrun needs a reported write cursor outside [0, DATA_SIZE): with both cursors in the ring the distance stays below DATA_SIZE (InRingCursorNeverOverruns), so a writer that laps the reader is never detected either | the overrun leaves through the exit protocol every other exit of acquire_data uses (src/DataAcquisition.cpp:125-139), so the rest of the pipeline drains and exits normally | medium, not executed | Pipeline.OverrunStrandsCsvWriter | DataAcquisition.AcquireIterationCorrected, Pipeline.OverrunDrainsCsvWriter |
