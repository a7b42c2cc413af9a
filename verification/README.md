# ProtoScope: a verified model

ProtoScope is a desktop tool that talks to devices, records what they send, and shows it as tables, logs and
waveforms. These Dafny modules model the parts of it whose correctness is hardest to see from one function, and
prove what those parts are for.

The modules fall into three groups.

**Files.** `Bytes`, `Crc32`, `Values`, `ValueCodec`, `Records`, `PsrecFormat`, `PsrecLaws` and `Psrec` cover the
binary record container: little-endian integers, the table-driven CRC-32 of section 8 of RFC 1952, the recursive
tagged value codec with its byte, depth and node limits, block framing, and the writer and reader objects.
`CsvRows`, `RecordCsv` and `RecordCsvStreams` cover the strict CSV state machine in the manner of section 2 of
RFC 4180 and the typed record file above it, and `Layouts` where each number, tag and word stands in these files.
`WaveCsv` covers the wide waveform table: the priority-queue merge,
the row reader and the batching reader.

**The live engine.** `TxModel`, `TxLaws`, `TxOutcomes` and `TxScheduler` cover the half-duplex sending scheduler with retries,
overflow policies and the guard; `RxFanout` the received bytes on their way to the script worker, the capture and
the panel; `ReceivePipeline` both together with the worker thread, from a received byte to the acknowledgement it
carries; `RawCapture` the bounded raw log and its compaction; `HistoryRebuild` and `FrameRows` the rebuilding
of the parsed view over many pumps and the rows it hands over; `TransferTask` the import queue and its packing;
`ReplayChunks` the re-chunking of replayed bytes.

**Stores.** `Oscilloscope` covers the sample history, its shifted restarts, trimming, envelope and searches;
`TableQuery` and `LiveTable` the record table with its conditions, sorting and pages; `Settings` the three-way
merge of edited settings with its derived budgets. `Basics` holds what all modules share.

A specification function that both a method and the laws about it use is tied down by itself: the check value of
the checksum, the layout of each format, the profile in force by the events of the log, the smaller of two values by
plain arithmetic, the outcome of a request by the entry in the log.

Code that changes state is a class, or a method with a loop, whose contract gives the whole new state through a
specification function; the laws are lemmas about those functions or invariants (`Valid()`) that every method
keeps. Ghost fields record what a run has seen so far (everything accepted, handed over, received, fed), so that
an invariant speaks about whole runs. Integer widths are explicit where they matter, doubles in files are 64-bit
patterns with a finiteness test, and times and sample values are real numbers.

Where the code departs from what it is meant to do, the model follows the code, shows the input and proves the
exact condition:

- `CsvRows.OpenSwallows` gives a four-byte text whose line end
  the reader's look-ahead for a byte order mark loses; `CsvRows.OpenReads` gives the exact inputs it happens on,
  and `CsvRows.OpenAllRows` those among them on which the rows read are others.
  `CsvRows.FileRoundTrip` shows that a file the row writer produced loses its first three bytes exactly when
  they are a byte order mark.
- `RecordCsv.RecordTruncationNoticed`: a record file is confirmed although it was cut exactly when the cut took
  only its last line end; nothing else is lost then.
- `TransferTask.ImportEventTable`: the CSV exit of an import does not send the event held for continuation
  (src/app/data_transfer_task.cc:206), so an event table is delivered whole exactly when its last event is not a
  byte event of 65536 bytes; `TransferTask.ImportSliceSizedTable` imports such a table.
- `TxLaws.RetryingPromise`: protocols/README.md:518 says a `retrying` report means another attempt will be made,
  but a write that times out is reported `retrying` and never queued again
  (src/app/application_transport.cc:1790); the promise holds exactly for a missing acknowledgement, and
  `TxLaws.WriteTimeoutNotRetried` is a run that breaks it.
- `TransferTask.Packer.OnEvent`: a continuation that finds no event held (src/app/data_transfer_task.cc:164),
  which no reader sends, is taken for an event of its own and delivered ahead of the events already packed; the
  order is kept exactly when nothing was packed or what was packed equals it event by event.
- `Settings.FollowingPairs`: a shown budget and its explicit flag are followed one by one and merged as a pair, so
  following can change what the merge makes of them; the lemma has the exact condition, and
  `Settings.FollowingForgetsClash` a conflict that following makes disappear.
- `TableQuery.NaNUnordered`: the comparison of values is no order once a NaN takes part; no valid record has one.

## Model

| member | source | states |
|---|---|---|
| `Bytes.Put` | src/data/psrec.cc:26-29 | the bytes written are the little-endian form of the number, which `NumberOfLittleEndian` shows `get` inverts |
| `Bytes.Get` | src/data/psrec.cc:30-35 | the value read is the number whose base-256 digits, least first, are the bytes |
| `Bytes.NumberOfLittleEndian` | src/data/psrec.cc:26-35 | every number that fits the width is read back from its written bytes |
| `Bytes.LittleEndianOfNumber` | src/data/psrec.cc:26-35 | every byte string is the written form of the number it reads as, so reading is injective for a width |
| `Crc32.BuildTable` | src/data/psrec.cc:13-21 | each of the 256 entries is its index shifted eight times through the polynomial of `PolynomialTerms` |
| `Crc32.TableStep` | src/data/psrec.cc:36-42 | one table look-up does what feeding the byte's eight bits through the CRC-32 register one at a time does |
| `Crc32.Update` | src/data/psrec.cc:36-43 | the table-driven loop computes the bit-by-bit CRC of the message from any starting state, which `CheckValue` shows to be CRC-32 |
| `Crc32.PolynomialTerms` | src/data/psrec.cc:17 | the constant is the reflected CRC-32 polynomial: exactly the powers 26, 23, 22, 16, 12, 11, 10, 8, 7, 5, 4, 2, 1 and 0 are in it |
| `Crc32.MachineByte` | src/data/psrec.cc:14-20 | eight turns of the inner loop on a 32-bit machine word do what feeding a byte to the register does |
| `Crc32.CheckValue` | src/data/psrec.cc:36-76 | the checksum of the digits 1 to 9 is 0xCBF43926 |
| `Crc32.FeedAtOnce` | src/data/psrec.cc:13-21 | feeding up to 32 bits one by one equals adding them all to the register first and then only shifting |
| `Crc32.Chains` | src/data/psrec.cc:65-76 | the CRC of prefix then payload, each fed on its own, is the CRC of the two joined |
| `Crc32.StateInjective` | src/data/psrec.cc:36-43 | two different register states stay different whatever the same following bits are |
| `Crc32.BurstNoticed` | src/data/psrec.cc:36-43 | two messages that differ only inside a window of 32 bits never have the same CRC |
| `Crc32.DamageNoticed` | src/data/psrec.cc:36-43 | the same for bytes: damage confined to 32 consecutive bits anywhere in a message changes its CRC |
| `Crc32.ResidueLaw` | src/data/psrec.cc:65-94 | running the CRC over a message and four bytes after it ends in the fixed residue exactly when those bytes are the message's checksum |
| `Values.ParseForm` | src/data/model.cc:83-163 | a finite value within the depth and node limits is read back from its form, whatever bytes follow, leaving just those bytes; the element count check never rejects an honest length |
| `Values.ParseSound` | src/data/model.cc:83-163 | conversely, whatever is read is finite, within the limits, and its form is precisely the bytes consumed |
| `Values.RoundTrip` | src/data/model.cc:181-195 | a value accepted under some limits decodes under the same limits to itself with nothing left over |
| `Values.DecodeAccepts` | src/data/model.cc:188-195 | decoding accepts exactly the encodings of values within the limits whose objects repeat no key, in whatever order their keys come |
| `Values.FormInjective` | src/data/model.cc:45-80 | two different finite values never have the same encoding |
| `Values.DecodeThenEncode` | src/data/model.cc:181-195 | encoding what was decoded gives back the same bytes exactly when the keys of every object in them ascend |
| `Values.PrefixFree` | src/data/model.cc:188-195 | no proper prefix of a valid encoding decodes |
| `ValueCodec.EncodeValue` | src/data/model.cc:181-186 | encoding succeeds exactly for finite values within the byte, depth and node limits, and yields the value's form |
| `ValueCodec.DecodeValue` | src/data/model.cc:188-195 | the stateful decoder accepts and returns what the recursive grammar describes, with nothing left |
| `ValueCodec.Encoder.Encode` | src/data/model.cc:45-80 | appends the value's form and counts its nodes, and fails exactly when a limit would be passed or a number is not finite |
| `ValueCodec.Encoder.Entries` | src/data/model.cc:69-77 | appends keys and values of an object in order within the same limits |
| `ValueCodec.Encoder.Bytes` | src/data/model.cc:35-40 | appends the length and the bytes exactly when both fit the byte limit |
| `ValueCodec.Decoder.Decode` | src/data/model.cc:120-162 | consumes one value of the grammar, spends its nodes, and fails exactly when the grammar, a limit or a repeated key forbids it |
| `ValueCodec.Decoder.Entries` | src/data/model.cc:150-159 | collects an object's entries in key order and fails exactly on a repeated key or a bad entry |
| `ValueCodec.Decoder.Count` | src/data/model.cc:101-107 | refuses an element count larger than the bytes left, and nothing else |
| `Records.SchemaTrip` | src/data/model.cc:232-254 | a value is a schema's tree exactly when the schema is what that value reads as |
| `Records.RecordTrip` | src/data/model.cc:256-276 | a value is a record's tree exactly when the record is what that value reads as |
| `Records.RecordValueAscending` | src/data/model.cc:256-264 | the tree of a valid record is in the canonical key order, so its encoding is unique |
| `PsrecFormat.ReadBlockForm` | src/data/psrec.cc:65-94 | a written block of any kind, payload and sequence number is read back whole, leaving what follows |
| `PsrecFormat.ReadBlockSound` | src/data/psrec.cc:78-94 | a block is accepted only if the bytes consumed are the written form of that kind, payload and expected sequence number |
| `PsrecFormat.MetadataTrip` | src/data/psrec.cc:95-133 | the metadata written for a writable list of schemas reads back as that map of schemas |
| `PsrecLaws.FileRoundTrip` | src/data/psrec.cc:136-214 | reading a finished file gives back the same schemas and the same records in order and then a confirmed end |
| `Layouts.LowFirst` | src/data/psrec.cc:26-29 | byte i of a written number is its digit of weight 256 to the i |
| `Layouts.ScalarLayout` | src/data/model.cc:45-66 | the tag and the bytes of each scalar, signed integers in two's complement |
| `Layouts.ContainerLayout` | src/data/model.cc:67-79 | the tag, the count and the entries of lists and objects |
| `Layouts.NestedCosts` | src/data/model.cc:56-60 | a null inside k lists is k levels deep, has k + 1 nodes and 9k + 1 bytes |
| `Layouts.TreeLayout` | src/data/model.cc:232-264 | the order of the parts of a record and of a schema |
| `Layouts.BlockLayout` | src/data/psrec.cc:65-76 | where kind, size, sequence number, payload and checksum of a block stand |
| `Layouts.FileLayout` | src/data/psrec.cc:136-179 | the signature and the kinds and numbers of the blocks of a file |
| `PsrecLaws.TruncationNoticed` | src/data/psrec.cc:180-214 | no proper prefix of a file that reads to its end reads to an end |
| `PsrecLaws.ExtensionNoticed` | src/data/psrec.cc:189-214 | no proper extension of a file that reads to its end reads to an end |
| `PsrecLaws.DamagedBlockRefused` | src/data/psrec.cc:78-94 | a block changed within 32 consecutive bits outside its size field is refused whatever follows it |
| `PsrecLaws.FileDamageNoticed` | src/data/psrec.cc:189-214 | such damage in the k-th block of a complete file makes the reader throw right there: exactly the records of the blocks before it are delivered, unchanged |
| `PsrecLaws.FileTiled` | src/data/psrec.cc:180-214 | a file that reads to its end is the signature followed by one metadata block, one block a record and one end block, with no byte between or after |
| `PsrecLaws.ByteDamageNoticed` | src/data/psrec.cc:78-94 | changing any one byte of a complete file outside the blocks' size fields makes the reading fail |
| `Psrec.ComputeChecksum` | src/data/psrec.cc:65-76 | feeding prefix and payload in turn gives the CRC-32 of the two joined |
| `Psrec.WriteBlock` | src/data/psrec.cc:65-76 | succeeds exactly when the payload is within 32 MiB, and writes the framed block |
| `Psrec.TakeBlock` | src/data/psrec.cc:78-94 | accepts exactly the framed blocks with the expected sequence number |
| `Psrec.Metadata` | src/data/psrec.cc:95-114 | refuses exactly the lists of schemas that break a limit, a version or a field rule, although it budgets bytes entry by entry |
| `Psrec.PsrecWriter.Create` | src/data/psrec.cc:136-143 | a writer exists exactly for writable schemas and starts with signature and metadata |
| `Psrec.PsrecWriter.Append` | src/data/psrec.cc:144-166 | accepts exactly a record valid for a known schema and within the memory and count limits; a refusal leaves the stream as it was and closes the writer for good |
| `Psrec.PsrecWriter.Finish` | src/data/psrec.cc:167-179 | succeeds exactly once, on a writer that has not failed |
| `Psrec.PsrecWriter.FinishedReadsBack` | src/data/psrec.cc:136-214 | whatever calls led there, the bytes of a finished writer read back as its schemas and exactly the records it accepted |
| `Psrec.PsrecReader.Open` | src/data/psrec.cc:180-188 | a reader exists exactly when signature and metadata block are sound |
| `Psrec.PsrecReader.TakeMetadata` | src/data/psrec.cc:115-133 | the loop over entries accepts and returns what the metadata grammar says |
| `Psrec.PsrecReader.Deliver` | src/data/psrec.cc:189-214 | each call delivers the next record, a confirmed end or an error; a failed reader keeps throwing and a finished one keeps saying end |
| `Psrec.ImportAll` | src/data/psrec.cc:180-214 | calling the reader until it ends succeeds exactly on complete files, with their schemas and records |
| `CsvRows.CsvEscape` | include/protoscope/data/csv.hpp:14-22 | the loop quotes exactly the fields holding a comma, a quote, a line end or a hash, doubling quotes; `ScanField` shows the reader undoes it |
| `CsvRows.WriteChunks` | src/data/csv.cc:88-93 | writing in pieces of 65536 bytes writes the whole text in order |
| `CsvRows.WriteCsvRow` | src/data/csv.cc:71-97 | a row is written whole exactly when it is within the column and byte limits; a refused row leaves at most a beginning of it |
| `Layouts.RowLayout` | src/data/csv.cc:71-97 | a row with a comma, a quote, an empty field and a hash as it stands in the file |
| `CsvRows.CsvRowReader.constructor` | src/data/csv.cc:13-26 | after the look-ahead for a byte order mark the reader still holds the input apart from the mark |
| `CsvRows.CsvRowReader.NextRow` | src/data/csv.cc:27-70 | the character loop reads exactly the row the grammar of states describes, and a reader that threw keeps throwing |
| `CsvRows.CsvRowReader.Take` | src/data/csv.cc:27-70 | characters come first from the looked-ahead bytes and then from the stream, each once |
| `CsvRows.ScanField` | src/data/csv.cc:27-70 | scanning an escaped field yields the field and stops right after it, or refuses exactly when the row would pass its byte limit |
| `CsvRows.RowRoundTrip` | src/data/csv.cc:27-97 | a written row of one or more fields is read back with what follows intact, or refused exactly when it passes the reader's limits |
| `CsvRows.PrefixSame` | src/data/csv.cc:13-26 | reading through the looked-ahead bytes is like reading one plain stream, unless a line end sits on the seam |
| `CsvRows.OpenReads` | src/data/csv.cc:13-70 | for input without a byte order mark the first row and the rest are as if there had been no look-ahead, exactly when a row may be only one byte long or the input is not one of the swallowing kind |
| `CsvRows.OpenAllRows` | src/data/csv.cc:13-70 | for input without a byte order mark all rows are as if there had been no look-ahead, except exactly when a line feed is lost on the seam and the bytes around it make that show |
| `CsvRows.OpenSwallows` | src/data/csv.cc:13-70 | a concrete input on which the look-ahead loses a line end |
| `CsvRows.RowsBack` | src/data/csv.cc:27-97 | a table written row by row is read back whole exactly when each of its rows is within the limits and not empty |
| `CsvRows.FileRoundTrip` | src/data/csv.cc:13-97 | the same through the opening of a file: every table comes back exactly when its rows are readable and its text does not begin with a byte order mark |
| `CsvRows.MarkLost` | src/data/csv.cc:13-26 | no table whose text begins with a byte order mark comes back as it was |
| `CsvRows.CutTable` | src/data/csv.cc:27-70 | a table cut anywhere reads as its first rows and then the cut row on its own |
| `CsvRows.CutRow` | src/data/csv.cc:27-70 | a row cut anywhere is refused or reads as a beginning of its first fields, using up the text |
| `CsvRows.CutPair` | src/data/csv.cc:27-70 | what precisely a cut row of two plain fields reads as |
| `CsvRows.RowsThen` | src/data/csv.cc:27-70 | text after a table adds rows or an error after it and never changes or hides the rows before |
| `RecordCsv.SignedBack` | src/data/record_csv.cc:11-20 | the decimal text of every 64-bit signed integer parses to that integer |
| `RecordCsv.DecimalCut` | src/data/record_csv.cc:11-20 | a cut decimal never parses to the number it was cut from |
| `RecordCsv.HexBack` | src/data/record_csv.cc:38-86 | the hexadecimal text of every byte string parses to it |
| `RecordCsv.ScalarBack` | src/data/record_csv.cc:38-94 | every value that fits its field is read back from its tagged text, with its type |
| `RecordCsv.SchemaRowBack` | src/data/record_csv.cc:106-180 | the row of a valid schema is read back as that schema and version |
| `RecordCsv.SchemaRowsBack` | src/data/record_csv.cc:158-180 | the schema rows of a writable list read back as its map, stopping at the first other row |
| `RecordCsv.RecordRowBack` | src/data/record_csv.cc:126-206 | the row of a record the writer accepts is read back as that record |
| `RecordCsv.RecordFileRoundTrip` | src/data/record_csv.cc:106-207 | every file the writer can produce reads back as exactly its schemas and records and a confirmed end |
| `Layouts.RecordFileLayout` | src/data/record_csv.cc:106-157 | the header, the cells of a schema, of a record and of the last row |
| `Layouts.ValueLayout` | src/data/record_csv.cc:65-86 | the letter before each value's text |
| `Layouts.HexLayout` | src/data/record_csv.cc:79-84 | bytes are written with upper-case digits, the high half first |
| `Layouts.DecimalLayout` | src/data/record_csv.cc:65-70 | decimal numbers digit by digit |
| `RecordCsv.RecordExtensionNoticed` | src/data/record_csv.cc:181-207 | a finished file with anything appended is never confirmed |
| `RecordCsv.RecordTruncationNoticed` | src/data/record_csv.cc:181-207 | a finished file cut short is confirmed exactly when only its last line end is missing, and then it reads as the same records |
| `RecordCsv.ConfirmedEnds` | src/data/record_csv.cc:181-207 | reading is confirmed only by a last row that says end and counts the records |
| `RecordCsv.SchemaRowFits` | src/data/record_csv.cc:106-125 | the row of any valid schema is within the row writer's limits, so writing it cannot fail |
| `RecordCsvStreams.SchemaCells` | src/data/record_csv.cc:106-125 | the loop builds the row that `SchemaRowBack` reads |
| `RecordCsvStreams.RecordCells` | src/data/record_csv.cc:126-148 | fails exactly when some value has no text, and otherwise builds the row that `RecordRowBack` reads |
| `RecordCsvStreams.RecordCsvWriter.Create` | src/data/record_csv.cc:106-125 | a writer exists exactly for writable schemas |
| `RecordCsvStreams.RecordCsvWriter.Append` | src/data/record_csv.cc:126-148 | accepts exactly a record that fits schema, memory, row and count limits; a refusal closes the writer |
| `RecordCsvStreams.RecordCsvWriter.Finish` | src/data/record_csv.cc:149-157 | succeeds exactly once, leaving the complete file of the accepted records |
| `RecordCsvStreams.RecordCsvWriter.FinishedReadsBack` | src/data/record_csv.cc:106-207 | whatever calls led there, a finished file reads back as the writer's schemas and exactly the records it accepted |
| `RecordCsvStreams.Pull` | src/data/record_csv.cc:181-207 | each pull takes the next row of the table the input stands for, or tells its end from its error |
| `RecordCsvStreams.RecordCsvReader.Create` | src/data/record_csv.cc:158-180 | a reader exists exactly when header and schema rows are sound, holding the first row after them back |
| `RecordCsvStreams.RecordCsvReader.Next` | src/data/record_csv.cc:181-207 | each call delivers the next record, a confirmed end or an error, which it then repeats |
| `RecordCsvStreams.ImportAll` | src/data/record_csv.cc:158-207 | calling the reader to its end gives what the table of rows means |
| `WaveCsv.Enqueue` | src/plot/csv_data_file.cc:834-838 | queues a channel's next sample inside the range, and none exactly when no such sample is left |
| `WaveCsv.PopTime` | src/plot/csv_data_file.cc:848-857 | pops precisely the queued samples of the earliest time and puts each in its channel's column, leaving the other cells blank |
| `WaveCsv.EncodeRow` | src/plot/csv_data_file.cc:846-861 | one turn of the merge writes the row of the earliest time left and moves on each channel that had a sample there by one |
| `WaveCsv.EncodeWaveCsv` | src/plot/csv_data_file.cc:828-862 | the priority-queue export writes the same rows as the plain merge of the channels' in-range samples |
| `WaveCsv.TopIsFirst` | src/plot/csv_data_file.cc:828-850 | the queue's top is the earliest time over all samples left, and the queue is empty exactly when none is left |
| `WaveCsv.MergedColumn` | src/plot/csv_data_file.cc:828-862 | each channel's column of the merge holds its samples, all of them, once each and in order |
| `WaveCsv.SelectedMeans` | src/plot/csv_data_file.cc:834-838 | a range selects exactly the samples from its low to its high end, both included |
| `WaveCsv.RowsInOrder` | src/plot/csv_data_file.cc:828-862 | row times of sorted channels never go back, and of two rows of one time the first has every channel the second has |
| `WaveCsv.WideRoundTrip` | src/plot/csv_data_file.cc:506-552 | exported rows are readable and reading them and sorting stably gives every channel's in-range samples exactly; unsorted channels come back stably sorted |
| `WaveCsv.ReadRow` | src/plot/csv_data_file.cc:515-537 | a row adds at most one sample to each channel and is refused exactly when a filled cell or its time is no number |
| `WaveCsv.ReadWaveCsvWideRows` | src/plot/csv_data_file.cc:506-539 | succeeds exactly on readable rows and gives each channel its own column's samples, wherever the time column stands |
| `WaveCsv.StableSortedLaw` | src/plot/csv_data_file.cc:541-552 | the sorted samples are the one arrangement in time order that keeps, at each time, the samples and their order |
| `WaveCsv.Flush` | src/plot/csv_data_file.cc:967-976 | hands over each channel's held samples in order, in batches no larger than 8192, and leaves nothing held |
| `WaveCsv.CheckTimes` | src/plot/csv_data_file.cc:1006-1016 | refuses exactly when the last held sample of some channel lies before the last one seen earlier |
| `WaveCsv.OneMoreSample` | src/plot/csv_data_file.cc:1006-1016 | as rows add one sample at a time, comparing only the last sample's time catches every step back in time |
| `WaveCsv.StreamWaveCsv` | src/plot/csv_data_file.cc:956-1025 | streaming succeeds exactly on readable rows with every column in time order, and then delivers each channel's samples once, in order, in batches of at most 8192 |
| `TxLaws.EachAttemptOnce` | src/app/application_transport.cc:1734-2167 | over every run, an attempt that entered is finished once or is in just one of the queue and the two active slots, which are never both filled |
| `TxLaws.HandOffOrder` | src/app/application_transport.cc:1949-2081 | of any two hand-offs to the transport the earlier has the smaller id, or both are attempts of one guarded request, consecutive, numbered in turn and within its maximum |
| `TxLaws.QueueBound` | src/app/application_transport.cc:2015-2081 | waiting plus active requests never exceed the configured maximum, under any overflow policy and with retries put at the front |
| `TxLaws.GuardLatch` | src/app/application_transport.cc:203-218 | the guard is halted exactly when some log entry after the last reset ends a guarded attempt as failed, rejected or dropped, or as timed out for the last time; no guarded request is handed over while there is one |
| `TxLaws.LateReportIgnored` | src/app/application_transport.cc:1734-1794 | a report for a write that was cancelled or replaced changes nothing |
| `TxLaws.CancelEmpties` | src/app/application_transport.cc:2154-2167 | cancelling all leaves no request waiting or active |
| `TxLaws.WaitEnds` | src/app/application_transport.cc:1902-1947 | whatever counts a check is given, it ends the wait for an acknowledgement only past the deadline and with all counts zero, and then it always does; other steps end it only by a result or by cancelling |
| `TxLaws.RetryingPromise` | src/app/application_transport.cc:1790-1793 | a request reported as retrying is finished as timed out, and a next attempt enters exactly when the timeout was a missing acknowledgement and not a write timeout |
| `TxLaws.WriteTimeoutNotRetried` | src/app/application_transport.cc:1790-1793 | a concrete run in which a guarded request of two attempts is reported as retrying and its second attempt never enters |
| `TxOutcomes.AcknowledgedAs` | src/app/application_transport.cc:1867-1892 | in every good state, a batch with results ends the waiting request as completed if its first result says so and as failed if not, in no other way, whatever the later results are |
| `TxOutcomes.AcknowledgedGuard` | src/app/application_transport.cc:203-218 | a successful acknowledgement never opens the breaker and a failed one of a guarded request does |
| `TxOutcomes.GuardReports` | src/app/application_transport.cc:203-233 | which guard state is reported with an end: halted exactly when it opens the breaker, retrying exactly for a timeout with attempts left |
| `TxOutcomes.BatchOrder` | src/app/application_transport.cc:1821-1895 | the log of a batch: its resets, then its requests, then the end of the waiting one, then what is handed over or rejected |
| `TxOutcomes.Admitted` | src/app/application_transport.cc:2015-2081 | a request joins the queue, or exactly one goes: which one and as what, under each overflow policy and with the breaker open; the one dropped from the front has the smallest id |
| `TxOutcomes.Defaults` | src/app/application_transport.cc:2015-2023 | which timeout a request and a send get that have none of their own |
| `TxOutcomes.ReportedAs` | src/app/application_transport.cc:1734-1794 | a request that was sent waits until its own deadline; any other write ends with just the outcome reported |
| `TxOutcomes.TimedOutAs` | src/app/application_transport.cc:1926-1947 | a timed-out request ends as timed out only, and its next attempt is the first to be handed over or rejected |
| `TxOutcomes.AllCancelled` | src/app/application_transport.cc:2154-2167 | active write, waiting request and queue end as cancelled, in that order, and the breaker stays as it was |
| `TxOutcomes.Driven` | src/app/application_transport.cc:1949-2013 | the loop hands over the first request that the transport takes and the breaker does not bar, and rejects those before it |
| `TxLaws.Reached` | src/app/application_transport.cc:1734-2167 | every state a run can reach satisfies the whole invariant: conservation, order, bound, guard, and reports owed by the transport |
| `TxLaws.RunGood` | src/app/application_transport.cc:1734-2167 | the invariant is kept from any good state over any further run |
| `TxLaws.DriveGood` | src/app/application_transport.cc:1949-2013 | one round of handing over keeps the invariant, hands over in queue order and, online, leaves nothing it could still hand over |
| `TxLaws.EnqueueGood` | src/app/application_transport.cc:2015-2081 | enqueueing under each overflow policy keeps the invariant |
| `TxLaws.FinishedOnce` | src/app/application_transport.cc:2092-2152 | over every run no attempt is given two final outcomes, and none that never entered is given one |
| `TxScheduler.Scheduler.KeptByEveryCall` | src/app/application_transport.cc:1734-2167 | whatever calls were made to the scheduler: conservation, one slot, the queue bound, the guard as the log has it and the order of hand-offs |
| `TxScheduler.Scheduler.EnqueueTxRequest` | src/app/application_transport.cc:2015-2081 | the code's checks and drops lead to the state of the specification whose invariant `EnqueueGood` proves, and keep that invariant |
| `TxScheduler.Scheduler.DriveTxScheduler` | src/app/application_transport.cc:1949-2013 | the loop ends and leads to the state of the specification `DriveGood` is about, with the hand-off accounted for |
| `TxScheduler.Scheduler.ProcessTransportTxEvent` | src/app/application_transport.cc:1734-1794 | the end of a write is the run step of a report on the active write and nothing otherwise: a sent request waits for its acknowledgement, anything else is finished and the next handed over |
| `TxScheduler.Scheduler.ApplyScriptTxOutputs` | src/app/application_transport.cc:1821-1895 | the three loops amount to the run step of a batch, which `AcknowledgedAs` and `BatchOrder` are about |
| `TxScheduler.Scheduler.ProcessRequestTimeouts` | src/app/application_transport.cc:1902-1947 | the run step of a check, which `WaitEnds` is about, retry at the front included |
| `TxScheduler.Scheduler.CancelPendingTxRequests` | src/app/application_transport.cc:2083-2090 | finishes each waiting request as cancelled, in queue order |
| `TxScheduler.Scheduler.CancelAllTxRequests` | src/app/application_transport.cc:2154-2167 | the run step of cancelling, which `CancelEmpties` is about: the active write, the awaited request and then the queue |
| `RawCapture.ApplyActiveRawProfileEvent` | src/app/application_data.cc:221-237 | the updated list has the event, if it sets a profile, and those of the old profiles that the event neither replaces nor clears, in the order of a replay |
| `RawCapture.ProfileInForce` | src/app/application_data.cc:221-237 | after a replay a profile is in force exactly if an event set it and no later one set another for its frame, cleared it or cleared all |
| `RawCapture.ProfilesInOrder` | src/app/application_data.cc:221-237 | the list has the profiles in force in the order they were set |
| `RawCapture.PlotInForce` | src/app/application_data.cc:264-272 | the plot setup in force is the last one of the log |
| `RawCapture.TrimRawCaptureEventsToPayloadWindow` | src/app/application_data.cc:255-306 | the trimming loop gives the log of the declarative cut: the setting at the cut, then the events from it on |
| `RawCapture.TrimKeepsReplay` | src/app/application_data.cc:255-306 | replaying the trimmed log meets exactly the bytes from the cut on, each under the same profiles and plot set-up as in the full log, and ends in the same setting |
| `RawCapture.MetUnder` | src/app/application_data.cc:255-306 | each byte is met under the setting of exactly the events before it |
| `RawCapture.TrimmedFront` | src/app/application_data.cc:255-306 | a trimmed log begins with the profiles in force where the cut falls, in the order they were set, and the last plot setup before it |
| `RawCapture.TrimTotal` | src/app/application_data.cc:255-306 | trimming removes exactly the asked number of counted bytes, or all there are |
| `RawCapture.TrimTwice` | src/app/application_data.cc:255-306 | trimming by a and then by b is trimming by a + b |
| `RawCapture.TrimThenGrow` | src/app/application_data.cc:581-621 | trimming, appending and trimming again equals trimming the whole log once, so incremental compaction loses nothing |
| `RawCapture.TrimReceived` | src/app/application_data.cc:255-306 | the received bytes left by a trim are an end of those before |
| `RawCapture.LiveLogReplays` | src/app/application_data.cc:581-621 | a log kept by the live budget replays as the end of everything ever recorded, byte for byte and setting for setting |
| `RawCapture.RawCaptureEventRxBytes` | src/app/application_data.cc:36-45 | counts the received bytes the events hold |
| `RawCapture.NormalizeRawCaptureExportWindow` | src/app/application_data.cc:309-332 | the exported events hold as many received bytes as the payload, they are the payload exactly when that is an end of what the events received, and they replay as the end of the full log |
| `RawCapture.LiveCapture.Push` | src/app/application_data.cc:587-605 | a new event gets the next sequence number, and payload and retained size stay exact |
| `RawCapture.LiveCapture.EnforceBudget` | src/app/application_data.cc:606-620 | brings the retained size to the limit at most, keeping payload and size exact and noting truncation exactly when bytes went |
| `RawCapture.LiveCapture.AppendRawCaptureEvent` | src/app/application_data.cc:581-621 | over any run the payload is the received bytes of the events, the retained size their total, at most the limit, and the log one cut of the whole history |
| `RawCapture.LiveCapture.AppendLiveRawCapture` | src/app/application_data.cc:536-578 | received bytes append to the same log, or begin a new one exactly when the protocol changed under a filled payload |
| `RawCapture.JoinedReceived` | src/app/application_data.cc:616-619 | the payload rebuilt after a trim is the received bytes of the events in order |
| `RxFanout.Receiver.PullTransportEventsFromTransport` | src/app/application_transport.cc:1370-1376 | pulled events go to the end of the queue, none lost |
| `RxFanout.Receiver.TryProcessLiveRxBytes` | src/app/application_transport.cc:1672-1710 | only the worker may refuse bytes; whatever amount is accepted, precisely that front part goes to worker, capture and panel alike; bytes of an inactive connection are discarded, and accounted for |
| `RxFanout.Receiver.ProcessTransportBytesEvent` | src/app/application_transport.cc:1712-1732 | bytes of an event taken whole go to all three or are discarded as a whole |
| `RxFanout.Receiver.ProcessPendingRxBytes` | src/app/application_transport.cc:1451-1477 | waiting chunks are processed from the front, at most the budget, and the queue shrinks by just the bytes processed |
| `RxFanout.ConnectedAfter` | src/app/application_transport.cc:1583-1655 | if the active connection is the one last opened ready and not closed since, it still is after one more event |
| `RxFanout.TurnFates` | src/app/application_transport.cc:1672-1732 | of the bytes used up at a turn those of a live connection are kept exactly if it was the last to become ready and was not closed since, and those of no live connection always |
| `RxFanout.Receiver.DrainTransportEventQueues` | src/app/application_transport.cc:1378-1449 | a pump delivers at most its byte budget and keeps the exact account: received is processed, then queued chunks, then queued events, in order; what it does is the iterated turn that `PumpDrains` is about |
| `RxFanout.Receiver.DrainOne` | src/app/application_transport.cc:1384-1444 | one pass of the loop: chunks before events, events about connections in order, live bytes straight to the worker, other bytes by way of a chunk, an event counted exactly when the code counts it |
| `RxFanout.PumpDrains` | src/app/application_transport.cc:1378-1449 | a pump stops for nothing but its limits: short of event, time and byte budget, with a worker that always has some room, nothing is left waiting |
| `RxFanout.Receiver.DetachPendingRealtimeBacklogFromConnection` | src/app/application_transport.cc:1488-1511 | received bytes in queued events survive as chunks in order, none of them of a live connection any more, while the other events go |
| `RxFanout.Receiver.ClearPendingRealtimeBacklog` | src/app/application_transport.cc:1513-1532 | everything queued is counted as discarded and nothing as delivered |
| `RxFanout.Receiver.PendingRxByteCount` | src/app/application_transport.cc:1550-1562 | the count is exactly the bytes that wait in chunks and in events |
| `RxFanout.ChunkTaken` | src/app/application_transport.cc:1451-1477 | taking any part of the first chunk keeps the account of received bytes exact |
| `RxFanout.EventTaken` | src/app/application_transport.cc:1378-1449 | taking any part of the first event directly keeps it exact too |
| `RxFanout.Delivered` | src/app/application_transport.cc:1672-1710 | one more delivery to all three keeps worker, capture and panel identical and equal to the kept bytes |
| `RxFanout.NothingLost` | src/app/application_transport.cc:1378-1732 | all that was received is what the capture holds followed by what is queued, exactly when no byte was discarded |
| `RxFanout.TurnAccounts` | src/app/application_transport.cc:1378-1449 | one turn of the pump keeps the account of received bytes and only adds to what was kept and handed on |
| `ReceivePipeline.TimeoutSafe` | src/app/application_transport.cc:1902-1932 | over every run of application and worker: when a request times out, every byte received so far has been through its callback or was given up, every output made for received bytes has been taken, and none applied since the wait began was an acknowledgement |
| `ReceivePipeline.AnswerWins` | src/app/application_transport.cc:1902-1932 | while a received byte, or an output made for one, is still under way, a check changes nothing for the request that waits, however late it is |
| `ReceivePipeline.TimeoutComes` | src/app/application_transport.cc:1902-1947 | a check past the deadline that finds nothing under way does end the wait as timed out |
| `ReceivePipeline.AnswerEndsWait` | src/app/application_transport.cc:1865-1892 | the first batch with a result taken outside offline mode ends the wait |
| `ReceivePipeline.AnswerDecides` | src/app/application_transport.cc:1867-1892 | and it ends it as completed or failed just as its first result says |
| `ReceivePipeline.NothingUnderWay` | src/scripting/script_runtime_worker.cc:548-558 | the five counts read together are all zero only if no received byte and no output for one is held anywhere |
| `ReceivePipeline.MovedOk` | src/scripting/script_runtime_worker.cc:560-613 | no step of the worker thread loses a byte or an output, and the counters of queued and executing bytes stay exact between them |
| `ReceivePipeline.RunOk` | src/app/application_transport.cc:1378-1947 | over any interleaving of both threads the bytes handed to the worker are settled, in hand or queued in order, and the outputs published are those taken and those waiting |
| `HistoryRebuild.HistoryView.BeginHistoryRebuild` | src/app/application_transport.cc:750-805 | freezes the retained log up to the bound and starts with nothing fed |
| `HistoryRebuild.HistoryView.QueueHistoryFollowing` | src/app/application_transport.cc:734-748 | an arrival is queued exactly when it fits the byte and row limits; otherwise the rebuild is given up |
| `HistoryRebuild.HistoryView.AppendTransferRow` | src/app/application_transport.cc:497-523 | a live row gets the next position, joins the bounded panel, and is queued for catching up if a rebuild goes on |
| `HistoryRebuild.HistoryView.ApplyTransferFrameRuntimeProfileEvent` | src/app/application_transport.cc:1172-1182 | a live profile change is queued in its place among the arrivals |
| `HistoryRebuild.HistoryView.PumpHistoryRebuild` | src/app/application_transport.cc:807-1018 | a pump feeds slices within its byte budget, none over half the parser's buffer, and gets on; on completion the parser has been fed exactly the frozen history and then the arrivals in the order accepted, each byte once; it is given up for a changed generation, for a replaced or cut log, for an arrival that left the panel or for a refused profile, each exactly when that is what it meets |
| `HistoryRebuild.HistoryView.FeedHistory` | src/app/application_transport.cc:836-1018 | the loop of a pump stops at the first input that is lost or refused and for nothing else but its budget and the end |
| `HistoryRebuild.ReplacementNoticed` | src/app/application_transport.cc:817-824 | a log emptied, cut or replaced under any generation is noticed by the test of front position and size, and an intact one never is taken for replaced |
| `HistoryRebuild.HistoryView.ArrivalLostExactly` | src/app/application_transport.cc:929-938 | the test of place, position and size refuses an arrival exactly when the panel has dropped a row since it was accepted |
| `HistoryRebuild.HistoryView.Turn` | src/app/application_transport.cc:836-1000 | each turn that may feed bytes leaves strictly less to do; a slice of data is as large as what is left, the room and half the parser's buffer for its direction allow, and no larger |
| `HistoryRebuild.FeedPart` | src/app/application_transport.cc:807-1018 | feeding a slice of an input continues the stream where the last slice stopped |
| `HistoryRebuild.FeedRest` | src/app/application_transport.cc:807-1018 | finishing an input moves to the next one without skipping or repeating a byte |
| `HistoryRebuild.RowOfHead` | src/app/application_transport.cc:807-1018 | the row found by index arithmetic in the trimmed panel is the one the arrival was queued for, unless it was trimmed away |
| `HistoryRebuild.QueueGrows` | src/app/application_transport.cc:734-748 | queueing keeps the queue in step with the accepted arrivals and its byte count exact |
| `HistoryRebuild.AllFed` | src/app/application_transport.cc:807-1018 | with both cursors at their ends nothing of history or arrivals is left unfed |
| `HistoryRebuild.StreamAt` | src/app/application_transport.cc:945-985 | each profile change reaches the parser as one control in its place, data byte by byte in its direction, a plot setup not at all |
| `FrameRows.PendingRows.SettleTransferHistoryRows` | src/app/application_transport.cc:691-706 | rows leaving settle at most what is owed, and total = pending + submitted + discarded since the hand-over stays true |
| `FrameRows.PendingRows.TrimPendingTransferFrameRowsToLimit` | src/app/application_transport.cc:2266-2284 | the oldest rows beyond the limit go, and those still owed to the rebuild are counted as discarded |
| `FrameRows.PendingRows.EnqueueTransferFrameRows` | src/app/application_transport.cc:2255-2264 | new rows join at the end and the newest within the limit stay |
| `FrameRows.PendingRows.FlushPendingTransferFrameRows` | src/app/application_transport.cc:2286-2302 | shows rows from the front in order, none while a rebuild goes on, and keeps the account |
| `FrameRows.PendingRows.HandOver` | src/app/application_transport.cc:1000-1017 | the rebuilt rows replace the pending ones, the total becomes their number, and trimming and the first showing keep the account |
| `FrameRows.FrontLeaves` | src/app/application_transport.cc:691-706 | rows not yet settled are always the front of the pending queue and the end of what was handed over |
| `TransferTask.Packer.OnEvent` | src/app/data_transfer_task.cc:154-184 | every event heard is, in order, in a batch sent, held for continuation or in the batch being filled; a continuation without an event held becomes one of its own, ahead of those being filled |
| `TransferTask.Packer.Flush` | src/app/data_transfer_task.cc:118-124 | sends what is being filled in one batch; with nothing held for continuation all events heard have been sent |
| `TransferTask.Packer.FlushStreamedEvent` | src/app/data_transfer_task.cc:125-130 | sends the event held for continuation, in its place |
| `TransferTask.FeedSlices` | src/plot/raw_capture_file.cc:1246-1255 | an event read in slices of 65536 bytes is heard as one event with all its bytes |
| `TransferTask.ImportRecording` | src/app/data_transfer_task.cc:185-199 | the recording and package exits deliver every event once and in order, in batches that each fit a fresh 8192-sample, 65536-byte budget |
| `TransferTask.ImportEventTable` | src/app/data_transfer_task.cc:201-207 | the CSV exit delivers every event exactly when the last is not a byte event of 65536 bytes, and otherwise all but that one |
| `TransferTask.ImportSliceSizedTable` | src/app/data_transfer_task.cc:163-173 | importing a table of one event of 65536 bytes delivers nothing |
| `TransferTask.ImportQueue.TakenInOrder` | src/app/data_transfer_task.cc:50-84 | without cancellation or error the batches taken are a beginning of those pushed, at most four behind, and all of them once the import is complete and inactive |
| `TransferTask.ImportQueue.Push` | src/app/data_transfer_task.cc:50-59 | a batch joins at the end unless stop was asked for or four are waiting |
| `TransferTask.ImportQueue.Take` | src/app/data_transfer_task.cc:72-84 | gives the oldest batch exactly when it fits the budget, which a fresh budget always does; the import turns inactive exactly with the last one |
| `TransferTask.ImportQueue.Finish` | src/app/data_transfer_task.cc:61-70 | once complete the import is active exactly while batches wait, and an error or cancellation drops them |
| `TransferTask.ImportQueue.Cancel` | src/app/data_transfer_task.cc:22-33 | an inactive import is left alone; an active one loses its batches and, if complete, ends |
| `TransferTask.ImportQueue.PushMetadata` | src/app/data_transfer_task.cc:136-149 | the metadata is pushed only once the import was confirmed and not stopped, waits otherwise, and is the first batch |
| `TransferTask.ImportQueue.NothingUnconfirmed` | src/app/data_transfer_task.cc:136-149 | before confirmation the consumer is given nothing, and what it is given first is the metadata |
| `TransferTask.HandAllOver` | src/app/data_transfer_task.cc:50-84 | whatever the consumer does between pushes, it takes every batch once and in order, after the metadata, and the import then ends |
| `TransferTask.RunRecordingImport` | src/app/data_transfer_task.cc:132-199 | from the file to the consumer, packing and queue together: every event of a recording is taken once and in order |
| `TransferTask.RunEventTableImport` | src/app/data_transfer_task.cc:132-207 | from the file to the consumer: an event table is taken whole exactly when its last event is not a byte event of 65536 bytes, and otherwise without that one |
| `ReplayChunks.ChunkBytes` | src/app/application_replay.cc:33-43 | a chunk is never empty and, for a ring that drops its oldest bytes, at most half the ring |
| `ReplayChunks.PiecesJoin` | src/app/application_replay.cc:767-835 | pieces cut to a chunk size join to the bytes again, none empty or too large |
| `ReplayChunks.Batcher.EnqueueRawCaptureBytes` | src/app/application_replay.cc:767-835 | over any run the posted chunks followed by the held batch are the replayed bytes in order; no chunk passes the chunk size, the held batch stays below it, and unsynchronised bytes stay below the threshold |
| `ReplayChunks.Batcher.FlushRawCaptureReplayBatch` | src/app/application_replay.cc:838-859 | a flush posts the held batch alone, after which everything replayed has been posted and synchronised |
| `ReplayChunks.ReplayOversizedEvent` | src/app/application_replay.cc:606-646 | an event larger than the ring is posted as a beginning of its bytes, in order and without repetition, whatever amounts the worker takes, each slice within half the ring; a worker that always takes some gets all of it |
| `Oscilloscope.EstimateTimeStep` | src/plot/oscilloscope.cc:51-61 | the step leads to the first sample that is later than the one before it, or is the small constant when there is none |
| `Oscilloscope.AddedSamples` | src/plot/oscilloscope.cc:77-103 | what a batch adds is in time order and strictly after the last sample; a restarting batch loses no sample to the shift, any other loses exactly those not after the last time |
| `Oscilloscope.StartsAtZero` | src/plot/oscilloscope.cc:77-84 | which batches start over |
| `Oscilloscope.TrimmedShows` | src/plot/oscilloscope.cc:857-889 | after trimming the channel shows an end of the samples taken, at their global indices, within the limit |
| `Oscilloscope.GrownShows` | src/plot/oscilloscope.cc:529-540 | samples added after the last time keep the channel sorted and its indices global |
| `Oscilloscope.Buffer.ConfigureChannels` | src/plot/oscilloscope.cc:325-340 | surviving channels keep samples and indices, new ones are empty |
| `Oscilloscope.Buffer.TrimHistory` | src/plot/oscilloscope.cc:857-898 | only the one channel changes, by dropping its oldest samples beyond the effective limit |
| `Oscilloscope.Buffer.LimitMeans` | src/plot/oscilloscope.cc:857-898 | trimming leaves no more than the total and than the greater of history limit and preserved limit, drops no more than that takes, and nothing while it is suspended |
| `Oscilloscope.Buffer.SetHistoryLimit` | src/plot/oscilloscope.cc:382-393 | a changed limit trims every channel at once, each by dropping exactly the oldest samples beyond it |
| `Oscilloscope.Buffer.SetMaxTotalSamples` | src/plot/oscilloscope.cc:400-414 | a total trims every channel at once; no total leaves all of them as they are |
| `Oscilloscope.Buffer.Append` | src/plot/oscilloscope.cc:464-486 | over any run every channel stays sorted by time and its offset plus size is the number of samples accepted since the last reset; which samples are accepted and which of them stay is stated for each of the three cases |
| `Oscilloscope.Buffer.AppendAfterHistoryReset` | src/plot/oscilloscope.cc:513-527 | a reset empties every channel, begins a new epoch and takes the batch whole |
| `Oscilloscope.Buffer.AppendPreparedSamples` | src/plot/oscilloscope.cc:529-540 | the samples join their channel's accepted ones in order, with the trim applied |
| `Oscilloscope.DropSamplesNotAfterLastTime` | src/plot/oscilloscope.cc:97-103 | keeps, in order, exactly the samples after the last time |
| `Oscilloscope.LowerBoundByTime` | src/plot/oscilloscope.cc:839-846 | the index separates the samples before the time from those at or after it |
| `Oscilloscope.UpperBoundByTime` | src/plot/oscilloscope.cc:848-855 | the index separates the samples up to the time from those after it |
| `Oscilloscope.FindNearestByTime` | src/plot/oscilloscope.cc:754-790 | finds a sample exactly when one is within the distance, and then one at the least distance of the whole history, although it looks at 32 of them |
| `Oscilloscope.WindowSuffices` | src/plot/oscilloscope.cc:767-769 | sixteen samples to either side of the search point hold one as near as any |
| `Oscilloscope.VisibleWindow` | src/plot/oscilloscope.cc:567-575 | the window holds every visible sample and one real neighbour to either side where there is one |
| `Oscilloscope.BuildLimitedEnvelope` | src/plot/oscilloscope.cc:602-709 | the points cut the selected samples into consecutive runs, each sample in exactly one, each point with its run's exact least and greatest value and count; few samples get a point each, many get at most one point a pixel, none wider than a pixel's time |
| `Oscilloscope.Buckets` | src/plot/oscilloscope.cc:655-693 | the cursor loop over equal time buckets leaves no sample of the selection out, counts none twice and puts none together that are more than a bucket apart |
| `Oscilloscope.OneBucket` | src/plot/oscilloscope.cc:662-691 | a bucket takes the samples up to its edge, with exact extremes and their mean time |
| `Oscilloscope.CoverKeepsExtremes` | src/plot/oscilloscope.cc:602-709 | no selected value lies outside the drawn envelope, and every drawn extreme is a selected value |
| `TableQuery.ComparisonOrders` | src/data/query.cc:33-46 | the comparison of scalar values is antisymmetric, and without NaN transitive, mixed types included |
| `TableQuery.EqualInOrder` | src/data/query.cc:33-46 | two values compare as equal exactly when they are the same, are the two zeros, or are doubles of which one is a NaN |
| `TableQuery.NaNUnordered` | src/data/query.cc:33-46 | with a NaN the comparison is not transitive: one and two each equal it |
| `TableQuery.SmallerMeans` | src/data/query.cc:33-46 | which of two values of one type is the smaller: integers by number, false before true, texts and bytes as in a dictionary |
| `TableQuery.SmallerDouble` | src/data/query.cc:33-46 | doubles other than NaN by sign and magnitude |
| `TableQuery.SmallerType` | src/data/query.cc:35 | values of different types by the position of the type |
| `TableQuery.IntegerConditions` | src/data/query.cc:48-70 | on integers each operator is plain arithmetic |
| `TableQuery.NullConditions` | src/data/query.cc:48-70 | the tests for null, and that no other operator is met across types |
| `TableQuery.FirstOfName` | src/data/query.cc:25-31 | the value found is that of the first field of the name |
| `TableQuery.ComparisonsExclude` | src/data/query.cc:48-70 | for values of one type the operators are complements and unions of each other as their names say |
| `TableQuery.FindFieldValue` | src/data/query.cc:25-31 | finds the value of the first field of that name, or none when the record is too short for it |
| `TableQuery.MatchesRecord` | src/data/query.cc:48-70 | the loop accepts exactly the records that meet every condition |
| `TableQuery.Search` | src/data/query.cc:48-70 | containment holds exactly when the text occurs at some place |
| `TableQuery.ConditionsTrip` | src/data/query.cc:72-94 | a value is the tree of a list of conditions exactly when it reads as that list |
| `LiveTable.EndGrows` | src/data/table.cc:39-57 | dropping just enough old rows for the new one leaves again the longest end of all rows that fits both limits |
| `LiveTable.SortOrders` | src/data/table.cc:59-86 | the order of sort values, absent ones included, is antisymmetric and transitive in either direction |
| `LiveTable.BeforeOrders` | src/data/table.cc:59-86 | with time and id breaking ties, any two rows of different ids stand in just one order, transitively |
| `LiveTable.StandsFirst` | src/data/table.cc:71-80 | a row without the field stands before one with it and a smaller value before a greater, the other way round in a descending view; ties go to the earlier time and then the smaller id |
| `LiveTable.PageSorted` | src/data/table.cc:59-86 | on a page sorted by an integer field the smaller integer stands first, in a descending view last |
| `LiveTable.RangeIncluded` | src/data/table.cc:63-68 | both ends of the time range are selected and nothing outside it is |
| `LiveTable.ArrangedInOrder` | src/data/table.cc:59-86 | the arranged rows are in that order and the same rows |
| `LiveTable.OrderUnique` | src/data/table.cc:59-86 | there is only one such arrangement, so any sort gives it |
| `LiveTable.PagesCover` | src/data/table.cc:59-86 | consecutive pages join to precisely the sorted rows from the offset on, and `more` says exactly whether another page has rows |
| `LiveTable.Table.Append` | src/data/table.cc:39-57 | invalid and oversized records are refused; after any run the rows kept are the longest end of all accepted ones within both limits, with consecutive ids and an exact byte total |
| `LiveTable.Table.GetPage` | src/data/table.cc:59-86 | a page is the asked part of the selected rows in their one order, and `more` is exact |
| `Settings.RecomputePerformanceDefaults` | src/config/settings.cc:123-170 | all or nothing: either every budget not set explicitly takes its scaled value or the settings stay as they were, the latter exactly when one would overflow or the scale is invalid |
| `Settings.DefaultBudget` | src/config/settings.cc:129-156 | the amount of each budget without scaling |
| `Settings.NearestWhole` | src/config/settings.cc:132-143 | a scaled budget is the nearest whole number and at least one, and overflows exactly from 2 to the 64 on |
| `Settings.RecomputeSettles` | src/config/settings.cc:123-170 | recomputing twice is recomputing once, and explicit budgets and all other settings are never touched |
| `Settings.CollectEdited` | src/config/settings.cc:178-181 | collects exactly the listed settings that differ |
| `Settings.TakeEdits` | src/config/settings.cc:182-193 | each edited setting takes the draft's value and the rest the latest, and a conflict is noted exactly where both sides moved to different values |
| `Settings.MergeBudget` | src/config/settings.cc:198-208 | a shown budget and its explicit flag are merged as one pair, with the conflict noted on the pair |
| `Settings.DerivedConflicts` | src/config/settings.cc:228-240 | every concurrently changed budget that a recomputation would overwrite is listed |
| `Settings.MergeSettingsChanges` | src/config/settings.cc:172-249 | the merged settings, the conflicts, the changed fields and the failure are exactly those of the three-way rule, recomputation included; an overwriting merge that is accepted lists no conflict |
| `Settings.MergedUnique` | src/config/settings.cc:172-214 | the three-way rule leaves no choice: just one configuration satisfies it |
| `Settings.SingleSettings` | src/config/settings.cc:172-249 | an ordinary setting becomes the draft's value if the draft changed it and else the latest, and is a conflict exactly when both moved to different values |
| `Settings.ShownBudget` | src/config/settings.cc:194-214 | a shown budget keeps the latest amount and flag if it was left alone and takes the draft's otherwise, counting as set by hand exactly when an amount other than the scaled one was typed in |
| `Settings.ScaleTakesHold` | src/config/settings.cc:216-228 | after the scale or a flag was edited every budget not set by hand has the amount that follows from the scale, or the merge has failed |
| `Settings.NoSilentOverwrite` | src/config/settings.cc:172-249 | no concurrent change is overwritten without being listed, and nothing is listed without a reason |
| `Settings.UneditedDraft` | src/config/settings.cc:172-249 | merging a draft nobody edited gives the latest settings with no conflict |
| `Settings.Draft.FollowUnedited` | src/config/settings.cc:271-280 | unedited settings follow the current ones in draft and baseline, edited ones stay in both |
| `Settings.Draft.HasChanges` | src/config/settings.cc:282-288 | true exactly when some listed setting differs from its baseline |
| `Settings.FollowingKeepsEdits` | src/config/settings.cc:271-280 | following leaves the same ordinary settings edited, and merging after it gives each of them what merging before would have |
| `Settings.FollowingPairs` | src/config/settings.cc:198-280 | merging after following gives a shown budget the same pair and the same conflict as merging before, exactly under the condition on what was edited and what moved |
| `Settings.FollowingForgetsClash` | src/config/settings.cc:198-280 | an amount edited while the flag was set elsewhere is a conflict before following and none after |

## Left out

- Text to and from doubles: a parameter (`DoubleText`) with a faithful printer and parser; decimal integers, hexadecimal and tags are modelled and proved.
- Stop tokens and wall-clock budgets: a loop that may stop early takes the number of its turns as a parameter; failing streams and error texts are not part of the model.
- `Psrec.PsrecWriter.Append`: the size of a value in memory is a parameter, since it is a matter of the compiler.
- Answers of the transport and amounts the script worker accepts: parameters, unconstrained except that a report answers an earlier hand-off once.
- `ReceivePipeline.RunOk`: what a callback makes of its bytes is any batch at all; stopping the worker, which makes the whole session end, is left out.
- The script host, the frame parser, transports and SQLite storage are not part of this model; a new script host (src/scripting/host/script_host_core.cc:4654), which starts ids again, lies between runs and not inside one.
- Reentrant flushing of script outputs when the worker is disabled.
- `RecordCsv.ScalarBack`: holds for the doubles' printer and parser as a parameter, as above.
- The mapped CSV reader (src/data/record_csv.cc:208), which imports foreign tables.
- `WaveCsv.EncodeWaveCsv`: the wide table only, with cells as numbers or blanks; the metadata lines and the long table are left out.
- `WaveCsv.StreamWaveCsv`: the streaming branch for files declared as ordered, with the header already read.
- `RawCapture.LiveCapture.AppendLiveRawCapture`: recording to a file, display positions and the metadata of connection and protocol are left out; the second trimming at its end (src/app/application_data.cc:559-577) can never remove anything, since the first has made the payload fit.
- `HistoryRebuild.HistoryView.PumpHistoryRebuild`: the retained-capture scope, up to the stream the parser is fed; the retained-rows scope, legacy captures without events, the parser's frames and the row texts are left out, as are rows that arrive with a display position already set.
- `RxFanout.Receiver.DrainTransportEventQueues`: the time budget is the number of turns; write reports among the events are the scheduler's matter.
- `Oscilloscope.Buffer.Append`: an unordered batch is sorted stably, where the code's sort leaves the order of equal times open; revisions and the summary index are left out.
- Imported samples, the nearest search by value, statistics and spectra of the oscilloscope.
- `LiveTable.Table.Append`: a record's size in memory is a parameter.
- `Settings.MergeSettingsChanges`: the checks of the changed values are a parameter, the conflicts are a set and not a list, and the settings without rules of their own are numbered instead of named.
- Restoring the defaults of a page and the clamping form of recomputation.
- `TransferTask.ImportQueue.Push`: a wait on the condition variable is an outcome and the caller tries again; the critical sections are the atomic steps.
- `ReplayChunks.Batcher.EnqueueRawCaptureBytes`: one chunk size holds for a whole replay.
- Session packages, seeking and playing of replays, the user interface, the Lua host, configuration files and the adaptive controller.
