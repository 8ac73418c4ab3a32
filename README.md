# fatt, readcount and sieve in Dafny

This project models the record-scanning core of the `klab` tool set:

- `fatt` (src/fatt.cc) is a FASTA/FASTQ toolkit. The model covers:
  - its growable line reader, `FileLineBufferWithAutoExpansion`;
  - the FASTA/FASTQ record scanner that `fatt name`, `fatt len` and `fatt count` run;
  - the position index that `fatt index` writes, with its `DeleteOnFailure` guard;
  - the indexed lookups of `fatt extract`, by name and by ordinal, and which records its range mode prints;
  - the small helpers: read names, index file names, `strlen_without_n`, CSV escaping, the QV rebase loop, line folding and the `--start/--end/--num` normalisation.
- `readcount` (readcount.cc) is the older fixed-buffer copy of the same scanner. It reads lines into a 16 MiB buffer and takes only a bare `+` line as the FASTQ separator.
- `sieve` (src/sieve.cc) samples lines at random from its input files.

## Conventions

- A file is a sequence of lines. A line holds its characters without the newline. The byte offset of line k is the sum of (length + 1) over the lines before it (`LineSource.Offset`). `tellg` and `seekg` are modelled on that offset.
- The scanner is specified once, as a left fold `FastxScan.Run(fmt, rule, lines, k)` over a machine with these parts:
  - the phase: header, sequence, or quality with the number of quality characters still owed;
  - the registered read name;
  - the closed records and the record under way;
  - the line numbers of the "bad file format" warnings.
- Every scanning loop (`fatt name/len`, `fatt count`, `fatt index`, `readcount`) is an imperative method over a class that stands for the stream. Each such method is proved to compute that fold.
  - `fatt` uses the name-aware separator test `looksLikeFASTQSeparator` (`SeparatorRule.NameAware`).
  - `readcount` uses the bare `+` test (`SeparatorRule.BarePlus`).
- The SQLite table `seqpos` is a map from name to offset plus the sequence of rows in insertion order. A duplicate name, which breaks the primary key, is an `Err` carrying that name.
- The index file's presence is a set of file names held by a `FileSystem` object. `DeleteOnFailure` is a class whose `Destroy` runs where the C++ destructor would.
- `exit(1)` is an outcome of its own, never a crash. In `create_index` it skips the destructor, so the index file created by `sqdb::Db` stays behind (`PositionIndex.CreateIndex`).
- `size_t` counters are unbounded naturals. `size_t(-1)`, the initial minimum, is `SizeMax`.
- sieve's `int` arithmetic is modelled twice:
  - as written, with 32-bit wrap-around and truncating division (`Sieve.TakeLinesAsWritten`);
  - as evidently intended (`Sieve.TakeLines`), which is the version the rest of the model uses.

## Model

| member | source | states |
|---|---|---|
| Text.ReadNameShape | src/fatt.cc:421-428 | the name is the longest space-free run after the first character of the header; the name of an empty header is empty |
| Text.TokenShape | readcount.cc:11-16 | the printed name is a prefix with no space that stops at a space or at the end of the line |
| Text.TokenUnique | src/fatt.cc:198-211 | any space-free prefix that ends at a space or at the end is the token, so the name is determined uniquely |
| Text.IdMatchesFromSpec | src/fatt.cc:215-218 | the character loop accepts exactly when the line continues with the rest of the registered name |
| Text.SeparatorSpec | src/fatt.cc:212-221 | `looksLikeFASTQSeparator` holds iff the line is `+`, or `+` then exactly the registered name then end of line or a space |
| Text.PlusQualityLineIsNotSeparator | src/fatt.cc:212-221 | a `+` line whose suffix is neither empty nor the name (such as a quality line starting with `+`) is never a separator |
| Text.SeparatorExamples | src/fatt.cc:212-221 | `+`, `+r1` and `+r1 x` are separators for read r1; `+r10` and `+IIII` are not |
| LineSource.LocateFrom | src/fatt.cc:197 | a byte offset is mapped to a line and a column inside that line whose offset sums back to it |
| LineSource.LocateOffset | src/fatt.cc:195-197 | seeking to the offset `tellg` reported before a line lands at the start of that line |
| LineSource.Grown | src/fatt.cc:155-179 | the capacity after the refill loop holds the line (is greater than its length) and never shrinks; it stays the same when the line fits, and otherwise is at most twice the line length |
| LineSource.FileLineBuffer.constructor | src/fatt.cc:135-141 | the buffer starts at 8 KiB, with no line and a line count of 0 |
| LineSource.FileLineBuffer.Open | src/fatt.cc:145-151 | opening succeeds iff the file exists; the line count is reset and the stream starts at offset 0 |
| LineSource.FileLineBuffer.ExpandBufferDouble | src/fatt.cc:123-132 | the new buffer is fresh, has twice the capacity, and keeps the first `bufferOffsetToBeFill` bytes; nothing else changes |
| LineSource.FileLineBuffer.KeepPartAndExpand | src/fatt.cc:157-177 | one failed `istream::getline`: the bytes that fit are kept, the offset advances by `gcount`, and the buffer doubles |
| LineSource.FileLineBuffer.FillUntilFits | src/fatt.cc:157-178 | the refill loop keeps the line read so far and doubles until the rest of the line fits |
| LineSource.FileLineBuffer.FillLine | src/fatt.cc:155-179 | a whole line of any length ends up in the buffer, and the capacity becomes `Grown(old, length)` |
| LineSource.FileLineBuffer.GetLine | src/fatt.cc:155-179 | at the end of the file it fails and sets the failbit; otherwise it delivers the next whole line and the line count rises by one; on line 1, a `@` registers the name, `>` is accepted, and anything else is fatal |
| LineSource.FileLineBuffer.NextLine | src/fatt.cc:155-179 | a later `getline`: it succeeds iff a line remains, and then delivers exactly that line |
| LineSource.FileLineBuffer.Seekg | src/fatt.cc:197 | moves to `Locate(offset)` unless the failbit is set, in which case it does nothing |
| LineSource.FileLineBuffer.RegisterHeaderLine | src/fatt.cc:198-211 | `headerID` becomes `get_read_name_from_header` of the line; an empty line leaves it unchanged |
| FastxScan.LengthsShape | src/fatt.cc:337-338 | position by position, the lengths printed are every closed record's length in file order, then the last record's length only when it is positive |
| FastxScan.FastaStepObservables | src/fatt.cc:326-335 | a `>` line closes the record and adds its name; any other line adds its length to the current read |
| FastxScan.FastqHeaderStep | src/fatt.cc:348-350 | after a quality block, the next line opens one more record headed by that line and registers its name (an empty line keeps the old one); the closed read keeps its length, the totals do not grow, and a line not starting with `@` adds a warning at its line number |
| FastxScan.FastqSequenceStep | src/fatt.cc:341-358 | a separator switches to the quality phase and owes the sequence length; any other line adds to the sequence |
| FastxScan.CloseRecord | src/fatt.cc:349-355 | opening a record closes the previous one, keeping its length and name |
| FastxScan.MinMaxBounds | src/fatt.cc:377-379 | the running minimum and maximum bound every value and are attained; starting values are `SIZE_MAX` and 0 |
| FastxScan.FastaTotal | src/fatt.cc:384-392 | the FASTA nucleotide total is the summed length of every non-header line after the first |
| FastxScan.FastaRecordStarts | src/fatt.cc:562-570 | the FASTA records start at line 0 and at the `>` lines, and each record's header is the line where it starts |
| FastxScan.QualityCountdown | src/fatt.cc:343-347 | the quality loop consumes lines until their summed length reaches the owed count, and changes nothing else |
| FastxScan.HeadsOfRun | src/fatt.cc:555-593 | the record headers are distinct lines in increasing line order, the first at line 0 |
| FastxScan.FastaHeadsExact | src/fatt.cc:562-570 | in FASTA, a line after the first opens a record iff it starts with `>` |
| FastxScan.HeadsPrefix | src/fatt.cc:555-593 | reading more lines only appends records; earlier records never change |
| FastxRender.FastqScanOfRender | src/fatt.cc:339-362 | for any well-formed FASTQ file, the scan recovers every read's name and sequence length, ends in the header phase, and warns nothing |
| FastxRender.FastaScanOfRender | src/fatt.cc:325-338 | for any FASTA file written from reads, the scan recovers every read's header and sequence length |
| FastxRender.HeaderName | src/fatt.cc:421-428 | the read name of a written header is the name it was written with |
| FastxRender.SeparatorRecognised | src/fatt.cc:212-221 | each rule recognises the separators it admits: `+` under both, `+name` under the name-aware rule |
| FastxRender.QualityBlock | src/fatt.cc:343-347 | a quality block whose lines sum to the sequence length, with no proper prefix reaching it, is consumed exactly |
| FattScan.ConsumeQuality | src/fatt.cc:343-347 | the quality loop reaches the state of the fold at the row where it stops |
| FattScan.ReadHeader | src/fatt.cc:348-350 | the header after a quality block opens a new record with the registered name, and warns when the line does not start with `@` |
| FattScan.EndOfRecord | src/fatt.cc:341-350 | the separator branch (quality loop, header check, next header) moves the stream and the fold forward together |
| FattScan.ShowFastaLine | src/fatt.cc:327-334 | a `>` line prints its name, or the length of the read it ends, and restarts the count; any other line adds its length; either way the output stays that of the fold |
| FattScan.ShowFastaLines | src/fatt.cc:326-335 | after the getline loop the machine is the fold over the whole file, and the printed names (or the lengths of the closed reads) are its records' |
| FattScan.ShowFasta | src/fatt.cc:325-338 | the names (or lengths) printed for a FASTA file are those of the fold's records |
| FattScan.ShowFastq | src/fatt.cc:339-362 | the names (or lengths) and warnings printed for a FASTQ file are those of the fold |
| FattScan.ShowReadNamesInFile | src/fatt.cc:315-365 | `show_read_names_in_file` equals `ShowSpec`: cannot open, not FASTA/FASTQ (exit), or the names or lengths with the warnings |
| FattScan.CountFasta | src/fatt.cc:383-392 | a FASTA count gives the record count and the nucleotide total; the minimum and maximum are what the never-advanced per-read counter gives |
| FattScan.CountRecordEnd | src/fatt.cc:395-407 | the separator branch updates min/max with the closed record's sequence length and counts the next record only if a line follows |
| FattScan.CountFastq | src/fatt.cc:393-413 | a FASTQ count gives the records, their sequence total, the min/max over records that reached a separator, and the warnings |
| FattScan.CountNumberOfReadsInFile | src/fatt.cc:367-419 | `count_number_of_reads_in_file` equals `CountSpec` |
| FattScan.FastaMinMaxExample | src/fatt.cc:384-392 | two FASTA reads of 4 and 2 bases are counted with 0 as both the shortest and the longest read |
| FattScan.OneFastaReadExample | src/fatt.cc:384-392 | a single FASTA read of 4 bases is counted with SIZE_MAX as the shortest read and 0 as the longest |
| FattScan.CorrectedFastaMinMaxBounds | src/fatt.cc:384-392 | the corrected FASTA minimum and maximum bound every read length, and are attained |
| FattScan.CorrectedFastaMinMaxExample | src/fatt.cc:384-392 | on the same two reads, the corrected pair is (2, 4) |
| PositionIndex.IndexFileName | src/fatt.cc:67-72 | the index file name is the input name followed by `.index` |
| PositionIndex.IndexFileNameInjective | src/fatt.cc:67-72 | different inputs never share an index file |
| PositionIndex.BuildIndexSnoc | src/fatt.cc:547-558 | each insert extends the table by one row, unless an earlier insert has already failed |
| PositionIndex.NamesMembership | src/fatt.cc:544 | a name is a key of the table iff some row carries it |
| PositionIndex.BuildIndexRows | src/fatt.cc:544-558 | without duplicates, row i is (name, pos, i) in file order, and the name map holds exactly those names with their offsets |
| PositionIndex.BuildIndexOk | src/fatt.cc:544 | the build succeeds iff the names are distinct; a failure names a duplicated name |
| PositionIndex.BuildIndexErrSticks | src/fatt.cc:603-607 | once an insert fails, later inserts cannot undo the failure |
| PositionIndex.FileHeads | src/fatt.cc:555-593 | the records indexed are exactly the fold's records |
| PositionIndex.DeleteOnFailure.constructor | src/fatt.cc:523 | the guard starts armed, holding the index file name |
| PositionIndex.DeleteOnFailure.DoNotDelete | src/fatt.cc:524 | disarms the guard |
| PositionIndex.DeleteOnFailure.Destroy | src/fatt.cc:525-529 | an armed guard removes the file; a disarmed one leaves the files unchanged |
| PositionIndex.IndexFasta | src/fatt.cc:560-570 | the FASTA branch's table equals `FileIndex(Fasta, lines)` |
| PositionIndex.IndexRecordEnd | src/fatt.cc:574-587 | the FASTQ separator branch inserts the next record at the offset taken just before its header |
| PositionIndex.IndexFastq | src/fatt.cc:571-593 | the FASTQ branch's table equals `FileIndex(Fastq, lines)` |
| PositionIndex.IndexFile | src/fatt.cc:548-595 | the body of the `try` equals `CreateIndexSpec`: cannot open, not FASTA/FASTQ, a duplicate name, or the table |
| PositionIndex.CreateIndex | src/fatt.cc:532-608 | an existing index is left alone; otherwise the index file remains iff the table was built or the input was rejected by `exit(1)` |
| PositionIndex.LookupByNameBuilt | src/fatt.cc:911-916 | the lookup by name finds an offset iff the name was inserted, and then finds its offset |
| PositionIndex.LookupByOrdinalBuilt | src/fatt.cc:954-958 | `limit 1 offset start` finds row `start` when it exists, row 0 for a negative start, and nothing past the end |
| PositionIndex.FastqLookupLandsOnHeader | src/fatt.cc:572-587 | in a FASTQ index, both lookups of record i give the offset of record i's header |
| PositionIndex.FastqIndexIsCorrected | src/fatt.cc:582-586 | the FASTQ entries are the header offsets |
| PositionIndex.FastaLookupAsWritten | src/fatt.cc:560-566 | in a FASTA index, every record after the first is stored at the offset of line 1, which is not its header |
| PositionIndex.FastaIndexExample | src/fatt.cc:560-566 | for `>a AC >b GT`, b is stored at offset 3 (the line `AC`); the corrected table stores it at offset 6 |
| PositionIndex.CorrectedLookupLandsOnHeader | src/fatt.cc:554-593 | with offsets taken before each header, both lookups of record i land on record i's header, in FASTA as in FASTQ |
| Extract.Seek | src/fatt.cc:197 | a seek moves the cursor to the offset's line unless the failbit is set |
| Extract.GetLineAt | src/fatt.cc:155-179 | `getline` fails exactly at the end of the file and otherwise advances one line and one count |
| Extract.FastaBodySpan | src/fatt.cc:944-947 | the FASTA body printed is every line up to the next `>` line, which is consumed but not printed |
| Extract.QualitySpan | src/fatt.cc:930-935 | the quality lines printed are the shortest run whose length reaches the sequence length, or everything up to the end |
| Extract.FastqBodySpan | src/fatt.cc:926-942 | the FASTQ body printed is a contiguous run of lines starting after the header |
| Extract.ReadOn | src/fatt.cc:155-179 | one `getline` while copying a body: the next line, or failure with the failbit at the end |
| Extract.CopyFastaBody | src/fatt.cc:944-947 | the FASTA copy loop prints `FastaBody` and leaves the stream past it |
| Extract.CopyQuality | src/fatt.cc:930-935 | the quality copy loop prints `QualityFrom` and leaves the stream past it |
| Extract.CopyRecordTail | src/fatt.cc:927-936 | the separator and quality block are printed as `FastqBody` says |
| Extract.CopyFastqBody | src/fatt.cc:923-942 | the FASTQ copy loop prints `FastqBody` and leaves the stream past it |
| Extract.SeekHeader | src/fatt.cc:917-918 | `seekg` then `getline`: the stream reads the line at the offset unless the failbit was already set |
| Extract.CopyBody | src/fatt.cc:922-948 | the header and body printed are `BodyAfter` |
| Extract.ExtractRecord | src/fatt.cc:916-948 | one name's record is printed as `ExtractAt` says |
| Extract.LookUpName | src/fatt.cc:913-951 | one name of the name loop: not found, missing in the file, or the record |
| Extract.ExtractByNames | src/fatt.cc:910-952 | the name loop, visiting the names in `std::set` order, prints the output and warnings of `ExtractNames` |
| Extract.InSetOrderDistinct | src/fatt.cc:912 | names visited in set order are distinct, so each is looked up once |
| Extract.SetOrderExample | src/fatt.cc:912 | a set holding a and b yields a before b, never b before a |
| Extract.FastaBodyOfRecord | src/fatt.cc:944-947 | after record j's header, the FASTA body loop prints the rest of record j and stops just past the next header, or at the end of the file for the last record |
| Extract.FastaBodyReachesNextRecord | src/fatt.cc:944-947 | from a FASTA header, the body copy prints exactly that record's lines |
| Extract.CorrectedFastaLookUp | src/fatt.cc:913-948 | with the corrected table, a FASTA name prints exactly its own record with no warning |
| Extract.CorrectedNameAbsent | src/fatt.cc:949-951 | a name not in the table gives the "was not found" warning and prints nothing |
| Extract.StickyFailbitExample | src/fatt.cc:912-921 | with the table `create_index` builds, asking for b and c in `>c >b CC` prints b, then reports c, which is in the file, as missing |
| Extract.CorrectedNamesAllPrinted | src/fatt.cc:912-948 | with the stream cleared before each seek, any list of record names prints exactly those records, in order, with no warning |
| Extract.ClearedStreamExample | src/fatt.cc:917-921 | on the same file, table and request, clearing the stream before each `seekg` prints both records |
| Extract.RangeRecordEnd | src/fatt.cc:969-990 | after a quality block, the range loop stops at the end ordinal, stops at the end of the file or at a non-`@` line, or goes on after the next header with the base count back at 0 |
| Extract.RangeFastq | src/fatt.cc:965-996 | the FASTQ range loop's output equals `FastqRange`, which counts each read's bases from 0; on written reads, when every read after `--start` ends its sequence with a bare `+`, that output is the reads in the range (`RangeMode.RenderedFastqRange`) |
| Extract.RangeFasta | src/fatt.cc:997-1005 | the FASTA range loop prints lines until the `>` line whose ordinal reaches the end |
| Extract.ExtractByRange | src/fatt.cc:953-1008 | the range mode equals `ExtractRange`: the start past the table, a failed seek, or the range loop; `RangeMode.CorrectedFastaRange` and `RangeMode.RenderedFastqRange` state which records that prints |
| Extract.ExtractWithIndex | src/fatt.cc:900-1009 | extraction with an index equals `ExtractFromIndex`: name mode, over the names in set order, without `--start`; range mode with it |
| RangeMode.FastaRangeRecords | src/fatt.cc:997-1004 | from the line after record j's header, the FASTA range loop prints up to the first line of record `StopOrdinal(j, --end)`, or to the end of the file, and stops normally |
| RangeMode.CorrectedFastaRange | src/fatt.cc:953-1005 | with the corrected table, `--start s` prints the lines of records s up to, not including, the record at `--end` (at least s + 1), or to the end of the file; with no `--end`, exactly record s |
| RangeMode.FastqRangeRecords | src/fatt.cc:965-996 | from read i's sequence on, the FASTQ range loop prints the reads up to the stop ordinal or the end of the file, as they were written, and says which of the two it reached, when every read after read i ends its sequence with a bare `+` |
| RangeMode.RenderedFastqRange | src/fatt.cc:953-996 | on a written FASTQ file with distinct names, when every read after read s ends its sequence with a bare `+`, `--start s` prints exactly the written reads s up to, not including, the stop ordinal; it stops normally inside the file and with the end-of-file warning past it |
| RangeMode.ThreeReadsExample | src/fatt.cc:967-990 | three two-base reads from read a with `--end 3`: each quality loop owes only its own read's bases, because the count is reset after every header, so all three reads are printed and the loop stops normally |
| FattHelpers.WithoutGaps | src/fatt.cc:53-58 | the result is no longer than the input and holds only non-`N`/`n` characters of the input |
| FattHelpers.WithoutGapsLength | src/fatt.cc:53-58 | its length is the input length minus the `N` and `n` characters |
| FattHelpers.StrlenWithoutN | src/fatt.cc:53-58 | the loop counts exactly the characters that are not `N` or `n` |
| FattHelpers.UnescapeEscaped | src/fatt.cc:44-51 | undoubling the quotes recovers the original field |
| FattHelpers.EscapedLength | src/fatt.cc:44-51 | escaping adds one character per `"` |
| FattHelpers.CsvEscape | src/fatt.cc:44-51 | the loop writes `Escaped(p)` |
| FattHelpers.FirstInvalid | src/fatt.cc:1201-1206 | None iff every QV is in range; otherwise the first out-of-range position |
| FattHelpers.RebaseAll | src/fatt.cc:1207-1209 | each character is rebased on its own, and the length is kept |
| FattHelpers.RebasedInRange | src/fatt.cc:1207-1209 | the output QV is clamped into the output range, and is unchanged when already inside it |
| FattHelpers.RebaseBack | src/fatt.cc:1202-1209 | with no clamping, rebasing back with the bases and ranges swapped restores the character |
| FattHelpers.RebaseQualityLine | src/fatt.cc:1201-1210 | the in-place loop reports the first invalid QV; every byte before it is rebased and every byte from it on is untouched |
| FattHelpers.FoldedUnfolds | src/fatt.cc:1411-1422 | removing the inserted newlines from the folded output gives back the line |
| FattHelpers.FoldedNewlines | src/fatt.cc:1411-1422 | the number of newlines is the number of full output lines completed |
| FattHelpers.FoldLine | src/fatt.cc:1411-1422 | with a positive `--len`, the chunking loop prints `Folded(x, width, col)`, and the new column is what remains after the last full line; with a negative one, both `size_t` comparisons fail, so the line is copied unbroken and the column grows by its length |
| FattHelpers.NormaliseRange | src/fatt.cc:856-867 | `--end` with `--num` is an error; `--num` gives the range [start, start+num), with start 0 by default; otherwise start and end pass through |
| ReadCount.FirstLong | readcount.cc:9 | the first line that does not fit the 16 MiB buffer, or the end of the file |
| ReadCount.StopWarning | readcount.cc:49-51 | at most one warning, and only when the scan stops at a long line outside a read's sequence |
| ReadCount.LineStream.constructor | readcount.cc:20-25 | the stream starts at line 0 with no error flags |
| ReadCount.LineStream.GetLine | readcount.cc:27 | `getline(b, BUFFER_SIZE)` succeeds iff the stream is good and the next line fits; it fails with the failbit at a long line, and also sets eofbit at the end of the file |
| ReadCount.LineStream.IsBarePlus | readcount.cc:41 | the separator test holds exactly when the buffered line is the single character `+` |
| ReadCount.LineStream.Peek | readcount.cc:49 | `peek` gives the next line's first character or newline; at the end it sets eofbit; on a failed stream it gives EOF |
| ReadCount.ConsumeQuality | readcount.cc:42-48 | the quality loop reaches the fold's state at the row where it stops |
| ReadCount.RecordEnd | readcount.cc:49-55 | the peek warning, then the next header: the fold advances, or the scan stops at the first long line |
| ReadCount.ShowFasta | readcount.cc:30-35 | FASTA names are the records' names, up to the first long line |
| ReadCount.ShowFastq | readcount.cc:36-60 | FASTQ names and warnings are those of the bare-`+` fold, up to the first long line |
| ReadCount.ShowReadNamesInFile | readcount.cc:18-64 | `show_read_names_in_file` equals `ShowSpec`; any first line not starting with `@` is scanned as FASTA |
| ReadCount.CountFasta | readcount.cc:85-96 | FASTA counts are the records and the total of non-header lengths; the minimum and maximum are the same as fatt's |
| ReadCount.CountRecordEnd | readcount.cc:109-117 | updates min/max with the closed read's length; the next read is counted only if a line follows |
| ReadCount.CountFastq | readcount.cc:97-123 | FASTQ counts are those of the bare-`+` fold, up to the first long line |
| ReadCount.CountNumberOfReadsInFile | readcount.cc:66-130 | `count_number_of_reads_in_file` equals `CountSpec` |
| ReadCount.ScanStopsAtLongLine | readcount.cc:27-48 | a line that does not fit ends the scan: the counts and names are those of the lines before it, plus at most one warning |
| ReadCount.RulesAgree | readcount.cc:41 | with no `+name` lines, the bare-`+` rule and the name-aware rule give the same fold |
| ReadCount.AgreesWithFatt | readcount.cc:66-130 | on files with short lines and no `+name` separator, readcount and fatt give the same counts and names |
| ReadCount.FastaBases | readcount.cc:94 | the FASTA nucleotide total is the summed length of the non-header lines before the first long line |
| ReadCount.NamedSeparatorReadcount | readcount.cc:101 | for `@r1 ACGT +r1 IIII`, readcount takes `+r1` as sequence: 11 bases, no closed read |
| ReadCount.NamedSeparatorFatt | src/fatt.cc:395 | for the same record, fatt sees the separator: 4 bases, minimum and maximum 4 |
| Sieve.CheckOptions | src/sieve.cc:100-117 | accepted iff the percentage is in [0, 100], at least one file is given, and `-p` and `-c` are not both given |
| Sieve.TakeLines | src/sieve.cc:36-38 | half the lines by default; floor(lines * percent / 100) with `-p`; min(count, lines) with `-c` |
| Sieve.Wrap32 | src/sieve.cc:37 | the result is the 32-bit `int` congruent to the input |
| Sieve.DivTrunc | src/sieve.cc:37 | C division truncates toward zero: q times the divisor lies between 0 and the dividend, less than one divisor away from it |
| Sieve.PercentOverflowExample | src/sieve.cc:37 | 30,000,000 lines at 80% give a negative count as written, instead of 24,000,000 |
| Sieve.TakeLinesAsWrittenAgrees | src/sieve.cc:37 | while lines * percent fits an `int`, the source agrees with the intended count |
| Sieve.Below | src/sieve.cc:44-45 | the set holds exactly 0 to t-1 |
| Sieve.BelowSize | src/sieve.cc:44-45 | it has max(t, 0) members |
| Sieve.InitialSet | src/sieve.cc:44-45 | the insert loop builds `Below(take_lines)` |
| Sieve.Shuffle | src/sieve.cc:47-53 | the swap loop computes `Shuffled` of the initial set and the draws |
| Sieve.ShuffledSize | src/sieve.cc:47-53 | the shuffle keeps the set's size |
| Sieve.ShuffledInRange | src/sieve.cc:45-53 | with every draw in [0, lines), every member stays in [0, lines) |
| Sieve.SelectedCount | src/sieve.cc:67-71 | the number of lines printed is the number of chosen indices below the line count |
| Sieve.SelectedEverything | src/sieve.cc:67-71 | choosing every index prints the whole input |
| Sieve.Output | src/sieve.cc:57-71 | the output pass prints, in order across files, exactly the lines whose global index is chosen |
| Sieve.Opened | src/sieve.cc:26-30 | all files open, or the first one that does not |
| Sieve.LinesAll | src/sieve.cc:22-35 | the line count is the length of the concatenated files |
| Sieve.CountLines | src/sieve.cc:19-35 | the counting pass gives the contents and the total number of lines, or the first file that cannot be opened |
| Sieve.DoSieve | src/sieve.cc:17-76 | `do_sieve` equals `SieveSpec` |
| Sieve.SieveTakes | src/sieve.cc:36-71 | with every draw in range, exactly `take_lines` lines are printed (none when that is negative) |

## Left out

- Console output: the text on `cout` and `cerr` is left out. Only what is printed is modelled: names, lengths, counts, warning line numbers, extracted lines and sampled lines.
- The average read length, a `double` division, is left out, both in fatt's `count_number_of_reads_in_file` (src/fatt.cc:416) and in readcount.
- Memory: the 256 MiB `CoutBuffering`, the 16 MiB `ifstream` buffer (`pubsetbuf`), `close`, `new` and `delete` are left out.
- `isFASTAMode` and `isFASTQMode` are left out. Nothing reads them, and every caller re-tests the first character.
- `expectHeaderOfEOF` is modelled only as the warning's line number. The model assumes that every line ends with a newline and holds no NUL byte, so `strlen` is the line length.
- ReadCount.LineStream.GetLine: when a line is too long, it does not model the partial line that `istream::getline` leaves in the buffer. The scan stops there, and nothing reads the buffer again.
- The `sqdb` library is a map plus a row sequence. `MakeItFasterAndDangerous`, the two `create index` statements, `begin`/`end`, and the `sqdb::Exception` catch are left out. The only failure modelled is a duplicate name.
- `doesIndexExist` and `unlink` are modelled on the `FileSystem` set. `access` permissions are left out.
- Command-line parsing (`getopt_long`), usage and help text, and `do_*` dispatch are left out. `fatt extract`'s name list and range are parameters of `ExtractWithIndex`.
- `fatt extract` without an index, `--reverse`/`--unique`, and reading names from stdin are left out. `is_file_fastq` is modelled as a test of the first line.
- `print_n50`, `fatt stat`, `investigate_composition`, `to_csv` and `fastq_to_fasta` are left out. So are `clean_fastx` with its `rand()` branch, `do_check_same_names` and `do_guess_qv_type`. They are floating point, k-mer tables or output formats outside the scanner.
- FattHelpers.FoldLine requires a width other than 0. With width 0 the chunk size is 0 on every pass and the source loop never advances. A negative width is modelled. For it, the model does not wrap the `size_t` column counter, and it requires the column plus the line length to stay below 2^63.
- FattHelpers.RebaseQualityLine models one quality line. The surrounding FASTQ loop in `do_convert_qv_type` is the same scanner as `fatt count` and is not repeated.
- sieve's `srand48(time(NULL))` and `drand48()` are left out. The draws `(int)(drand48() * lines)` are a parameter, used one at a time, once for each line index still in the chosen set when the loop reaches it.
- sieve's line counter `lines` and output `cursor` are `int` in the source. The model does not wrap them past 2^31 - 1 lines. Only the `lines * param_percent` overflow is modelled.
- sieve reads every file twice. The model gives both passes the same contents, and does not model a file that opens in the first pass and fails in the second.
- sieve's `--debug` messages are left out.
- RangeMode.RenderedFastqRange and RangeMode.FastqRangeRecords require every read after the first one printed to end its sequence with a bare `+`. The range mode registers only the first record's name (src/fatt.cc:966), so a later separator that repeats its own name (`+r2`) is not recognised and the body runs on. `Extract.FastqRange` models this as written, and no corrected version is given.

## Findings

| source | as written | input that shows it | evidently intended | confidence | as-written member | corrected member |
|---|---|---|---|---|---|---|
| src/fatt.cc:560-566 | in the FASTA branch of `create_index`, `last_pos` is set once before the loop and never refreshed, so every record after the first is indexed at the offset of line 1 | `>a`, `AC`, `>b`, `GT`: b is stored at offset 3, the line `AC` | each record is indexed at the offset of its own header, as the FASTQ branch does | not executed | PositionIndex.FastaIndexExample | PositionIndex.CorrectedLookupLandsOnHeader |
| src/fatt.cc:384-392 | the FASTA branch of `count_number_of_reads_in_file` never adds to `number_of_nucleotides_in_read`, so every read counts as length 0; readcount.cc:87-96 has the same bug | `>a`, `ACGT`, `>b`, `GG`: minimum and maximum are both 0 | the shortest and longest read lengths | not executed | FattScan.FastaMinMaxExample | FattScan.CorrectedFastaMinMaxBounds |
| src/fatt.cc:384-392 | the same branch runs `UPDATE_MIN_AND_MAX` only at a `>` line, so the last read never enters the minimum or maximum; readcount.cc:87-96 does the same | `>a`, `ACGT` alone: the minimum stays SIZE_MAX and the maximum 0 | every read takes part, the last one through a final update after the loop, as `CorrectedFastaMinMax` does | not executed | FattScan.OneFastaReadExample | FattScan.CorrectedFastaMinMaxBounds |
| src/fatt.cc:912-921 | in name mode the FASTA body loop ends at the end of the file with the failbit set, and `seekg` does not clear it, so every later name is reported missing | `>c`, `>b`, `CC` with names b and c: the table holds c at 0 and b at 3, b is printed and c is reported missing | every requested name that is in the index is printed | not executed | Extract.StickyFailbitExample | Extract.CorrectedNamesAllPrinted |
| src/sieve.cc:37 | `lines * param_percent` is computed in 32-bit `int` and wraps | 30,000,000 lines with `-p 80`: the count is -18,949,672, so nothing is printed | floor(lines * percent / 100) | not executed | Sieve.PercentOverflowExample | Sieve.TakeLines |
