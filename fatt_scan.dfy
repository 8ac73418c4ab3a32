/**
 * The two scanning subcommands of src/fatt.cc built on the line buffer:
 * show_read_names_in_file (`fatt name`, `fatt len`) and
 * count_number_of_reads_in_file (`fatt count`). Each is proved to report
 * what the scan fold says about the file.
 */
module FattScan {
  import opened Wrappers
  import opened Text
  import opened LineSource
  import opened FastxScan

  /** The format the first line decides: '@' FASTQ, '>' FASTA, anything else neither. */
  function FirstLineFormat(x: Line): Option<Format>
  {
    if IsFastqHeader(x) then Some(Fastq) else if IsFastaHeader(x) then Some(Fasta) else None
  }

  datatype ShowOutcome =
    | ShowCannotOpen
    | ShowNotFastx   // exit(1) from getline
    | Shown(names: seq<seq<char>>, lengths: seq<nat>, warnings: seq<nat>)

  /** What show_read_names_in_file prints: the read names, or the read lengths, and the format warnings. */
  function ShowSpec(file: Option<seq<Line>>, showName: bool): ShowOutcome
  {
    if file.None? then ShowCannotOpen
    else if |file.value| == 0 then Shown([], [], [])
    else match FirstLineFormat(file.value[0])
      case None => ShowNotFastx
      case Some(fmt) => ShowRun(fmt, showName, file.value)
  }

  /** What the name loop of one format prints for a file of at least one line. */
  function ShowRun(fmt: Format, showName: bool, lines: seq<Line>): ShowOutcome
    requires |lines| >= 1
  {
    var m := Run(fmt, NameAware, lines, |lines|);
    var warnings := if fmt == Fastq then m.warnings else [];
    if showName then Shown(Names(Records(m)), [], warnings)
    else Shown([], Lengths(Records(m)), warnings)
  }

  datatype CountOutcome =
    | CountCannotOpen
    | CountNotFastx
    | Counted(sequences: nat, nucleotides: nat, minLen: nat, maxLen: nat, warnings: seq<nat>)

  /**
   * What count_number_of_reads_in_file reports. In FASTQ mode the minimum
   * and maximum run over the records whose separator was reached. In FASTA
   * mode the per-read counter is never increased, so every update is with 0.
   */
  function CountSpec(file: Option<seq<Line>>): CountOutcome
  {
    if file.None? then CountCannotOpen
    else if |file.value| == 0 then Counted(0, 0, SizeMax, 0, [])
    else match FirstLineFormat(file.value[0])
      case None => CountNotFastx
      case Some(fmt) =>
        var m := Run(fmt, NameAware, file.value, |file.value|);
        var recs := Records(m);
        if fmt == Fastq then
          Counted(|recs|, TotalLen(recs), MinFrom(SizeMax, SepLens(recs)), MaxFrom(0, SepLens(recs)), m.warnings)
        else
          Counted(|recs|, TotalLen(recs), FastaMinLen(|recs|), 0, [])
  }

  /** The FASTA minimum as written: SIZE_MAX until the first update, which is always with 0. */
  function FastaMinLen(sequences: nat): nat
  {
    if sequences >= 2 then 0 else SizeMax
  }

  /** The shape every loop below keeps: one buffer, positioned at the start of a line, lines counted from 1. */
  ghost predicate AtLineStart(f: FileLineBuffer, lines: seq<Line>)
    reads f
  {
    f.Valid() && f.input == lines && 1 <= f.row <= |lines| && f.col == 0 && f.lineCount == f.row
  }

  /**
   * The quality loop every FASTQ scan repeats: getline, subtract its length
   * from the countdown, stop once it is at most 0 or the file has ended.
   */
  method ConsumeQuality(f: FileLineBuffer, n0: int, ghost lines: seq<Line>, ghost m0: Machine) returns (ghost m: Machine)
    requires AtLineStart(f, lines)
    requires m0 == Run(Fastq, NameAware, lines, f.row) && m0.phase == Quality(n0)
    modifies f, f.b
    ensures AtLineStart(f, lines) && old(f.row) <= f.row
    ensures f.b == old(f.b) || fresh(f.b)
    ensures f.headerID == old(f.headerID)
    ensures m == Run(Fastq, NameAware, lines, f.row)
    ensures m.phase == Header || (f.row == |lines| && m.phase.Quality?)
    ensures m.id == m0.id && m.done == m0.done && m.cur == m0.cur && m.warnings == m0.warnings
  {
    m := m0;
    var n := n0;
    while true
      invariant AtLineStart(f, lines) && old(f.row) <= f.row
      invariant f.b == old(f.b) || fresh(f.b)
      invariant f.headerID == old(f.headerID)
      invariant m == Run(Fastq, NameAware, lines, f.row) && m.phase == Quality(n)
      invariant m.id == m0.id && m.done == m0.done && m.cur == m0.cur && m.warnings == m0.warnings
      decreases |lines| - f.row
    {
      ghost var k := f.row;
      var got := f.NextLine();
      if !got {
        return;
      }
      RunQuality(NameAware, lines, k, n);
      m := m.(phase := if n - f.Len() <= 0 then Header else Quality(n - f.Len()));
      n := n - f.Len();
      if n <= 0 {
        return;
      }
    }
  }

  /** The getline after a quality block and registerHeaderLine on the line it reads. */
  method ReadHeader(f: FileLineBuffer, ghost lines: seq<Line>, ghost m1: Machine) returns (got: bool, ghost m: Machine)
    requires AtLineStart(f, lines)
    requires m1 == Run(Fastq, NameAware, lines, f.row) && f.headerID == m1.id
    requires m1.phase == Header || f.row == |lines|
    modifies f, f.b
    ensures AtLineStart(f, lines) && old(f.row) <= f.row
    ensures f.b == old(f.b) || fresh(f.b)
    ensures m == Run(Fastq, NameAware, lines, f.row) && f.headerID == m.id
    ensures got <==> old(f.row) < |lines|
    ensures !got ==> f.row == |lines| && m == m1
    ensures got ==> f.row == old(f.row) + 1 && f.Line() == lines[old(f.row)] && m1.phase == Header
  {
    m := m1;
    got := f.NextLine();
    if got {
      ghost var k := f.row - 1;
      RunHeader(NameAware, lines, k);
      f.RegisterHeaderLine();
      m := Run(Fastq, NameAware, lines, k + 1);
      assert f.headerID == Register(m1.id, lines[k]);
    }
  }

  /**
   * What every FASTQ loop does once it meets a separator: the quality
   * block, expectHeaderOfEOF, the offset of the next line (create_index
   * records it), one more getline and registerHeaderLine on it. The new
   * machine is the header step: the open record closed, a new one opened at
   * the header just read.
   */
  method EndOfRecord(f: FileLineBuffer, n: int, ghost lines: seq<Line>, ghost m0: Machine)
      returns (got: bool, warning: seq<nat>, pos: int, ghost m: Machine)
    requires AtLineStart(f, lines)
    requires m0 == Run(Fastq, NameAware, lines, f.row) && m0.phase == Quality(n) && f.headerID == m0.id
    modifies f, f.b
    ensures AtLineStart(f, lines) && old(f.row) <= f.row
    ensures f.b == old(f.b) || fresh(f.b)
    ensures m == Run(Fastq, NameAware, lines, f.row) && f.headerID == m.id
    ensures !got ==> f.row == |lines| && warning == [] && m.done == m0.done && m.cur == m0.cur && m.warnings == m0.warnings
    ensures got ==> pos == Offset(lines, f.row - 1) && warning == (if IsFastqHeader(f.Line()) then [] else [f.row - 1])
    ensures got ==> && m.phase == Sequence && m.id == Register(m0.id, f.Line()) && m.done == Records(m0)
                    && m.cur == Record(f.row - 1, f.Line(), 0, false) && m.warnings == m0.warnings + warning
  {
    ghost var m1 := ConsumeQuality(f, n, lines, m0);
    var warned := f.NotFollowedByHeaderOrEof();
    assert warned <==> f.row < |lines| && !IsFastqHeader(lines[f.row]);
    pos := f.Tellg();
    got, m := ReadHeader(f, lines, m1);
    warning := if got && warned then [f.lineCount - 1] else [];
    if got {
      HeaderStep(NameAware, lines, f.row - 1, m1, m);
      assert Records(m1) == Records(m0);
    }
  }

  /** What show_read_names_in_file has printed once the lines that led to m have been read. */
  ghost predicate Shows(showName: bool, m: Machine, names: seq<seq<char>>, lengths: seq<nat>)
  {
    && names == (if showName then Names(Records(m)) else [])
    && lengths == (if showName then [] else SeqLens(m.done))
  }

  /** The first line opens the first record: its name, when it has one, is the first name printed. */
  lemma ShowsStart(showName: bool, lines: seq<Line>, names: seq<seq<char>>)
    requires |lines| >= 1 && names == (if showName && |lines[0]| > 0 then [ReadName(lines[0])] else [])
    ensures Run(Fasta, NameAware, lines, 1).cur.seqLen == 0
    ensures Shows(showName, Run(Fasta, NameAware, lines, 1), names, [])
  {
    ObservablesSnoc([], Start(lines[0]).cur);
  }

  /** At the end of the file the open record's length, when positive, completes the printed lengths. */
  lemma ShowsAtEnd(showName: bool, m: Machine, names: seq<seq<char>>, lengths: seq<nat>)
    requires Shows(showName, m, names, lengths)
    ensures showName ==> Shown(names, lengths, []) == Shown(Names(Records(m)), [], [])
    ensures !showName ==> Shown(names, lengths + (if m.cur.seqLen > 0 then [m.cur.seqLen] else []), [])
                          == Shown([], Lengths(Records(m)), [])
  {
    LengthsOf(m);
  }

  /** A FASTA header prints its name, or the length of the read it ends; any other line prints nothing. */
  lemma ShowsFastaLine(showName: bool, m: Machine, x: Line, k: nat, names: seq<seq<char>>, lengths: seq<nat>)
    requires Shows(showName, m, names, lengths)
    ensures IsFastaHeader(x) && showName ==> Shows(showName, FastaStep(m, x, k), names + [ReadName(x)], lengths)
    ensures IsFastaHeader(x) && !showName ==> Shows(showName, FastaStep(m, x, k), names, lengths + [m.cur.seqLen])
    ensures !IsFastaHeader(x) ==> Shows(showName, FastaStep(m, x, k), names, lengths)
  {
    FastaStepObservables(m, x, k);
  }

  /** A FASTQ sequence or separator line prints nothing. */
  lemma ShowsFastqSequenceLine(rule: SeparatorRule, showName: bool, m: Machine, x: Line, k: nat, names: seq<seq<char>>, lengths: seq<nat>)
    requires m.phase == Sequence && Shows(showName, m, names, lengths)
    ensures Shows(showName, FastqStep(rule, m, x, k), names, lengths)
  {
    FastqSequenceStep(rule, m, x, k);
  }

  /** The header after a quality block prints its name, or the length of the read just ended. */
  lemma ShowsNextRecord(showName: bool, m0: Machine, m: Machine, names: seq<seq<char>>, lengths: seq<nat>)
    requires Shows(showName, m0, names, lengths) && m.done == Records(m0)
    ensures showName ==> Shows(showName, m, names + (if |m.cur.header| == 0 then [] else [ReadName(m.cur.header)]), lengths)
    ensures !showName ==> Shows(showName, m, names, lengths + [m0.cur.seqLen])
  {
    CloseRecord(m0, m.(cur := m.cur.(seqLen := 0)));
  }

  /** What one FASTA line adds to the printed names or lengths and to the running read length. */
  method ShowFastaLine(showName: bool, x: Line, ghost k: nat, ghost m: Machine, names: seq<seq<char>>, lengths: seq<nat>, nread: nat)
      returns (names': seq<seq<char>>, lengths': seq<nat>, nread': nat)
    requires Shows(showName, m, names, lengths) && nread == m.cur.seqLen
    ensures Shows(showName, FastaStep(m, x, k), names', lengths') && nread' == FastaStep(m, x, k).cur.seqLen
  {
    ShowsFastaLine(showName, m, x, k, names, lengths);
    names', lengths' := names, lengths;
    if IsFastaHeader(x) {
      if showName {
        names' := names + [ReadName(x)];
      } else {
        lengths' := lengths + [nread];
      }
      nread' := 0;
    } else {
      nread' := nread + |x|;
    }
  }

  method ShowFasta(f: FileLineBuffer, showName: bool, ghost lines: seq<Line>) returns (names: seq<seq<char>>, lengths: seq<nat>)
    requires AtLineStart(f, lines) && f.row == 1 && f.Line() == lines[0]
    modifies f, f.b
    ensures Shown(names, lengths, []) == ShowRun(Fasta, showName, lines)
  {
    var x0 := f.Line();
    names := if showName && |x0| > 0 then [ReadName(x0)] else [];
    lengths := [];
    ShowsStart(showName, lines, names);
    ghost var m;
    var nread: nat;
    m, names, lengths, nread := ShowFastaLines(f, showName, lines, Run(Fasta, NameAware, lines, 1), names, lengths);
    ShowsAtEnd(showName, m, names, lengths);
    if !showName && 0 < nread {
      lengths := lengths + [nread];
    }
  }

  /** The getline loop of show_read_names_in_file over a FASTA file: every line after the first goes through ShowFastaLine. */
  method ShowFastaLines(f: FileLineBuffer, showName: bool, ghost lines: seq<Line>, ghost m0: Machine, names0: seq<seq<char>>, lengths0: seq<nat>)
      returns (ghost m: Machine, names: seq<seq<char>>, lengths: seq<nat>, nread: nat)
    requires AtLineStart(f, lines) && f.row == 1
    requires m0 == Run(Fasta, NameAware, lines, 1) && m0.cur.seqLen == 0 && Shows(showName, m0, names0, lengths0)
    modifies f, f.b
    ensures m == Run(Fasta, NameAware, lines, |lines|) && nread == m.cur.seqLen
    ensures Shows(showName, m, names, lengths)
  {
    m, names, lengths, nread := m0, names0, lengths0, 0;
    while true
      invariant AtLineStart(f, lines)
      invariant f.b == old(f.b) || fresh(f.b)
      invariant m == Run(Fasta, NameAware, lines, f.row) && nread == m.cur.seqLen
      invariant Shows(showName, m, names, lengths)
      decreases |lines| - f.row
    {
      ghost var k := f.row;
      var got := f.NextLine();
      if !got {
        break;
      }
      var x := f.Line();
      RunNext(Fasta, NameAware, lines, k);
      names, lengths, nread := ShowFastaLine(showName, x, k, m, names, lengths, nread);
      m := FastaStep(m, x, k);
    }
  }

  method ShowFastq(f: FileLineBuffer, showName: bool, ghost lines: seq<Line>)
      returns (names: seq<seq<char>>, lengths: seq<nat>, warnings: seq<nat>)
    requires AtLineStart(f, lines) && f.row == 1 && f.Line() == lines[0]
    requires IsFastqHeader(lines[0]) && f.headerID == ReadName(lines[0])
    modifies f, f.b
    ensures var m := Run(Fastq, NameAware, lines, |lines|);
      && names == (if showName then Names(Records(m)) else [])
      && lengths == (if showName then [] else Lengths(Records(m)))
      && warnings == m.warnings
    ensures Shown(names, lengths, warnings) == ShowRun(Fastq, showName, lines)
  {
    ghost var m := Start(lines[0]);
    ObservablesSnoc([], m.cur);
    var x0 := f.Line();
    names := if showName && |x0| > 0 then [ReadName(x0)] else [];
    lengths := [];
    warnings := [];
    var nread: nat := 0;
    while true
      invariant AtLineStart(f, lines)
      invariant f.b == old(f.b) || fresh(f.b)
      invariant m == Run(Fastq, NameAware, lines, f.row) && m.phase == Sequence
      invariant f.headerID == m.id && nread == m.cur.seqLen
      invariant Shows(showName, m, names, lengths)
      invariant warnings == m.warnings
      decreases |lines| - f.row
    {
      ghost var k := f.row;
      var got := f.NextLine();
      if !got {
        break;
      }
      var x := f.Line();
      RunNext(Fastq, NameAware, lines, k);
      FastqSequenceStep(NameAware, m, x, k);
      ShowsFastqSequenceLine(NameAware, showName, m, x, k, names, lengths);
      m := FastqStep(NameAware, m, x, k);
      if f.LooksLikeFastqSeparator() {
        ghost var m0 := m;
        assert Shows(showName, m0, names, lengths);
        var warning, pos;
        got, warning, pos, m := EndOfRecord(f, nread, lines, m0);
        if !got {
          break;
        }
        var h := f.Line();
        assert m.done == Records(m0);
        ShowsNextRecord(showName, m0, m, names, lengths);
        warnings := warnings + warning;
        if showName {
          names := names + (if |h| == 0 then [] else [ReadName(h)]);
        } else {
          lengths := lengths + [nread];
        }
        nread := 0;
      } else {
        nread := nread + f.Len();
      }
    }
    LengthsOf(m);
    if !showName && 0 < nread {
      lengths := lengths + [nread];
    }
  }

  /** show_read_names_in_file: `showName` prints the names, otherwise the lengths. */
  method ShowReadNamesInFile(file: Option<seq<Line>>, showName: bool) returns (out: ShowOutcome)
    ensures out == ShowSpec(file, showName)
  {
    var f := new FileLineBuffer();
    var ok := f.Open(file);
    if !ok {
      return ShowCannotOpen;
    }
    ghost var lines := f.input;
    var g := f.GetLine();
    if g == AtEof {
      return Shown([], [], []);
    }
    if g == NotFastx {
      return ShowNotFastx;
    }
    if !f.LooksLikeFastqHeader() {
      var names, lengths := ShowFasta(f, showName, lines);
      out := Shown(names, lengths, []);
    } else {
      var names, lengths, warnings := ShowFastq(f, showName, lines);
      out := Shown(names, lengths, warnings);
    }
  }

  /**
   * The FASTA counting loop. The per-read counter is declared but never
   * increased, so every UPDATE_MIN_AND_MAX is with 0.
   */
  method CountFasta(f: FileLineBuffer, ghost lines: seq<Line>)
      returns (sequences: nat, nucleotides: nat, minLen: nat, maxLen: nat)
    requires AtLineStart(f, lines) && f.row == 1
    modifies f, f.b
    ensures var recs := Records(Run(Fasta, NameAware, lines, |lines|));
      && sequences == |recs| && nucleotides == TotalLen(recs)
      && minLen == FastaMinLen(|recs|) && maxLen == 0
  {
    ghost var m := Start(lines[0]);
    ObservablesSnoc([], m.cur);
    sequences := 1;
    nucleotides := 0;
    minLen := SizeMax;
    maxLen := 0;
    var nread: nat := 0;
    while true
      invariant AtLineStart(f, lines)
      invariant f.b == old(f.b) || fresh(f.b)
      invariant m == Run(Fasta, NameAware, lines, f.row) && nread == 0
      invariant sequences == |Records(m)| && nucleotides == TotalLen(Records(m))
      invariant minLen == FastaMinLen(sequences) && maxLen == 0
      decreases |lines| - f.row
    {
      ghost var k := f.row;
      var got := f.NextLine();
      if !got {
        break;
      }
      var x := f.Line();
      RunNext(Fasta, NameAware, lines, k);
      FastaStepObservables(m, x, k);
      m := FastaStep(m, x, k);
      if f.LooksLikeFastaHeader() {
        sequences := sequences + 1;
        minLen := Min(minLen, nread);
        maxLen := Max(maxLen, nread);
        nread := 0;
      } else {
        nucleotides := nucleotides + f.Len();
      }
    }
  }

  /** What the FASTQ counters hold once the lines that led to m have been read. */
  ghost predicate FastqCounts(m: Machine, sequences: nat, nucleotides: nat, minLen: nat, maxLen: nat)
  {
    && sequences == |Records(m)| && nucleotides == TotalLen(Records(m))
    && minLen == MinFrom(SizeMax, SepLens(m.done)) && maxLen == MaxFrom(0, SepLens(m.done))
  }

  /** A sequence line adds its length to the nucleotide count; a separator line changes no counter. */
  lemma FastqCountsSequenceLine(rule: SeparatorRule, m: Machine, x: Line, k: nat, sequences: nat, nucleotides: nat, minLen: nat, maxLen: nat)
    requires m.phase == Sequence && FastqCounts(m, sequences, nucleotides, minLen, maxLen)
    ensures IsSeparator(rule, x, m.id) ==> FastqCounts(FastqStep(rule, m, x, k), sequences, nucleotides, minLen, maxLen)
    ensures !IsSeparator(rule, x, m.id) ==> FastqCounts(FastqStep(rule, m, x, k), sequences, nucleotides + |x|, minLen, maxLen)
  {
    FastqSequenceStep(rule, m, x, k);
  }

  /** The header after a quality block: one more sequence, and the minimum and maximum now include the read just ended. */
  lemma FastqCountsNextRecord(m0: Machine, m: Machine, sequences: nat, nucleotides: nat, minLen: nat, maxLen: nat, newMin: nat, newMax: nat)
    requires FastqCounts(m0, sequences, nucleotides, minLen, maxLen) && m0.cur.sep
    requires newMin == MinFrom(SizeMax, SepLens(Records(m0))) && newMax == MaxFrom(0, SepLens(Records(m0)))
    requires m.done == Records(m0) && m.cur.seqLen == 0
    ensures FastqCounts(m, sequences + 1, nucleotides, newMin, newMax)
  {
    CloseRecord(m0, m);
    OpenSepLens(m0);
  }

  /**
   * The separator branch of the FASTQ counting loop: the quality block,
   * UPDATE_MIN_AND_MAX with the length of the read just ended, and the
   * next header.
   */
  method CountRecordEnd(f: FileLineBuffer, nread: nat, ghost lines: seq<Line>, ghost m0: Machine, minLen: nat, maxLen: nat)
      returns (got: bool, warning: seq<nat>, newMin: nat, newMax: nat, ghost m: Machine)
    requires AtLineStart(f, lines)
    requires m0 == Run(Fastq, NameAware, lines, f.row) && m0.phase == Quality(nread) && f.headerID == m0.id
    requires m0.cur.sep && nread == m0.cur.seqLen
    requires minLen == MinFrom(SizeMax, SepLens(m0.done)) && maxLen == MaxFrom(0, SepLens(m0.done))
    modifies f, f.b
    ensures AtLineStart(f, lines) && old(f.row) <= f.row
    ensures f.b == old(f.b) || fresh(f.b)
    ensures m == Run(Fastq, NameAware, lines, f.row) && f.headerID == m.id
    ensures newMin == MinFrom(SizeMax, SepLens(Records(m0))) && newMax == MaxFrom(0, SepLens(Records(m0)))
    ensures !got ==> f.row == |lines| && warning == [] && Records(m) == Records(m0) && m.warnings == m0.warnings
    ensures got ==> && m.phase == Sequence && !m.cur.sep && m.id == Register(m0.id, f.Line())
                    && m.done == Records(m0) && m.cur.seqLen == 0 && m.warnings == m0.warnings + warning
  {
    OpenSepLens(m0);
    MinMaxSnoc(SizeMax, SepLens(m0.done), nread);
    MinMaxSnoc(0, SepLens(m0.done), nread);
    var pos;
    got, warning, pos, m := EndOfRecord(f, nread, lines, m0);
    // UPDATE_MIN_AND_MAX comes before the header getline; nothing it reads changes in between
    newMin := Min(minLen, nread);
    newMax := Max(maxLen, nread);
  }

  /**
   * The FASTQ counting loop: the running minimum and maximum are updated
   * once per separator, after its quality block, whether or not a header
   * follows.
   */
  method CountFastq(f: FileLineBuffer, ghost lines: seq<Line>)
      returns (sequences: nat, nucleotides: nat, minLen: nat, maxLen: nat, warnings: seq<nat>)
    requires AtLineStart(f, lines) && f.row == 1
    requires IsFastqHeader(lines[0]) && f.headerID == ReadName(lines[0])
    modifies f, f.b
    ensures var m := Run(Fastq, NameAware, lines, |lines|);
      && sequences == |Records(m)| && nucleotides == TotalLen(Records(m))
      && minLen == MinFrom(SizeMax, SepLens(Records(m))) && maxLen == MaxFrom(0, SepLens(Records(m)))
      && warnings == m.warnings
  {
    ghost var m := Start(lines[0]);
    ObservablesSnoc([], m.cur);
    sequences := 1;
    nucleotides := 0;
    minLen := SizeMax;
    maxLen := 0;
    warnings := [];
    var nread: nat := 0;
    while true
      invariant AtLineStart(f, lines)
      invariant f.b == old(f.b) || fresh(f.b)
      invariant m == Run(Fastq, NameAware, lines, f.row) && m.phase == Sequence && !m.cur.sep
      invariant f.headerID == m.id && nread == m.cur.seqLen
      invariant FastqCounts(m, sequences, nucleotides, minLen, maxLen)
      invariant warnings == m.warnings
      decreases |lines| - f.row
    {
      ghost var k := f.row;
      var got := f.NextLine();
      if !got {
        break;
      }
      var x := f.Line();
      RunNext(Fastq, NameAware, lines, k);
      FastqSequenceStep(NameAware, m, x, k);
      FastqCountsSequenceLine(NameAware, m, x, k, sequences, nucleotides, minLen, maxLen);
      ghost var prev := m;
      m := FastqStep(NameAware, m, x, k);
      if f.LooksLikeFastqSeparator() {
        ghost var m0 := m;
        assert m0.phase == Quality(nread) && m0.cur.sep && m0.done == prev.done;
        var warning, newMin, newMax;
        got, warning, newMin, newMax, m := CountRecordEnd(f, nread, lines, m0, minLen, maxLen);
        nread := 0;
        warnings := warnings + warning;
        if !got {
          OpenSepLens(m0);
          minLen, maxLen := newMin, newMax;
          return;
        }
        FastqCountsNextRecord(m0, m, sequences, nucleotides, minLen, maxLen, newMin, newMax);
        minLen, maxLen := newMin, newMax;
        sequences := sequences + 1;
      } else {
        nucleotides := nucleotides + f.Len();
        nread := nread + f.Len();
      }
    }
    OpenSepLens(m);
  }

  /** count_number_of_reads_in_file: the number of reads and bases, and the shortest and longest read. */
  method CountNumberOfReadsInFile(file: Option<seq<Line>>) returns (out: CountOutcome)
    ensures out == CountSpec(file)
  {
    var f := new FileLineBuffer();
    var ok := f.Open(file);
    if !ok {
      return CountCannotOpen;
    }
    ghost var lines := f.input;
    var g := f.GetLine();
    if g == AtEof {
      return Counted(0, 0, SizeMax, 0, []);
    }
    if g == NotFastx {
      return CountNotFastx;
    }
    if !f.LooksLikeFastqHeader() {
      var sequences, nucleotides, minLen, maxLen := CountFasta(f, lines);
      out := Counted(sequences, nucleotides, minLen, maxLen, []);
    } else {
      var sequences, nucleotides, minLen, maxLen, warnings := CountFastq(f, lines);
      out := Counted(sequences, nucleotides, minLen, maxLen, warnings);
    }
  }

  // ----- the FASTA minimum and maximum -----

  /** A FASTA file of two reads, of 4 and 2 bases. */
  function TwoFastaReads(): seq<Line>
  {
    [">a", "ACGT", ">b", "GG"]
  }

  /**
   * As written, counting TwoFastaReads reports 0 as both the shortest and
   * the longest read, although the reads have 4 and 2 bases.
   */
  lemma FastaMinMaxExample()
    ensures CountSpec(Some(TwoFastaReads())) == Counted(2, 6, 0, 0, [])
    ensures SeqLens(Records(Run(Fasta, NameAware, TwoFastaReads(), 4))) == [4, 2]
  {
    var lines := TwoFastaReads();
    var m1 := Start(">a");
    assert Run(Fasta, NameAware, lines, 1) == m1;
    RunNext(Fasta, NameAware, lines, 1);
    RunNext(Fasta, NameAware, lines, 2);
    RunNext(Fasta, NameAware, lines, 3);
    var m4 := Machine(Sequence, Register([], ">a"), [Record(0, ">a", 4, false)], Record(2, ">b", 2, false), []);
    assert Run(Fasta, NameAware, lines, 4) == m4;
    var recs := Records(m4);
    assert recs[..1] == [Record(0, ">a", 4, false)];
    assert recs[..1][..0] == [];
    assert TotalLen(recs) == 6;
    assert SeqLens(recs) == [4, 2];
    assert FirstLineFormat(lines[0]) == Some(Fasta);
  }

  /**
   * The last read never reaches UPDATE_MIN_AND_MAX, which runs only at a
   * '>' line: counting a single read of 4 bases, as written, reports
   * SIZE_MAX as the shortest read and 0 as the longest.
   */
  lemma OneFastaReadExample()
    ensures CountSpec(Some([">a", "ACGT"])) == Counted(1, 4, SizeMax, 0, [])
  {
    var lines: seq<Line> := [">a", "ACGT"];
    assert Run(Fasta, NameAware, lines, 1) == Start(">a");
    RunNext(Fasta, NameAware, lines, 1);
    var m2 := Machine(Sequence, Register([], ">a"), [], Record(0, ">a", 4, false), []);
    assert Run(Fasta, NameAware, lines, 2) == m2;
    var recs := Records(m2);
    assert recs[..0] == [];
    assert TotalLen(recs) == 4;
    assert FirstLineFormat(lines[0]) == Some(Fasta);
  }

  /**
   * The shortest and longest FASTA read as evidently intended: the per-read
   * counter grows with every sequence line, and every read, the last one
   * included, takes part.
   */
  function CorrectedFastaMinMax(lines: seq<Line>): (nat, nat)
    requires |lines| >= 1
  {
    var lens := SeqLens(Records(Run(Fasta, NameAware, lines, |lines|)));
    (MinFrom(SizeMax, lens), MaxFrom(0, lens))
  }

  /**
   * The corrected pair bounds every read length and is attained: the
   * maximum is the length of some read, and so is the minimum whenever the
   * lengths fit a size_t.
   */
  lemma CorrectedFastaMinMaxBounds(lines: seq<Line>)
    requires |lines| >= 1
    ensures var lens := SeqLens(Records(Run(Fasta, NameAware, lines, |lines|)));
      var (lo, hi) := CorrectedFastaMinMax(lines);
      && |lens| >= 1 && hi in lens
      && (forall v :: v in lens ==> lo <= v <= hi)
      && ((forall v :: v in lens ==> v <= SizeMax) ==> lo in lens)
  {
    var recs := Records(Run(Fasta, NameAware, lines, |lines|));
    ObservablesSnoc(Run(Fasta, NameAware, lines, |lines|).done, Run(Fasta, NameAware, lines, |lines|).cur);
    MinMaxBounds(SeqLens(recs));
  }

  /** On TwoFastaReads the corrected pair is (2, 4). */
  lemma CorrectedFastaMinMaxExample()
    ensures CorrectedFastaMinMax(TwoFastaReads()) == (2, 4)
  {
    FastaMinMaxExample();
    assert [4, 2][..1] == [4];
    assert [4][..0] == [];
  }
}
