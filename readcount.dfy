/**
 * readcount.cc: an older copy of the `name` and `count` scans that reads
 * with getline(b, BUFFER_SIZE) into one fixed 16 MiB buffer. Three things
 * set it apart from the scans of src/fatt.cc: a line that does not fit the
 * buffer ends the scan (the stream's failbit is sticky), a file is FASTA
 * whenever its first line does not start with '@', and only a bare "+"
 * line ends the sequence lines of a FASTQ record. The loops are proved
 * against the same scan fold as the src/fatt.cc ones, with the bare-plus
 * separator rule.
 */
module ReadCount {
  import opened Wrappers
  import opened Text
  import opened FastxScan
  import FattScan

  /** BUFFER_SIZE: 16 MiB. getline(b, BUFFER_SIZE) stores at most BUFFER_SIZE - 1 bytes and the '\0'. */
  const BufferSize: nat := 16 * 1024 * 1024

  /** The index of the first line too long for the buffer, or the number of lines when every line fits. */
  function FirstLong(lines: seq<Line>): (r: nat)
    ensures r <= |lines|
    ensures forall i :: 0 <= i < r ==> |lines[i]| < BufferSize
    ensures r < |lines| ==> |lines[r]| >= BufferSize
  {
    if |lines| == 0 || |lines[0]| >= BufferSize then 0
    else
      var r' := FirstLong(lines[1..]);
      assert forall i :: 1 <= i < 1 + r' ==> lines[i] == lines[1..][i - 1];
      1 + r'
  }

  /** The format test of both scans: FASTQ if the first line starts with '@', FASTA otherwise (even without '>'). */
  function FormatOf(first: Line): Format
  {
    if IsFastqHeader(first) then Fastq else Fasta
  }

  /**
   * The last warning of a FASTQ scan that a line too long for the buffer
   * stops. If the quality loop met it, getline failed, peek on the failed
   * stream returns EOF without setting eofbit, and `peek() != '@' &&
   * !eof()` holds. If the quality block was complete, peek sees the long
   * line's first byte. In every other case nothing is added.
   */
  function StopWarning(lines: seq<Line>, m: Machine): (w: seq<nat>)
    ensures |w| <= 1
    ensures |w| == 1 ==> w[0] == FirstLong(lines) < |lines| && !m.phase.Sequence?
  {
    var r := FirstLong(lines);
    if r < |lines| && (m.phase.Quality? || (m.phase == Header && !IsFastqHeader(lines[r]))) then [r] else []
  }

  /** What show_read_names_in_file prints: one name per record of the lines before the first long line. */
  function ShowSpec(file: Option<seq<Line>>): FattScan.ShowOutcome
  {
    if file.None? then FattScan.ShowCannotOpen
    else if FirstLong(file.value) == 0 then FattScan.Shown([], [], [])
    else
      var lines := file.value;
      var fmt := FormatOf(lines[0]);
      var m := Run(fmt, BarePlus, lines, FirstLong(lines));
      FattScan.Shown(Names(Records(m)), [], if fmt == Fastq then m.warnings + StopWarning(lines, m) else [])
  }

  /**
   * What count_number_of_reads_in_file reports. As in src/fatt.cc, the
   * FASTA per-read counter is never increased, so every minimum and
   * maximum update is with 0.
   */
  function CountSpec(file: Option<seq<Line>>): FattScan.CountOutcome
  {
    if file.None? then FattScan.CountCannotOpen
    else if FirstLong(file.value) == 0 then FattScan.Counted(0, 0, SizeMax, 0, [])
    else
      var lines := file.value;
      var fmt := FormatOf(lines[0]);
      var m := Run(fmt, BarePlus, lines, FirstLong(lines));
      var recs := Records(m);
      if fmt == Fastq then
        FattScan.Counted(|recs|, TotalLen(recs), MinFrom(SizeMax, SepLens(recs)), MaxFrom(0, SepLens(recs)),
                         m.warnings + StopWarning(lines, m))
      else
        FattScan.Counted(|recs|, TotalLen(recs), FattScan.FastaMinLen(|recs|), 0, [])
  }

  /** The ifstream read with getline(b, BUFFER_SIZE): the file, the next line, failbit, eofbit and the buffer. */
  class LineStream {
    var input: seq<Line>
    var row: nat
    var failed: bool
    var eof: bool
    var b: array<char>
    /** strlen(b) */
    var len: nat

    ghost predicate Valid()
      reads this
    {
      && b.Length == BufferSize
      && len < BufferSize
      && row <= FirstLong(input)
      && (failed ==> row == FirstLong(input))
      && (eof ==> row == |input|)
      && (failed && row == |input| ==> eof)
    }

    /** The line in the buffer. */
    function Line(): Line
      reads this, b
      requires Valid()
    {
      b[..len]
    }

    /** The separator test `b[0] == '+' && b[1] == '\0'`: the line is a bare "+". */
    function IsBarePlus(): (r: bool)
      reads this, b
      requires Valid()
      ensures r <==> Line() == ['+']
    {
      assert len == 1 ==> Line() == [b[0]];
      len == 1 && b[0] == '+'
    }

    /** ifstream ist(fname) on a file that opened, and `new char[BUFFER_SIZE]`. */
    constructor (lines: seq<Line>)
      ensures Valid() && fresh(b)
      ensures input == lines && row == 0 && !failed && !eof && len == 0
    {
      input := lines;
      row := 0;
      failed, eof := false, false;
      b := new char[BufferSize];
      len := 0;
    }

    /**
     * ist.getline(b, BUFFER_SIZE): the next line into the buffer if it fits.
     * A stream that is not good only gains failbit. At the end of the file
     * getline sets eofbit and failbit; a line of BUFFER_SIZE bytes or more
     * sets failbit alone.
     */
    method GetLine() returns (ok: bool)
      requires Valid()
      modifies this, b
      ensures Valid() && b == old(b) && input == old(input)
      ensures ok <==> !old(failed) && !old(eof) && old(row) < FirstLong(input)
      ensures ok ==> row == old(row) + 1 && !failed && !eof && Line() == input[old(row)]
      ensures !ok ==> failed && row == old(row) && eof == (old(eof) || old(row) == |input|)
    {
      if failed || eof {
        failed := true;
        return false;
      }
      if row == |input| {
        failed, eof := true, true;
        return false;
      }
      var x := input[row];
      if |x| >= BufferSize {
        // BUFFER_SIZE - 1 bytes are stored, the '\n' is not reached: failbit
        failed := true;
        return false;
      }
      var i := 0;
      while i < |x|
        modifies b
        invariant i <= |x|
        invariant b[..i] == x[..i]
      {
        b[i] := x[i];
        i := i + 1;
      }
      len := |x|;
      row := row + 1;
      ok := true;
    }

    /**
     * ist.peek(): the next byte without consuming it, None standing for
     * EOF. On a stream that is not good it returns EOF and sets failbit; at
     * the end of the file it returns EOF and sets eofbit. An empty next
     * line starts with its '\n'.
     */
    method Peek() returns (c: Option<char>)
      requires Valid()
      modifies this
      ensures Valid() && b == old(b) && input == old(input) && row == old(row) && len == old(len)
      ensures old(failed) || old(eof) ==> c == None && failed && eof == old(eof)
      ensures !old(failed) && !old(eof) && row == |input| ==> c == None && eof && !failed
      ensures !old(failed) && !old(eof) && row < |input| ==>
        c == Some(if |input[row]| == 0 then '\n' else input[row][0]) && !failed && !eof
    {
      if failed || eof {
        failed := true;
        return None;
      }
      if row == |input| {
        eof := true;
        return None;
      }
      c := Some(if |input[row]| == 0 then '\n' else input[row][0]);
    }
  }

  /** The stream between two getline calls of a scan: line_count lines read, every read successful. */
  ghost predicate Reading(st: LineStream, lines: seq<Line>, lineCount: nat)
    reads st
  {
    st.Valid() && st.input == lines && 1 <= st.row && lineCount == st.row && !st.failed && !st.eof
  }

  /** The quality loop: getline, subtract its length from n, stop once n is at most 0 or getline fails. */
  method ConsumeQuality(st: LineStream, n0: int, lineCount0: nat, ghost lines: seq<Line>, ghost m0: Machine)
      returns (lineCount: nat, ghost m: Machine)
    requires Reading(st, lines, lineCount0)
    requires m0 == Run(Fastq, BarePlus, lines, st.row) && m0.phase == Quality(n0)
    modifies st, st.b
    ensures st.Valid() && st.input == lines && st.b == old(st.b) && old(st.row) <= st.row && lineCount == st.row
    ensures m == Run(Fastq, BarePlus, lines, st.row)
    ensures (m.phase == Header && !st.failed && !st.eof) || (st.failed && st.row == FirstLong(lines) && m.phase.Quality?)
    ensures m.id == m0.id && m.done == m0.done && m.cur == m0.cur && m.warnings == m0.warnings
  {
    m := m0;
    lineCount := lineCount0;
    var n := n0;
    while true
      invariant Reading(st, lines, lineCount) && st.b == old(st.b) && old(st.row) <= st.row
      invariant m == Run(Fastq, BarePlus, lines, st.row) && m.phase == Quality(n)
      invariant m.id == m0.id && m.done == m0.done && m.cur == m0.cur && m.warnings == m0.warnings
      decreases |lines| - st.row
    {
      ghost var k := st.row;
      var got := st.GetLine();
      if !got {
        return;
      }
      lineCount := lineCount + 1;
      RunQuality(BarePlus, lines, k, n);
      m := m.(phase := if n - st.len <= 0 then Header else Quality(n - st.len));
      n := n - st.len;
      if n <= 0 {
        return;
      }
    }
  }

  /**
   * What both FASTQ loops do once they meet a bare "+": the quality loop,
   * the `peek() != '@' && !eof()` warning at line_count, and the getline
   * of the next header. If that getline fails the scan is over.
   */
  method RecordEnd(st: LineStream, n: int, lineCount0: nat, ghost lines: seq<Line>, ghost m0: Machine)
      returns (got: bool, warning: seq<nat>, lineCount: nat, ghost m: Machine)
    requires Reading(st, lines, lineCount0)
    requires m0 == Run(Fastq, BarePlus, lines, st.row) && m0.phase == Quality(n)
    modifies st, st.b
    ensures st.Valid() && st.input == lines && st.b == old(st.b) && old(st.row) <= st.row && lineCount == st.row
    ensures m == Run(Fastq, BarePlus, lines, st.row)
    ensures !got ==> && st.row == FirstLong(lines) && warning == StopWarning(lines, m)
                     && m.done == m0.done && m.cur == m0.cur && m.warnings == m0.warnings
    ensures got ==> && Reading(st, lines, lineCount) && m.phase == Sequence && m.done == Records(m0)
                    && m.cur == Record(st.row - 1, st.Line(), 0, false) && m.warnings == m0.warnings + warning
  {
    ghost var m1;
    lineCount, m1 := ConsumeQuality(st, n, lineCount0, lines, m0);
    var c := st.Peek();
    warning := if c != Some('@') && !st.eof then [lineCount] else [];
    m := m1;
    got := st.GetLine();
    if got {
      lineCount := lineCount + 1;
      RunHeader(BarePlus, lines, st.row - 1);
      m := Machine(Sequence, Register(m1.id, st.Line()), Records(m1), Record(st.row - 1, st.Line(), 0, false),
                   m1.warnings + (if IsFastqHeader(st.Line()) then [] else [st.row - 1]));
    }
  }

  /** The FASTA name loop: every line starting with '>' prints its name. */
  method ShowFasta(st: LineStream, ghost lines: seq<Line>) returns (names: seq<seq<char>>)
    requires Reading(st, lines, 1) && st.Line() == lines[0]
    modifies st, st.b
    ensures names == Names(Records(Run(Fasta, BarePlus, lines, FirstLong(lines))))
  {
    ghost var m := Start(lines[0]);
    ObservablesSnoc([], m.cur);
    var x0 := st.Line();
    names := if |x0| > 0 then [ReadName(x0)] else [];
    var lineCount := 1;
    while true
      invariant Reading(st, lines, lineCount) && st.b == old(st.b)
      invariant m == Run(Fasta, BarePlus, lines, st.row) && names == Names(Records(m))
      decreases |lines| - st.row
    {
      ghost var k := st.row;
      var got := st.GetLine();
      if !got {
        break;
      }
      lineCount := lineCount + 1;
      var x := st.Line();
      RunNext(Fasta, BarePlus, lines, k);
      FastaStepObservables(m, x, k);
      m := FastaStep(m, x, k);
      if st.len > 0 && st.b[0] == '>' {
        names := names + [ReadName(x)];
      }
    }
  }

  /** The FASTQ name loop: the first header and every header read after a quality block print their names. */
  method ShowFastq(st: LineStream, ghost lines: seq<Line>) returns (names: seq<seq<char>>, warnings: seq<nat>)
    requires Reading(st, lines, 1) && st.Line() == lines[0] && IsFastqHeader(lines[0])
    modifies st, st.b
    ensures var m := Run(Fastq, BarePlus, lines, FirstLong(lines));
      names == Names(Records(m)) && warnings == m.warnings + StopWarning(lines, m)
  {
    ghost var m := Start(lines[0]);
    ObservablesSnoc([], m.cur);
    var x0 := st.Line();
    names := [ReadName(x0)];
    warnings := [];
    var nread: nat := 0;
    var lineCount := 1;
    while true
      invariant Reading(st, lines, lineCount) && st.b == old(st.b)
      invariant m == Run(Fastq, BarePlus, lines, st.row) && m.phase == Sequence && nread == m.cur.seqLen
      invariant FattScan.Shows(true, m, names, [])
      invariant warnings == m.warnings
      decreases |lines| - st.row
    {
      ghost var k := st.row;
      var got := st.GetLine();
      if !got {
        break;
      }
      lineCount := lineCount + 1;
      var x := st.Line();
      RunNext(Fastq, BarePlus, lines, k);
      FastqSequenceStep(BarePlus, m, x, k);
      FattScan.ShowsFastqSequenceLine(BarePlus, true, m, x, k, names, []);
      m := FastqStep(BarePlus, m, x, k);
      if st.IsBarePlus() {
        ghost var m0 := m;
        var warning;
        got, warning, lineCount, m := RecordEnd(st, nread, lineCount, lines, m0);
        warnings := warnings + warning;
        if !got {
          return;
        }
        var h := st.Line();
        FattScan.ShowsNextRecord(true, m0, m, names, []);
        names := names + (if |h| == 0 then [] else [ReadName(h)]);
        nread := 0;
      } else {
        nread := nread + st.len;
      }
    }
    assert warnings + StopWarning(lines, m) == warnings;
  }

  /** show_read_names_in_file: a file that cannot be opened, or nothing readable, prints no name. */
  method ShowReadNamesInFile(file: Option<seq<Line>>) returns (out: FattScan.ShowOutcome)
    ensures out == ShowSpec(file)
  {
    if file.None? {
      return FattScan.ShowCannotOpen;
    }
    var st := new LineStream(file.value);
    ghost var lines := file.value;
    var got := st.GetLine();
    if !got {
      return FattScan.Shown([], [], []);
    }
    if st.len == 0 || st.b[0] != '@' {
      var names := ShowFasta(st, lines);
      out := FattScan.Shown(names, [], []);
    } else {
      var names, warnings := ShowFastq(st, lines);
      out := FattScan.Shown(names, [], warnings);
    }
  }

  /** The FASTA counting loop: '>' lines count sequences, every other line counts its bytes. */
  method CountFasta(st: LineStream, ghost lines: seq<Line>) returns (sequences: nat, nucleotides: nat, minLen: nat, maxLen: nat)
    requires Reading(st, lines, 1)
    modifies st, st.b
    ensures var recs := Records(Run(Fasta, BarePlus, lines, FirstLong(lines)));
      && sequences == |recs| && nucleotides == TotalLen(recs)
      && minLen == FattScan.FastaMinLen(|recs|) && maxLen == 0
  {
    ghost var m := Start(lines[0]);
    ObservablesSnoc([], m.cur);
    sequences := 1;
    nucleotides := 0;
    minLen := SizeMax;
    maxLen := 0;
    var nread: nat := 0;
    var lineCount := 1;
    while true
      invariant Reading(st, lines, lineCount) && st.b == old(st.b)
      invariant m == Run(Fasta, BarePlus, lines, st.row) && nread == 0
      invariant sequences == |Records(m)| && nucleotides == TotalLen(Records(m))
      invariant minLen == FattScan.FastaMinLen(sequences) && maxLen == 0
      decreases |lines| - st.row
    {
      ghost var k := st.row;
      var got := st.GetLine();
      if !got {
        break;
      }
      lineCount := lineCount + 1;
      var x := st.Line();
      RunNext(Fasta, BarePlus, lines, k);
      FastaStepObservables(m, x, k);
      m := FastaStep(m, x, k);
      if st.len > 0 && st.b[0] == '>' {
        sequences := sequences + 1;
        minLen := Min(minLen, nread);
        maxLen := Max(maxLen, nread);
        nread := 0;
      } else {
        nucleotides := nucleotides + st.len;
      }
    }
  }

  /**
   * The separator branch of the FASTQ counting loop: the quality block, the
   * warning, UPDATE_MIN_AND_MAX with the length of the read just ended, and
   * the next header.
   */
  method CountRecordEnd(st: LineStream, nread: nat, lineCount0: nat, ghost lines: seq<Line>, ghost m0: Machine,
                        minLen: nat, maxLen: nat)
      returns (got: bool, warning: seq<nat>, newMin: nat, newMax: nat, lineCount: nat, ghost m: Machine)
    requires Reading(st, lines, lineCount0)
    requires m0 == Run(Fastq, BarePlus, lines, st.row) && m0.phase == Quality(nread)
    requires m0.cur.sep && nread == m0.cur.seqLen
    requires minLen == MinFrom(SizeMax, SepLens(m0.done)) && maxLen == MaxFrom(0, SepLens(m0.done))
    modifies st, st.b
    ensures st.Valid() && st.input == lines && st.b == old(st.b) && old(st.row) <= st.row && lineCount == st.row
    ensures m == Run(Fastq, BarePlus, lines, st.row)
    ensures newMin == MinFrom(SizeMax, SepLens(Records(m0))) && newMax == MaxFrom(0, SepLens(Records(m0)))
    ensures !got ==> && st.row == FirstLong(lines) && warning == StopWarning(lines, m)
                     && Records(m) == Records(m0) && m.warnings == m0.warnings
    ensures got ==> && Reading(st, lines, lineCount) && m.phase == Sequence && !m.cur.sep
                    && m.done == Records(m0) && m.cur.seqLen == 0 && m.warnings == m0.warnings + warning
  {
    OpenSepLens(m0);
    MinMaxSnoc(SizeMax, SepLens(m0.done), nread);
    MinMaxSnoc(0, SepLens(m0.done), nread);
    got, warning, lineCount, m := RecordEnd(st, nread, lineCount0, lines, m0);
    // UPDATE_MIN_AND_MAX comes before the header getline; nothing it reads changes in between
    newMin := Min(minLen, nread);
    newMax := Max(maxLen, nread);
  }

  /**
   * The FASTQ counting loop: the minimum and maximum are updated after
   * every quality block, and the sequence count rises only when a header
   * line follows.
   */
  method CountFastq(st: LineStream, ghost lines: seq<Line>)
      returns (sequences: nat, nucleotides: nat, minLen: nat, maxLen: nat, warnings: seq<nat>)
    requires Reading(st, lines, 1) && IsFastqHeader(lines[0])
    modifies st, st.b
    ensures var m := Run(Fastq, BarePlus, lines, FirstLong(lines));
      && sequences == |Records(m)| && nucleotides == TotalLen(Records(m))
      && minLen == MinFrom(SizeMax, SepLens(Records(m))) && maxLen == MaxFrom(0, SepLens(Records(m)))
      && warnings == m.warnings + StopWarning(lines, m)
  {
    ghost var m := Start(lines[0]);
    ObservablesSnoc([], m.cur);
    sequences := 1;
    nucleotides := 0;
    minLen := SizeMax;
    maxLen := 0;
    warnings := [];
    var nread: nat := 0;
    var lineCount := 1;
    while true
      invariant Reading(st, lines, lineCount) && st.b == old(st.b)
      invariant m == Run(Fastq, BarePlus, lines, st.row) && m.phase == Sequence && !m.cur.sep
      invariant nread == m.cur.seqLen
      invariant FattScan.FastqCounts(m, sequences, nucleotides, minLen, maxLen)
      invariant warnings == m.warnings
      decreases |lines| - st.row
    {
      ghost var k := st.row;
      var got := st.GetLine();
      if !got {
        break;
      }
      lineCount := lineCount + 1;
      var x := st.Line();
      RunNext(Fastq, BarePlus, lines, k);
      FastqSequenceStep(BarePlus, m, x, k);
      FattScan.FastqCountsSequenceLine(BarePlus, m, x, k, sequences, nucleotides, minLen, maxLen);
      m := FastqStep(BarePlus, m, x, k);
      if st.IsBarePlus() {
        ghost var m0 := m;
        var warning, newMin, newMax;
        got, warning, newMin, newMax, lineCount, m := CountRecordEnd(st, nread, lineCount, lines, m0, minLen, maxLen);
        warnings := warnings + warning;
        nread := 0;
        if !got {
          minLen, maxLen := newMin, newMax;
          return;
        }
        FattScan.FastqCountsNextRecord(m0, m, sequences, nucleotides, minLen, maxLen, newMin, newMax);
        minLen, maxLen := newMin, newMax;
        sequences := sequences + 1;
      } else {
        nucleotides := nucleotides + st.len;
        nread := nread + st.len;
      }
    }
    OpenSepLens(m);
    assert warnings + StopWarning(lines, m) == warnings;
  }

  /** count_number_of_reads_in_file: reads, bases, shortest and longest read, and the format warnings. */
  method CountNumberOfReadsInFile(file: Option<seq<Line>>) returns (out: FattScan.CountOutcome)
    ensures out == CountSpec(file)
  {
    if file.None? {
      return FattScan.CountCannotOpen;
    }
    var st := new LineStream(file.value);
    ghost var lines := file.value;
    var got := st.GetLine();
    if !got {
      return FattScan.Counted(0, 0, SizeMax, 0, []);
    }
    if st.len == 0 || st.b[0] != '@' {
      var sequences, nucleotides, minLen, maxLen := CountFasta(st, lines);
      out := FattScan.Counted(sequences, nucleotides, minLen, maxLen, []);
    } else {
      var sequences, nucleotides, minLen, maxLen, warnings := CountFastq(st, lines);
      out := FattScan.Counted(sequences, nucleotides, minLen, maxLen, warnings);
    }
  }

  // ----- what the fixed buffer and the bare-plus rule change -----

  /**
   * The scan stops at the first line that does not fit: the counts and the
   * names are those of the lines before it, read as a file of their own,
   * and at most one warning is added.
   */
  lemma ScanStopsAtLongLine(lines: seq<Line>)
    ensures var p := lines[..FirstLong(lines)];
      var c := CountSpec(Some(lines));
      var c' := CountSpec(Some(p));
      && c.Counted? && c'.Counted?
      && c.sequences == c'.sequences && c.nucleotides == c'.nucleotides
      && c.minLen == c'.minLen && c.maxLen == c'.maxLen
      && c'.warnings <= c.warnings && |c.warnings| <= |c'.warnings| + 1
      && ShowSpec(Some(lines)).names == ShowSpec(Some(p)).names
  {
    var r := FirstLong(lines);
    var p := lines[..r];
    assert FirstLong(p) == r;
    if r > 0 {
      assert p[0] == lines[0];
      var fmt := FormatOf(lines[0]);
      assert lines[1..r] == p[1..r];
      FoldWindow(fmt, BarePlus, Start(lines[0]), lines, p, 1, r);
      var m := Run(fmt, BarePlus, lines, r);
      assert StopWarning(p, m) == [];
      assert m.warnings + [] == m.warnings;
    }
  }

  /** No line starts with '+' except the bare separator: the file has no "+name" lines. */
  ghost predicate NoNamedSeparators(lines: seq<Line>)
  {
    forall i :: 0 <= i < |lines| ==> (IsPlusLine(lines[i]) ==> lines[i] == ['+'])
  }

  predicate IsPlusLine(x: Line)
  {
    |x| > 0 && x[0] == '+'
  }

  /** On such lines the bare-plus rule and the name-aware rule of src/fatt.cc drive the scan alike. */
  lemma {:induction false} RulesAgree(fmt: Format, m: Machine, lines: seq<Line>, i: nat, j: nat)
    requires i <= j <= |lines| && NoNamedSeparators(lines)
    ensures FoldFrom(fmt, BarePlus, m, lines, i, j) == FoldFrom(fmt, NameAware, m, lines, i, j)
    decreases j
  {
    if j > i {
      RulesAgree(fmt, m, lines, i, j - 1);
      var x := lines[j - 1];
      assert IsPlusLine(x) ==> x == ['+'];
    }
  }

  /**
   * Where the two programs read a file the same way (every line fits the
   * buffer, the first line starts with '@' or '>', and no separator
   * carries a name), readcount reports exactly what `fatt count` and
   * `fatt name` report.
   */
  lemma AgreesWithFatt(lines: seq<Line>)
    requires FirstLong(lines) == |lines| && NoNamedSeparators(lines)
    requires |lines| > 0 ==> IsFastqHeader(lines[0]) || IsFastaHeader(lines[0])
    ensures CountSpec(Some(lines)) == FattScan.CountSpec(Some(lines))
    ensures ShowSpec(Some(lines)) == FattScan.ShowSpec(Some(lines), true)
  {
    if |lines| > 0 {
      var fmt := FormatOf(lines[0]);
      assert FattScan.FirstLineFormat(lines[0]) == Some(fmt);
      SameRun(lines, fmt);
    }
  }

  /** Under those conditions both programs run the same scan over the whole file, and readcount adds no last warning. */
  lemma SameRun(lines: seq<Line>, fmt: Format)
    requires |lines| > 0 && FirstLong(lines) == |lines| && NoNamedSeparators(lines)
    ensures var m := Run(fmt, BarePlus, lines, |lines|);
      && m == Run(fmt, NameAware, lines, |lines|)
      && StopWarning(lines, m) == [] && m.warnings + StopWarning(lines, m) == m.warnings
  {
    RulesAgree(fmt, Start(lines[0]), lines, 1, |lines|);
    var m := Run(fmt, BarePlus, lines, |lines|);
    assert StopWarning(lines, m) == [];
    assert m.warnings + [] == m.warnings;
  }

  /** In FASTA mode the base count is the total length of every line after the first that does not start with '>'. */
  lemma FastaBases(lines: seq<Line>)
    requires FirstLong(lines) > 0 && !IsFastqHeader(lines[0])
    ensures CountSpec(Some(lines)).nucleotides == NonHeaderLens(lines, 1, FirstLong(lines))
  {
    FastaTotal(BarePlus, lines, FirstLong(lines));
  }

  /** The four lines of a FASTQ record whose separator carries the read name. */
  function NamedSeparatorRecord(): seq<Line>
  {
    ["@r1", "ACGT", "+r1", "IIII"]
  }

  lemma NamedSeparatorRecordFits()
    ensures FirstLong(NamedSeparatorRecord()) == 4
  {
    var lines := NamedSeparatorRecord();
    assert FirstLong(lines[3..][1..]) == 0;
    assert FirstLong(lines[2..][1..]) == 1 by { assert lines[2..][1..] == lines[3..]; }
    assert FirstLong(lines[1..][1..]) == 2 by { assert lines[1..][1..] == lines[2..]; }
    assert FirstLong(lines[1..]) == 3;
  }

  lemma NamedSeparatorRecordName()
    ensures Register([], "@r1") == "r1"
  {
    assert Token("1") == "1";
    assert Token("r1") == "r1";
    assert "@r1"[1..] == "r1";
  }

  /** readcount's scan of that record: no line is a bare "+", so every line after the header is a sequence line. */
  lemma NamedSeparatorReadcountRun()
    ensures Run(Fastq, BarePlus, NamedSeparatorRecord(), 4) == Machine(Sequence, "r1", [], Record(0, "@r1", 11, false), [])
  {
    var lines := NamedSeparatorRecord();
    NamedSeparatorRecordName();
    var m1 := Machine(Sequence, "r1", [], Record(0, "@r1", 0, false), []);
    assert Run(Fastq, BarePlus, lines, 1) == m1;
    RunNext(Fastq, BarePlus, lines, 1);
    assert Run(Fastq, BarePlus, lines, 2) == m1.(cur := Record(0, "@r1", 4, false));
    RunNext(Fastq, BarePlus, lines, 2);
    assert Run(Fastq, BarePlus, lines, 3) == m1.(cur := Record(0, "@r1", 7, false));
    RunNext(Fastq, BarePlus, lines, 3);
  }

  /** readcount on that record: "+r1" and the quality line are counted as bases and the read never ends. */
  lemma NamedSeparatorReadcount()
    ensures CountSpec(Some(NamedSeparatorRecord())) == FattScan.Counted(1, 11, SizeMax, 0, [])
  {
    var lines := NamedSeparatorRecord();
    NamedSeparatorRecordFits();
    NamedSeparatorReadcountRun();
    var m4 := Machine(Sequence, "r1", [], Record(0, "@r1", 11, false), []);
    var recs := Records(m4);
    assert recs[..0] == [];
    assert SepLens(recs) == [] && TotalLen(recs) == 11;
    assert FormatOf(lines[0]) == Fastq;
  }

  /** src/fatt.cc's scan of that record: "+r1" names the read, so it starts the quality block, which the last line fills. */
  lemma NamedSeparatorFattRun()
    ensures Run(Fastq, NameAware, NamedSeparatorRecord(), 4) == Machine(Header, "r1", [], Record(0, "@r1", 4, true), [])
  {
    var lines := NamedSeparatorRecord();
    NamedSeparatorRecordName();
    SeparatorExamples();
    var m1 := Machine(Sequence, "r1", [], Record(0, "@r1", 0, false), []);
    assert Run(Fastq, NameAware, lines, 1) == m1;
    RunNext(Fastq, NameAware, lines, 1);
    assert Run(Fastq, NameAware, lines, 2) == m1.(cur := Record(0, "@r1", 4, false));
    RunNext(Fastq, NameAware, lines, 2);
    assert Run(Fastq, NameAware, lines, 3) == m1.(phase := Quality(4), cur := Record(0, "@r1", 4, true));
    RunNext(Fastq, NameAware, lines, 3);
  }

  /** src/fatt.cc on the same record: "+r1" names the read, so it is a separator and the read has four bases. */
  lemma NamedSeparatorFatt()
    ensures FattScan.CountSpec(Some(NamedSeparatorRecord())) == FattScan.Counted(1, 4, 4, 4, [])
  {
    var lines := NamedSeparatorRecord();
    NamedSeparatorFattRun();
    var m4 := Machine(Header, "r1", [], Record(0, "@r1", 4, true), []);
    var recs := Records(m4);
    assert recs[..0] == [];
    assert SepLens(recs) == [4] && TotalLen(recs) == 4;
    assert [4][..0] == [];
    assert MinFrom(SizeMax, [4]) == 4 && MaxFrom(0, [4]) == 4;
    assert FattScan.FirstLineFormat(lines[0]) == Some(Fastq);
  }
}
