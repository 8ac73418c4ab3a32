/**
 * do_extract with an index (src/fatt.cc): each requested record is found
 * through the seqpos table, the stream is moved there with seekg, and the
 * record is copied line by line until its end. Two modes: by name, for
 * every name of a set, and by ordinal, from --start up to --end.
 */
module Extract {
  import opened Wrappers
  import opened Text
  import opened LineSource
  import opened FastxScan
  import opened PositionIndex

  // ----- the stream, as far as extraction depends on it -----

  /** Where the stream is, whether it has failed, how many lines getline delivered, the remembered name. */
  datatype Cursor = Cursor(row: nat, col: nat, failed: bool, lineCount: nat, id: seq<char>)

  ghost function CursorOf(f: FileLineBuffer): Cursor
    reads f
  {
    Cursor(f.row, f.col, f.failed, f.lineCount, f.headerID)
  }

  /** The positions a stream over `lines` can be at (the class invariant, on a cursor). */
  predicate Fits(lines: seq<Line>, c: Cursor)
  {
    && c.row <= |lines|
    && (c.failed ==> c.row == |lines|)
    && (c.row < |lines| ==> c.col <= |lines[c.row]|)
    && (c.row == |lines| ==> c.col == 0)
  }

  /** seekg: a failed stream stays where it is. */
  function Seek(lines: seq<Line>, c: Cursor, pos: nat): (c': Cursor)
    requires Fits(lines, c)
    ensures Fits(lines, c') && c'.failed == c.failed && c'.lineCount == c.lineCount && c'.id == c.id
    ensures !c.failed ==> (c'.row, c'.col) == Locate(lines, pos)
  {
    if c.failed then c else var p := Locate(lines, pos); c.(row := p.0, col := p.1)
  }

  datatype Read = Read(status: Status, line: Line, after: Cursor)

  /** getline from the cursor: the rest of the current line; the first line ever read is classified. */
  function GetLineAt(lines: seq<Line>, c: Cursor): (r: Read)
    requires Fits(lines, c)
    ensures Fits(lines, r.after)
    ensures r.status == AtEof <==> c.row == |lines|
    ensures r.status != AtEof ==> r.after.row == c.row + 1 && r.after.col == 0 && !r.after.failed
    ensures r.status != AtEof ==> r.after.lineCount == c.lineCount + 1
  {
    if c.row == |lines| then Read(AtEof, [], c.(failed := true))
    else
      var x := lines[c.row][c.col..];
      var n := c.lineCount + 1;
      var status := if n == 1 && !IsFastqHeader(x) && !IsFastaHeader(x) then NotFastx else Got;
      Read(status, x, Cursor(c.row + 1, 0, false, n, if n == 1 && IsFastqHeader(x) then ReadName(x) else c.id))
  }

  // ----- copying one record -----

  /** Lines copied from row `start`: they end before row `end`; `eof` when getline ran out. */
  datatype Span = Span(out: seq<Line>, end: nat, eof: bool)

  function Prepend(x: seq<Line>, s: Span): Span
  {
    s.(out := x + s.out)
  }

  lemma PrependPrepend(a: seq<Line>, b: seq<Line>, s: Span)
    ensures Prepend(a, Prepend(b, s)) == Prepend(a + b, s)
  {
    assert a + (b + s.out) == (a + b) + s.out;
  }

  /** The cursor after a span was read from c, which stands at the start of a line. */
  function Past(c: Cursor, s: Span): Cursor
    requires c.row <= s.end
  {
    Cursor(s.end, 0, s.eof, c.lineCount + (s.end - c.row), c.id)
  }

  /** The FASTA body loop: lines up to the next '>' line, which is read but not copied. */
  function FastaBody(lines: seq<Line>, r: nat): (s: Span)
    requires r <= |lines|
    ensures r <= s.end <= |lines| && (s.eof ==> s.end == |lines|) && (!s.eof ==> r < s.end)
    decreases |lines| - r
  {
    if r == |lines| then Span([], r, true)
    else if IsFastaHeader(lines[r]) then Span([], r + 1, false)
    else Prepend([lines[r]], FastaBody(lines, r + 1))
  }

  /** The quality loop: lines until their lengths add up to at least n, at least one line. */
  function QualityFrom(lines: seq<Line>, r: nat, n: int): (s: Span)
    requires r <= |lines|
    ensures r <= s.end <= |lines| && (s.eof ==> s.end == |lines|) && (!s.eof ==> r < s.end)
    decreases |lines| - r
  {
    if r == |lines| then Span([], r, true)
    else if n - |lines[r]| <= 0 then Span([lines[r]], r + 1, false)
    else Prepend([lines[r]], QualityFrom(lines, r + 1, n - |lines[r]|))
  }

  /** The FASTQ body loop: sequence lines up to the separator for `id`, then the quality loop. */
  function FastqBody(lines: seq<Line>, r: nat, id: seq<char>, nread: nat): (s: Span)
    requires r <= |lines|
    ensures r <= s.end <= |lines| && (s.eof ==> s.end == |lines|)
    decreases |lines| - r
  {
    if r == |lines| then Span([], r, true)
    else if IsSeparator(NameAware, lines[r], id) then Prepend([lines[r]], QualityFrom(lines, r + 1, nread))
    else Prepend([lines[r]], FastqBody(lines, r + 1, id, nread + |lines[r]|))
  }

  /**
   * The FASTA body is the lines from r up to the next '>' line or the end
   * of the file, none of them a header; the '>' line is read, not copied.
   */
  lemma {:induction false} FastaBodySpan(lines: seq<Line>, r: nat)
    requires r <= |lines|
    ensures var s := FastaBody(lines, r);
      && s.out == lines[r..s.end - (if s.eof then 0 else 1)]
      && (forall j :: r <= j < |lines| && j < s.end - (if s.eof then 0 else 1) ==> !IsFastaHeader(lines[j]))
      && (!s.eof ==> IsFastaHeader(lines[s.end - 1]))
    decreases |lines| - r
  {
    if r < |lines| && !IsFastaHeader(lines[r]) {
      FastaBodySpan(lines, r + 1);
      var s := FastaBody(lines, r + 1);
      assert lines[r..s.end - (if s.eof then 0 else 1)] == [lines[r]] + lines[r + 1..s.end - (if s.eof then 0 else 1)];
    }
  }

  /**
   * The quality loop copies lines r .. end-1: every shorter prefix of them
   * stays below n, and unless the file ran out they reach n.
   */
  lemma {:induction false} QualitySpan(lines: seq<Line>, r: nat, n: int)
    requires r <= |lines|
    ensures var s := QualityFrom(lines, r, n);
      && s.out == lines[r..s.end]
      && (forall t :: r < t < s.end ==> SumLens(lines[r..t]) < n)
      && (!s.eof ==> SumLens(lines[r..s.end]) >= n)
    decreases |lines| - r
  {
    if r < |lines| {
      var x := lines[r];
      if n - |x| > 0 {
        QualitySpan(lines, r + 1, n - |x|);
        var s := QualityFrom(lines, r + 1, n - |x|);
        assert lines[r..s.end] == [x] + lines[r + 1..s.end];
        forall t | r < t <= s.end
          ensures SumLens(lines[r..t]) == |x| + SumLens(lines[r + 1..t])
          ensures t < s.end ==> SumLens(lines[r..t]) < n
        {
          SumLensFrom(lines, r, t);
          if t == r + 1 {
            assert lines[r + 1..t] == [];
          }
        }
      } else {
        SumLensFrom(lines, r, r + 1);
      }
    }
  }

  /** The lengths of lines r .. t-1 are the length of line r plus those of the lines after it. */
  lemma SumLensFrom(lines: seq<Line>, r: nat, t: nat)
    requires r < t <= |lines|
    ensures lines[r..t] == [lines[r]] + lines[r + 1..t]
    ensures SumLens(lines[r..t]) == |lines[r]| + SumLens(lines[r + 1..t])
  {
    assert lines[r..t] == [lines[r]] + lines[r + 1..t];
    SumLensAppend([lines[r]], lines[r + 1..t]);
    assert [lines[r]][..0] == [];
  }

  /** The FASTQ body copies exactly the lines from r to where it stopped, the separator and quality lines included. */
  lemma {:induction false} FastqBodySpan(lines: seq<Line>, r: nat, id: seq<char>, nread: nat)
    requires r <= |lines|
    ensures var s := FastqBody(lines, r, id, nread); s.out == lines[r..s.end]
    decreases |lines| - r
  {
    if r < |lines| {
      if IsSeparator(NameAware, lines[r], id) {
        QualitySpan(lines, r + 1, nread);
        var q := QualityFrom(lines, r + 1, nread);
        assert lines[r..q.end] == [lines[r]] + lines[r + 1..q.end];
      } else {
        FastqBodySpan(lines, r + 1, id, nread + |lines[r]|);
        var s := FastqBody(lines, r + 1, id, nread + |lines[r]|);
        assert lines[r..s.end] == [lines[r]] + lines[r + 1..s.end];
      }
    }
  }

  /** getline after the first line: no classification any more. */
  method ReadOn(f: FileLineBuffer) returns (got: bool)
    requires f.Valid() && f.col == 0 && f.lineCount >= 1
    modifies f, f.b
    ensures f.Valid() && f.col == 0 && (f.b == old(f.b) || fresh(f.b))
    ensures f.input == old(f.input) && f.headerID == old(f.headerID)
    ensures got <==> old(f.row) < |f.input|
    ensures got ==> f.row == old(f.row) + 1 && f.Line() == f.input[old(f.row)] && f.lineCount == old(f.lineCount) + 1 && !f.failed
    ensures !got ==> f.row == old(f.row) && f.failed && f.lineCount == old(f.lineCount)
  {
    var r := f.GetLine();
    got := r != AtEof;
    if got {
      assert f.input[old(f.row)][0..] == f.input[old(f.row)];
    }
  }

  /** The FASTA body loop of both modes' name lookups. */
  method CopyFastaBody(f: FileLineBuffer, ghost lines: seq<Line>) returns (out: seq<Line>)
    requires f.Valid() && f.input == lines && f.col == 0 && f.lineCount >= 1
    modifies f, f.b
    ensures f.Valid() && f.input == lines && (f.b == old(f.b) || fresh(f.b))
    ensures var s := FastaBody(lines, old(f.row)); out == s.out && CursorOf(f) == Past(old(CursorOf(f)), s)
  {
    ghost var c0 := CursorOf(f);
    out := [];
    while true
      invariant f.Valid() && f.input == lines && f.col == 0 && (f.b == old(f.b) || fresh(f.b))
      invariant c0.row <= f.row && f.lineCount == c0.lineCount + (f.row - c0.row) && f.headerID == c0.id
      invariant !f.failed || f.row == c0.row
      invariant FastaBody(lines, c0.row) == Prepend(out, FastaBody(lines, f.row))
      decreases |lines| - f.row
    {
      var got := ReadOn(f);
      if !got {
        break;
      }
      if f.LooksLikeFastaHeader() {
        break;
      }
      assert FastaBody(lines, f.row - 1) == Prepend([f.Line()], FastaBody(lines, f.row));
      PrependPrepend(out, [f.Line()], FastaBody(lines, f.row));
      out := out + [f.Line()];
    }
  }

  /** The quality loop: copy lines until their lengths reach n. */
  method CopyQuality(f: FileLineBuffer, ghost lines: seq<Line>, n0: int) returns (out: seq<Line>)
    requires f.Valid() && f.input == lines && f.col == 0 && f.lineCount >= 1
    modifies f, f.b
    ensures f.Valid() && f.input == lines && (f.b == old(f.b) || fresh(f.b))
    ensures var s := QualityFrom(lines, old(f.row), n0); out == s.out && CursorOf(f) == Past(old(CursorOf(f)), s)
  {
    ghost var c0 := CursorOf(f);
    out := [];
    var n := n0;
    while true
      invariant f.Valid() && f.input == lines && f.col == 0 && (f.b == old(f.b) || fresh(f.b))
      invariant c0.row <= f.row && f.lineCount == c0.lineCount + (f.row - c0.row) && f.headerID == c0.id
      invariant !f.failed || f.row == c0.row
      invariant QualityFrom(lines, c0.row, n0) == Prepend(out, QualityFrom(lines, f.row, n))
      decreases |lines| - f.row
    {
      ghost var k := f.row;
      var got := ReadOn(f);
      if !got {
        break;
      }
      var x := f.Line();
      assert k < |lines| && x == lines[k];
      PrependPrepend(out, [x], QualityFrom(lines, f.row, n - f.Len()));
      n := n - f.Len();
      out := out + [x];
      if n <= 0 {
        break;
      }
    }
  }

  /** The separator at row r ends the FASTQ body with the quality lines after it. */
  lemma FastqBodyAtSeparator(lines: seq<Line>, r0: nat, id: seq<char>, r: nat, nread: nat, out: seq<Line>)
    requires r0 <= r < |lines| && IsSeparator(NameAware, lines[r], id)
    requires FastqBody(lines, r0, id, 0) == Prepend(out, FastqBody(lines, r, id, nread))
    ensures var q := QualityFrom(lines, r + 1, nread);
      FastqBody(lines, r0, id, 0) == Span(out + [lines[r]] + q.out, q.end, q.eof)
  {
    var q := QualityFrom(lines, r + 1, nread);
    PrependPrepend(out, [lines[r]], q);
  }

  /** A separator was just read (x, at row r): copy it and the quality lines, which end the body. */
  method CopyRecordTail(f: FileLineBuffer, ghost lines: seq<Line>, ghost c0: Cursor, prefix: seq<Line>, x: Line, nread: nat)
      returns (out: seq<Line>)
    requires f.Valid() && f.input == lines && f.col == 0 && f.lineCount >= 1 && !f.failed
    requires c0.row < f.row && f.lineCount == c0.lineCount + (f.row - c0.row) && f.headerID == c0.id
    requires x == lines[f.row - 1] && IsSeparator(NameAware, x, c0.id)
    requires FastqBody(lines, c0.row, c0.id, 0) == Prepend(prefix, FastqBody(lines, f.row - 1, c0.id, nread))
    modifies f, f.b
    ensures f.Valid() && f.input == lines && (f.b == old(f.b) || fresh(f.b))
    ensures var s := FastqBody(lines, c0.row, c0.id, 0); out == s.out && CursorOf(f) == Past(c0, s)
  {
    FastqBodyAtSeparator(lines, c0.row, c0.id, f.row - 1, nread, prefix);
    var q := CopyQuality(f, lines, nread);
    out := prefix + [x] + q;
  }

  /** The FASTQ body loop after a name lookup: sequence lines, then the separator and the quality lines. */
  method CopyFastqBody(f: FileLineBuffer, ghost lines: seq<Line>) returns (out: seq<Line>)
    requires f.Valid() && f.input == lines && f.col == 0 && f.lineCount >= 1
    modifies f, f.b
    ensures f.Valid() && f.input == lines && (f.b == old(f.b) || fresh(f.b))
    ensures var s := FastqBody(lines, old(f.row), old(f.headerID), 0); out == s.out && CursorOf(f) == Past(old(CursorOf(f)), s)
  {
    ghost var c0 := CursorOf(f);
    out := [];
    var nread: nat := 0;
    while true
      invariant f.Valid() && f.input == lines && f.col == 0 && (f.b == old(f.b) || fresh(f.b))
      invariant c0.row <= f.row && f.lineCount == c0.lineCount + (f.row - c0.row) && f.headerID == c0.id
      invariant !f.failed || f.row == c0.row
      invariant FastqBody(lines, c0.row, c0.id, 0) == Prepend(out, FastqBody(lines, f.row, c0.id, nread))
      decreases |lines| - f.row
    {
      var got := ReadOn(f);
      if !got {
        break;
      }
      var x := f.Line();
      if f.LooksLikeFastqSeparator() {
        out := CopyRecordTail(f, lines, c0, out, x, nread);
        return;
      }
      PrependPrepend(out, [x], FastqBody(lines, f.row, c0.id, nread + f.Len()));
      nread := nread + f.Len();
      out := out + [x];
    }
  }

  // ----- one lookup -----

  /** What one lookup prints: the record, nothing (seekg failed or getline found no line), or exit(1). */
  datatype Extracted = Printed(out: seq<Line>) | Missing | Exited

  /** The body after the header line g delivered; a FASTQ header is registered first. */
  function BodyAfter(lines: seq<Line>, fastq: bool, g: Read): (r: (Extracted, Cursor))
    requires Fits(lines, g.after) && g.status != AtEof && 1 <= g.after.row && g.after.col == 0
    ensures Fits(lines, r.1)
  {
    if fastq then
      var c2 := g.after.(id := if |g.line| == 0 then g.after.id else ReadName(g.line));
      var s := FastqBody(lines, c2.row, c2.id, 0);
      (Printed([g.line] + s.out), Past(c2, s))
    else
      var s := FastaBody(lines, g.after.row);
      (Printed([g.line] + s.out), Past(g.after, s))
  }

  /**
   * One lookup at offset pos: seekg, the fail() test, the header's getline
   * and the body. The header line is copied whole; a FASTQ header is then
   * registered, so the body's separator test uses its name.
   */
  function ExtractAt(lines: seq<Line>, fastq: bool, c: Cursor, pos: nat): (r: (Extracted, Cursor))
    requires Fits(lines, c)
    ensures Fits(lines, r.1)
  {
    var c1 := Seek(lines, c, pos);
    if c1.failed then (Missing, c1)
    else
      var g := GetLineAt(lines, c1);
      if g.status == AtEof then (Missing, g.after)
      else if g.status == NotFastx then (Exited, g.after)
      else BodyAfter(lines, fastq, g)
  }

  /** getline, on the cursor. */
  method GetLineOf(f: FileLineBuffer, ghost lines: seq<Line>) returns (g: Status, line: Line)
    requires f.Valid() && f.input == lines
    modifies f, f.b
    ensures f.Valid() && f.input == lines && (f.b == old(f.b) || fresh(f.b))
    ensures Read(g, line, CursorOf(f)) == GetLineAt(lines, old(CursorOf(f))) && line == f.Line()
  {
    g := f.GetLine();
    line := f.Line();
  }

  /** seekg, then the header's getline unless the stream has failed. */
  method SeekHeader(f: FileLineBuffer, ghost lines: seq<Line>, pos: nat) returns (g: Status, header: Line)
    requires f.Valid() && f.input == lines
    modifies f, f.b
    ensures f.Valid() && f.input == lines && (f.b == old(f.b) || fresh(f.b))
    ensures var c1 := Seek(lines, old(CursorOf(f)), pos);
      if c1.failed then g == AtEof && CursorOf(f) == c1
      else Read(g, header, CursorOf(f)) == GetLineAt(lines, c1) && (g != AtEof ==> header == f.Line())
  {
    f.Seekg(pos);
    if f.Fail() {
      return AtEof, [];
    }
    g, header := GetLineOf(f, lines);
  }

  /** The body loop of either format after the header has been read. */
  method CopyBody(f: FileLineBuffer, ghost lines: seq<Line>, fastq: bool, header: Line) returns (e: Extracted)
    requires f.Valid() && f.input == lines && 1 <= f.row && f.col == 0 && f.lineCount >= 1 && !f.failed
    requires header == f.Line()
    modifies f, f.b
    ensures f.Valid() && f.input == lines && (f.b == old(f.b) || fresh(f.b))
    ensures (e, CursorOf(f)) == BodyAfter(lines, fastq, Read(Got, header, old(CursorOf(f))))
  {
    var body;
    if fastq {
      f.RegisterHeaderLine();
      body := CopyFastqBody(f, lines);
    } else {
      body := CopyFastaBody(f, lines);
    }
    return Printed([header] + body);
  }

  method ExtractRecord(f: FileLineBuffer, ghost lines: seq<Line>, fastq: bool, pos: nat) returns (e: Extracted)
    requires f.Valid() && f.input == lines
    modifies f, f.b
    ensures f.Valid() && f.input == lines && (f.b == old(f.b) || fresh(f.b))
    ensures (e, CursorOf(f)) == ExtractAt(lines, fastq, old(CursorOf(f)), pos)
  {
    var g, header := SeekHeader(f, lines, pos);
    if g == AtEof {
      return Missing;
    }
    if g == NotFastx {
      // exit(1)
      return Exited;
    }
    e := CopyBody(f, lines, fastq, header);
  }

  // ----- by name -----

  /** A warning of the name mode: the name is not in the index, or the file has no line at its offset. */
  datatype Note = NotFound(name: seq<char>) | MissingInFile(name: seq<char>)

  /** What a whole run prints and warns about, and whether it ended in exit(1). */
  datatype Extraction = Extraction(out: seq<Line>, notes: seq<Note>, exited: bool)

  function Then(out: seq<Line>, notes: seq<Note>, rest: Extraction): Extraction
  {
    Extraction(out + rest.out, notes + rest.notes, rest.exited)
  }

  lemma ThenThen(a: seq<Line>, b: seq<Note>, c: seq<Line>, d: seq<Note>, rest: Extraction)
    ensures Then(a, b, Then(c, d, rest)) == Then(a + c, b + d, rest)
  {
    assert a + (c + rest.out) == (a + c) + rest.out;
    assert b + (d + rest.notes) == (b + d) + rest.notes;
  }

  /** One name: what it prints, the warning it gives, whether it ends the program, and the stream after it. */
  datatype NameStep = NameStep(out: seq<Line>, notes: seq<Note>, exited: bool, after: Cursor)

  function LookUp(lines: seq<Line>, fastq: bool, idx: Index, name: seq<char>, c: Cursor): (st: NameStep)
    requires Fits(lines, c)
    ensures Fits(lines, st.after)
  {
    match LookupByName(idx, name)
    case None => NameStep([], [NotFound(name)], false, c)
    case Some(pos) =>
      var r := ExtractAt(lines, fastq, c, pos);
      match r.0
      case Exited => NameStep([], [], true, r.1)
      case Missing => NameStep([], [MissingInFile(name)], false, r.1)
      case Printed(out) => NameStep(out, [], false, r.1)
  }

  /** std::string's operator<: byte by byte, with a proper prefix first. */
  predicate Before(a: seq<char>, b: seq<char>)
    decreases |a|
  {
    |b| > 0 && (|a| == 0 || a[0] < b[0] || (a[0] == b[0] && Before(a[1..], b[1..])))
  }

  lemma {:induction false} BeforeIrreflexive(a: seq<char>)
    ensures !Before(a, a)
    decreases |a|
  {
    if |a| > 0 {
      BeforeIrreflexive(a[1..]);
    }
  }

  /** How a std::set<string> is iterated: in strictly increasing order. */
  predicate InSetOrder(names: seq<seq<char>>)
  {
    forall i, j {:trigger Before(names[i], names[j])} :: 0 <= i < j < |names| ==> Before(names[i], names[j])
  }

  /** Names in set order are distinct: each is looked up once. */
  lemma InSetOrderDistinct(names: seq<seq<char>>)
    requires InSetOrder(names)
    ensures forall i, j :: 0 <= i < j < |names| ==> names[i] != names[j]
  {
    forall i, j | 0 <= i < j < |names|
      ensures names[i] != names[j]
    {
      BeforeIrreflexive(names[i]);
    }
  }

  /** The name loop: the names in the order the set holds them, one lookup each, on one stream. */
  function ExtractNames(lines: seq<Line>, fastq: bool, idx: Index, names: seq<seq<char>>, c: Cursor): Extraction
    requires Fits(lines, c)
    decreases |names|
  {
    if |names| == 0 then Extraction([], [], false)
    else
      var st := LookUp(lines, fastq, idx, names[0], c);
      if st.exited then Extraction([], [], true)
      else Then(st.out, st.notes, ExtractNames(lines, fastq, idx, names[1..], st.after))
  }

  method LookUpName(f: FileLineBuffer, ghost lines: seq<Line>, fastq: bool, idx: Index, name: seq<char>)
      returns (out: seq<Line>, notes: seq<Note>, exited: bool)
    requires f.Valid() && f.input == lines
    modifies f, f.b
    ensures f.Valid() && f.input == lines && (f.b == old(f.b) || fresh(f.b))
    ensures NameStep(out, notes, exited, CursorOf(f)) == LookUp(lines, fastq, idx, name, old(CursorOf(f)))
  {
    var found := LookupByName(idx, name);
    if found.None? {
      return [], [NotFound(name)], false;
    }
    var e := ExtractRecord(f, lines, fastq, found.value);
    match e
    case Exited =>
      return [], [], true;
    case Missing =>
      return [], [MissingInFile(name)], false;
    case Printed(o) =>
      return o, [], false;
  }

  /** One turn of the name loop: the i-th lookup either ends the run or adds its output and warnings before the rest. */
  lemma NamesLoopStep(lines: seq<Line>, fastq: bool, idx: Index, names: seq<seq<char>>, i: nat, c: Cursor,
                      total: Extraction, out: seq<Line>, notes: seq<Note>, st: NameStep)
    requires i < |names| && Fits(lines, c) && st == LookUp(lines, fastq, idx, names[i], c)
    requires total == Then(out, notes, ExtractNames(lines, fastq, idx, names[i..], c))
    ensures st.exited ==> total == Extraction(out, notes, true)
    ensures !st.exited ==> total == Then(out + st.out, notes + st.notes, ExtractNames(lines, fastq, idx, names[i + 1..], st.after))
  {
    assert names[i..][0] == names[i] && names[i..][1..] == names[i + 1..];
    if st.exited {
      assert out + [] == out && notes + [] == notes;
    } else {
      ThenThen(out, notes, st.out, st.notes, ExtractNames(lines, fastq, idx, names[i + 1..], st.after));
    }
  }

  method ExtractByNames(f: FileLineBuffer, ghost lines: seq<Line>, fastq: bool, idx: Index, names: seq<seq<char>>)
      returns (res: Extraction)
    requires f.Valid() && f.input == lines && InSetOrder(names)
    modifies f, f.b
    ensures res == ExtractNames(lines, fastq, idx, names, old(CursorOf(f)))
  {
    ghost var total := ExtractNames(lines, fastq, idx, names, CursorOf(f));
    var out: seq<Line> := [];
    var notes: seq<Note> := [];
    var i := 0;
    assert names[0..] == names;
    assert [] + total.out == total.out && [] + total.notes == total.notes;
    while i < |names|
      invariant f.Valid() && f.input == lines && (f.b == old(f.b) || fresh(f.b))
      invariant i <= |names|
      invariant total == Then(out, notes, ExtractNames(lines, fastq, idx, names[i..], CursorOf(f)))
    {
      ghost var c := CursorOf(f);
      var o, n, exited := LookUpName(f, lines, fastq, idx, names[i]);
      NamesLoopStep(lines, fastq, idx, names, i, c, total, out, notes, NameStep(o, n, exited, CursorOf(f)));
      if exited {
        return Extraction(out, notes, true);
      }
      out, notes := out + o, notes + n;
      i := i + 1;
    }
    return Extraction(out, notes, false);
  }

  // ----- the name mode on a FASTA file, with the corrected table -----

  /** Where record i ends: at the next record's first line, or at the end of the file. */
  function NextStart(lines: seq<Line>, heads: seq<(nat, Line)>, i: nat): nat
    requires i < |heads|
  {
    if i + 1 < |heads| then heads[i + 1].0 else |lines|
  }

  /** The lines of FASTA record i as the file holds them: its header and everything up to the next record. */
  function FastaRecordLines(lines: seq<Line>, i: nat): seq<Line>
    requires |lines| >= 1 && i < |FileHeads(Fasta, lines)|
  {
    var h := FileHeads(Fasta, lines);
    HeadsOfRun(Fasta, NameAware, lines, |lines|);
    lines[h[i].0..NextStart(lines, h, i)]
  }

  /**
   * In a FASTA file the first '>' line after record i's header, or the end
   * of the file when there is none, is where record i ends.
   */
  lemma NextHeaderIsNextStart(lines: seq<Line>, heads: seq<(nat, Line)>, i: nat, e: nat)
    requires i < |heads| && heads[i].0 < e <= |lines| && HeadsWithin(lines, heads)
    requires forall a, b :: 0 <= a < b < |heads| ==> heads[a].0 < heads[b].0
    requires forall j :: 1 <= j < |lines| ==> (IsFastaHeader(lines[j]) <==> exists t :: 0 <= t < |heads| && heads[t].0 == j)
    requires forall j :: heads[i].0 < j < e ==> !IsFastaHeader(lines[j])
    requires e < |lines| ==> IsFastaHeader(lines[e])
    ensures e == NextStart(lines, heads, i)
  {
    if i + 1 < |heads| {
      var next := heads[i + 1].0;
      assert heads[i + 1].0 == next && 1 <= next < |lines|;
      assert IsFastaHeader(lines[next]);
      if e < |lines| {
        var t :| 0 <= t < |heads| && heads[t].0 == e;
        assert i < t;
        assert next <= e;
      }
    } else {
      forall t | 0 <= t < |heads|
        ensures heads[t].0 != e
      {
        if t < i {
          assert heads[t].0 < heads[i].0;
        }
      }
    }
  }

  /** The records of a FASTA file begin in increasing line order, and past line 0 exactly at its '>' lines. */
  lemma {:induction false} FastaFileHeads(lines: seq<Line>)
    requires |lines| >= 1
    ensures var heads := FileHeads(Fasta, lines);
      && (forall a, b :: 0 <= a < b < |heads| ==> heads[a].0 < heads[b].0)
      && (forall j :: 1 <= j < |lines| ==> (IsFastaHeader(lines[j]) <==> exists t :: 0 <= t < |heads| && heads[t].0 == j))
  {
    HeadsOfRun(Fasta, NameAware, lines, |lines|);
    FastaHeadsExact(NameAware, lines, |lines|);
  }

  /** The FASTA body loop after record j's header: the rest of record j, ending at the next header or the end of the file. */
  lemma {:induction false} FastaBodyOfRecord(lines: seq<Line>, j: nat)
    requires |lines| >= 1 && j < |FileHeads(Fasta, lines)|
    ensures var heads := FileHeads(Fasta, lines);
      var s := FastaBody(lines, heads[j].0 + 1);
      && heads[j].0 + 1 <= NextStart(lines, heads, j) <= |lines|
      && s.out == lines[heads[j].0 + 1..NextStart(lines, heads, j)]
      && (j + 1 < |heads| ==> !s.eof && s.end == heads[j + 1].0 + 1)
      && (j + 1 == |heads| ==> s.eof)
  {
    var heads := FileHeads(Fasta, lines);
    var h := heads[j].0;
    var s := FastaBody(lines, h + 1);
    var e := s.end - (if s.eof then 0 else 1);
    FastaFileHeads(lines);
    FastaBodySpan(lines, h + 1);
    NextHeaderIsNextStart(lines, heads, j, e);
    if j + 1 < |heads| {
      assert heads[j + 1].0 < |lines|;
    }
  }

  lemma FastaBodyReachesNextRecord(lines: seq<Line>, i: nat)
    requires |lines| >= 1 && i < |FileHeads(Fasta, lines)|
    ensures var h := FileHeads(Fasta, lines)[i];
      [lines[h.0]] + FastaBody(lines, h.0 + 1).out == FastaRecordLines(lines, i)
  {
    var heads := FileHeads(Fasta, lines);
    var h := heads[i];
    FastaBodyOfRecord(lines, i);
    var e := NextStart(lines, heads, i);
    assert lines[h.0..e] == [lines[h.0]] + lines[h.0 + 1..e];
  }

  /**
   * With the corrected table, looking up the name of FASTA record i from a
   * stream that has not failed prints exactly that record.
   */
  lemma CorrectedFastaLookUp(lines: seq<Line>, i: nat, c: Cursor)
    requires |lines| >= 1 && IsFastaHeader(lines[0])
    requires CorrectedFileIndex(Fasta, lines).Ok? && i < |FileHeads(Fasta, lines)|
    requires Fits(lines, c) && !c.failed
    ensures var st := LookUp(lines, false, CorrectedFileIndex(Fasta, lines).value, ReadName(FileHeads(Fasta, lines)[i].1), c);
      st.out == FastaRecordLines(lines, i) && st.notes == [] && !st.exited
  {
    var heads := FileHeads(Fasta, lines);
    var h := heads[i];
    CorrectedLookupLandsOnHeader(Fasta, lines, i);
    FastaFileHeads(lines);
    assert IsFastaHeader(lines[h.0]);
    assert lines[h.0][0..] == lines[h.0];
    FastaBodyReachesNextRecord(lines, i);
  }

  /** A name that no record of the file carries is reported as not found, and the stream stays as it was. */
  lemma CorrectedNameAbsent(fmt: Format, lines: seq<Line>, fastq: bool, name: seq<char>, c: Cursor)
    requires |lines| >= 1 && CorrectedFileIndex(fmt, lines).Ok? && Fits(lines, c)
    requires forall i :: 0 <= i < |FileHeads(fmt, lines)| ==> ReadName(FileHeads(fmt, lines)[i].1) != name
    ensures LookUp(lines, fastq, CorrectedFileIndex(fmt, lines).value, name, c) == NameStep([], [NotFound(name)], false, c)
  {
    var heads := FileHeads(fmt, lines);
    var es := HeaderEntries(lines, heads);
    LookupByNameBuilt(es, name);
    forall i | 0 <= i < |es|
      ensures es[i].name != name
    {
      HeaderEntriesAt(lines, heads, i);
    }
  }

  /** The name loop as evidently intended: the stream's error state is cleared before every seekg. */
  function ExtractNamesCleared(lines: seq<Line>, fastq: bool, idx: Index, names: seq<seq<char>>, c: Cursor): Extraction
    requires Fits(lines, c)
    decreases |names|
  {
    if |names| == 0 then Extraction([], [], false)
    else
      var st := LookUp(lines, fastq, idx, names[0], c.(failed := false));
      if st.exited then Extraction([], [], true)
      else Then(st.out, st.notes, ExtractNamesCleared(lines, fastq, idx, names[1..], st.after))
  }

  predicate ValidPicks(lines: seq<Line>, picks: seq<nat>)
    requires |lines| >= 1
  {
    forall k :: 0 <= k < |picks| ==> picks[k] < |FileHeads(Fasta, lines)|
  }

  /** The names of the FASTA records picked by ordinal. */
  function PickedNames(lines: seq<Line>, picks: seq<nat>): seq<seq<char>>
    requires |lines| >= 1 && ValidPicks(lines, picks)
  {
    seq(|picks|, k requires 0 <= k < |picks| => ReadName(FileHeads(Fasta, lines)[picks[k]].1))
  }

  /** The picked FASTA records' lines, one record after the other. */
  function PickedRecordLines(lines: seq<Line>, picks: seq<nat>): seq<Line>
    requires |lines| >= 1 && ValidPicks(lines, picks)
    decreases |picks|
  {
    if |picks| == 0 then [] else FastaRecordLines(lines, picks[0]) + PickedRecordLines(lines, picks[1..])
  }

  /**
   * With the corrected table and the cleared stream, asking for the names
   * of any records of a FASTA file, in any order, prints exactly those
   * records, in that order, with no warning.
   */
  lemma {:induction false} CorrectedNamesAllPrinted(lines: seq<Line>, picks: seq<nat>, c: Cursor)
    requires |lines| >= 1 && IsFastaHeader(lines[0]) && CorrectedFileIndex(Fasta, lines).Ok?
    requires ValidPicks(lines, picks) && Fits(lines, c)
    ensures ExtractNamesCleared(lines, false, CorrectedFileIndex(Fasta, lines).value, PickedNames(lines, picks), c)
      == Extraction(PickedRecordLines(lines, picks), [], false)
    decreases |picks|
  {
    if |picks| > 0 {
      var idx := CorrectedFileIndex(Fasta, lines).value;
      var names := PickedNames(lines, picks);
      assert names[1..] == PickedNames(lines, picks[1..]);
      var c0 := c.(failed := false);
      CorrectedFastaLookUp(lines, picks[0], c0);
      var st := LookUp(lines, false, idx, names[0], c0);
      CorrectedNamesAllPrinted(lines, picks[1..], st.after);
      assert FastaRecordLines(lines, picks[0]) + PickedRecordLines(lines, picks[1..]) == PickedRecordLines(lines, picks);
    }
  }

  /**
   * A FASTA file whose last record, b, follows a header with no sequence
   * line. The table create_index builds puts b at byte 3, which is where
   * its header starts, so the offset bug of src/fatt.cc:561 does not
   * show here and the table is also the corrected one.
   */
  const StickyFasta: seq<Line> := [">c", ">b", "CC"]
  const StickyIndex := Index(map["c" := 0, "b" := 3], [Row("c", 0, 0), Row("b", 3, 1)])

  lemma StickyFastaIndex()
    ensures FileHeads(Fasta, StickyFasta) == [(0, ">c"), (1, ">b")]
    ensures FileIndex(Fasta, StickyFasta) == Ok(StickyIndex)
    ensures CorrectedFileIndex(Fasta, StickyFasta) == Ok(StickyIndex)
  {
    var lines := StickyFasta;
    assert ">c"[1..] == "c";
    assert ">b"[1..] == "b";
    assert ReadName(">c") == "c" && ReadName(">b") == "b";
    var m3 := FastaStep(FastaStep(Start(lines[0]), lines[1], 1), lines[2], 2);
    assert Run(Fasta, NameAware, lines, 3) == m3;
    assert Heads(Records(m3)) == [(0, ">c"), (1, ">b")];
    var heads := FileHeads(Fasta, lines);
    assert heads == [(0, ">c"), (1, ">b")];
    assert heads[..1] == [(0, ">c")];
    assert [(0, ">c")][..0] == [];
    assert Offset(lines, 1) == 3 && Offset(lines, 0) == 0;
    assert Entries(Fasta, lines, heads) == [Entry("c", 0), Entry("b", 3)];
    HeaderEntriesAt(lines, heads, 0);
    HeaderEntriesAt(lines, heads, 1);
    var es := HeaderEntries(lines, heads);
    assert es[0] == Entry("c", 0) && es[1] == Entry("b", 3);
    assert es == [Entry("c", 0), Entry("b", 3)];
    BuildIndexPair(Entry("c", 0), Entry("b", 3));
  }

  /** The header of b sits at byte 3; reading it from a fresh stream is the first getline. */
  lemma StickyHeaderB()
    ensures Seek(StickyFasta, Opened, 3) == Cursor(1, 0, false, 0, [])
    ensures GetLineAt(StickyFasta, Cursor(1, 0, false, 0, [])) == Read(Got, ">b", Cursor(2, 0, false, 1, []))
  {
    var lines := StickyFasta;
    LocateOffset(lines, 1);
    assert Offset(lines, 1) == 3;
    assert ">b"[0..] == ">b";
  }

  /** Looking up b, the last record, prints it and leaves the stream failed at the end of the file. */
  lemma StickyLookUpB()
    ensures LookUp(StickyFasta, false, StickyIndex, "b", Opened) == NameStep([">b", "CC"], [], false, Cursor(3, 0, true, 2, []))
  {
    StickyHeaderB();
    assert LookupByName(StickyIndex, "b") == Some(3);
    assert FastaBody(StickyFasta, 2) == Span(["CC"], 3, true);
  }

  /** Once the stream has failed, the lookup of c seeks nowhere and reports it missing. */
  lemma StickyLookUpFailed()
    ensures LookUp(StickyFasta, false, StickyIndex, "c", Cursor(3, 0, true, 2, [])) == NameStep([], [MissingInFile("c")], false, Cursor(3, 0, true, 2, []))
  {
    assert LookupByName(StickyIndex, "c") == Some(0);
  }

  /** Two names are in set order exactly when the first sorts before the second. */
  lemma SetOrderPair(x: seq<char>, y: seq<char>)
    ensures InSetOrder([x, y]) <==> Before(x, y)
  {
    var xy := [x, y];
    assert xy[0] == x && xy[1] == y;
  }

  /** A set holding a and b yields a first. */
  lemma SetOrderExample()
    ensures InSetOrder(["a", "b"]) && !InSetOrder(["b", "a"])
  {
    var ab: seq<seq<char>> := ["a", "b"];
    var ba: seq<seq<char>> := ["b", "a"];
    assert Before(ab[0], ab[1]);
    assert !Before(ba[0], ba[1]);
  }

  /**
   * The names are visited in sorted order, so record b, the last one, is
   * copied first; its body loop reads to the end of the file and sets the
   * failbit, the following seekg to c is then a no-op, and c, which is in
   * the file, is reported missing. The table is the one create_index
   * builds.
   */
  lemma StickyFailbitExample()
    ensures InSetOrder(["b", "c"])
    ensures FileIndex(Fasta, StickyFasta) == Ok(StickyIndex)
    ensures ExtractNames(StickyFasta, false, StickyIndex, ["b", "c"], Opened) == Extraction([">b", "CC"], [MissingInFile("c")], false)
  {
    StickyFastaIndex();
    SetOrderPair("b", "c");
    var after := Cursor(3, 0, true, 2, []);
    StickyLookUpB();
    StickyLookUpFailed();
    NamesPair(StickyFasta, false, StickyIndex, "b", "c", Opened,
      NameStep([">b", "CC"], [], false, after), NameStep([], [MissingInFile("c")], false, after));
    assert [">b", "CC"] + [] == [">b", "CC"];
  }

  /** Two names looked up one after the other, as the name loop does. */
  lemma NamesPair(lines: seq<Line>, fastq: bool, idx: Index, x: seq<char>, y: seq<char>, c: Cursor, st1: NameStep, st2: NameStep)
    requires Fits(lines, c)
    requires LookUp(lines, fastq, idx, x, c) == st1 && !st1.exited
    requires LookUp(lines, fastq, idx, y, st1.after) == st2 && !st2.exited
    ensures ExtractNames(lines, fastq, idx, [x, y], c) == Extraction(st1.out + st2.out, st1.notes + st2.notes, false)
  {
    var xy := [x, y];
    assert xy[0] == x && xy[1..] == [y];
    assert ExtractNames(lines, fastq, idx, [y], st1.after) == Extraction(st2.out, st2.notes, false) by {
      assert [y][0] == y && [y][1..] == [];
      assert st2.out + [] == st2.out && st2.notes + [] == st2.notes;
    }
  }

  /** Looking up c from the end of the file, once the failbit is cleared, prints its header, which is all of it. */
  lemma StickyLookUpC()
    ensures LookUp(StickyFasta, false, StickyIndex, "c", Cursor(3, 0, false, 2, [])) == NameStep([">c"], [], false, Cursor(2, 0, false, 4, []))
  {
    var lines := StickyFasta;
    LocateOffset(lines, 0);
    assert ">c"[0..] == ">c";
    assert LookupByName(StickyIndex, "c") == Some(0);
    assert FastaBody(lines, 1) == Span([], 2, false);
  }

  /** With the stream cleared before each seekg, the same request prints both records. */
  lemma ClearedStreamExample()
    ensures ExtractNamesCleared(StickyFasta, false, StickyIndex, ["b", "c"], Opened) == Extraction([">b", "CC", ">c"], [], false)
  {
    var failed := Cursor(3, 0, true, 2, []);
    StickyLookUpB();
    StickyLookUpC();
    assert Opened.(failed := false) == Opened;
    assert failed.(failed := false) == Cursor(3, 0, false, 2, []);
    ClearedPair(StickyFasta, false, StickyIndex, "b", "c", Opened,
      NameStep([">b", "CC"], [], false, failed), NameStep([">c"], [], false, Cursor(2, 0, false, 4, [])));
    assert [">b", "CC"] + [">c"] == [">b", "CC", ">c"];
  }

  /** Two names looked up one after the other from a stream cleared before each seekg. */
  lemma ClearedPair(lines: seq<Line>, fastq: bool, idx: Index, x: seq<char>, y: seq<char>, c: Cursor, st1: NameStep, st2: NameStep)
    requires Fits(lines, c)
    requires LookUp(lines, fastq, idx, x, c.(failed := false)) == st1 && !st1.exited
    requires LookUp(lines, fastq, idx, y, st1.after.(failed := false)) == st2 && !st2.exited
    ensures ExtractNamesCleared(lines, fastq, idx, [x, y], c) == Extraction(st1.out + st2.out, st1.notes + st2.notes, false)
  {
    var xy := [x, y];
    assert xy[0] == x && xy[1..] == [y];
    assert ExtractNamesCleared(lines, fastq, idx, [y], st1.after) == Extraction(st2.out, st2.notes, false) by {
      assert [y][0] == y && [y][1..] == [];
      assert st2.out + [] == st2.out && st2.notes + [] == st2.notes;
    }
  }

  // ----- by ordinal -----

  /**
   * How the range mode ends: normally (the end ordinal or the end of the
   * file), the start ordinal past the table, no line at the start offset,
   * the end of the file where a FASTQ header was due, a line other than a
   * header there, or exit(1). The third warns and goes on with the next
   * file; the fourth and fifth end do_extract.
   */
  datatype RangeStop = RangeDone | StartTooLarge | CannotSeek | ReachedEof | BadFormat | RangeExited

  datatype Ranged = Ranged(out: seq<Line>, stop: RangeStop)

  function RPrepend(x: seq<Line>, r: Ranged): Ranged
  {
    r.(out := x + r.out)
  }

  lemma RPrependRPrepend(a: seq<Line>, b: seq<Line>, r: Ranged)
    ensures RPrepend(a, RPrepend(b, r)) == RPrepend(a + b, r)
  {
    assert a + (b + r.out) == (a + b) + r.out;
  }

  /**
   * The FASTQ range loop from row r, the record with ordinal seqIndex
   * under way and nread nucleotides counted. After each quality block the
   * ordinal advances and the loop stops once it reaches `stop`; otherwise
   * the next line must be a FASTQ header, after which the count starts
   * again from 0. Only the first header is registered, so `id` stays the
   * first record's name.
   */
  function FastqRange(lines: seq<Line>, r: nat, id: seq<char>, nread: nat, seqIndex: int, stop: int): Ranged
    requires r <= |lines|
    decreases |lines| - r
  {
    if r == |lines| then Ranged([], RangeDone)
    else
      var x := lines[r];
      if IsSeparator(NameAware, x, id) then
        var q := QualityFrom(lines, r + 1, nread);
        var block := [x] + q.out;
        if stop <= seqIndex + 1 then Ranged(block, RangeDone)
        else if q.end == |lines| then Ranged(block, ReachedEof)
        else if !IsFastqHeader(lines[q.end]) then Ranged(block, BadFormat)
        else RPrepend(block + [lines[q.end]], FastqRange(lines, q.end + 1, id, 0, seqIndex + 1, stop))
      else RPrepend([x], FastqRange(lines, r + 1, id, nread + |x|, seqIndex, stop))
  }

  /** The FASTA range loop from row r: every '>' line advances the ordinal, and the one that reaches `stop` ends it. */
  function FastaRange(lines: seq<Line>, r: nat, seqIndex: int, stop: int): Ranged
    requires r <= |lines|
    decreases |lines| - r
  {
    if r == |lines| then Ranged([], RangeDone)
    else
      var x := lines[r];
      if IsFastaHeader(x) && stop <= seqIndex + 1 then Ranged([], RangeDone)
      else RPrepend([x], FastaRange(lines, r + 1, if IsFastaHeader(x) then seqIndex + 1 else seqIndex, stop))
  }

  /** The range mode: the row at ordinal `start`, then records until ordinal `stop`. */
  function ExtractRange(lines: seq<Line>, fastq: bool, idx: Index, start: int, stop: int, c: Cursor): Ranged
    requires Fits(lines, c)
  {
    match LookupByOrdinal(idx, start)
    case None => Ranged([], StartTooLarge)
    case Some(pos) =>
      var c1 := Seek(lines, c, pos);
      if c1.failed then Ranged([], CannotSeek)
      else
        var g := GetLineAt(lines, c1);
        if g.status == AtEof then Ranged([], CannotSeek)
        else if g.status == NotFastx then Ranged([], RangeExited)
        else if fastq then
          var id := if |g.line| == 0 then g.after.id else ReadName(g.line);
          RPrepend([g.line], FastqRange(lines, g.after.row, id, 0, start, stop))
        else RPrepend([g.line], FastaRange(lines, g.after.row, start, stop))
  }

  /**
   * The FASTQ range loop after a separator x at row r: the quality block,
   * the ordinal step, and the next header. `next` is None when the loop
   * goes on from the row after that header.
   */
  method RangeRecordEnd(f: FileLineBuffer, ghost lines: seq<Line>, x: Line, nread: nat, seqIndex: int, stop: int)
      returns (block: seq<Line>, next: Option<RangeStop>)
    requires f.Valid() && f.input == lines && f.col == 0 && f.lineCount >= 1 && !f.failed && 1 <= f.row
    requires x == lines[f.row - 1] && IsSeparator(NameAware, x, f.headerID)
    modifies f, f.b
    ensures f.Valid() && f.input == lines && f.col == 0 && f.lineCount >= 1 && (f.b == old(f.b) || fresh(f.b))
    ensures f.headerID == old(f.headerID) && old(f.row) <= f.row && (next.None? ==> old(f.row) < f.row)
    ensures next.Some? ==> FastqRange(lines, old(f.row) - 1, f.headerID, nread, seqIndex, stop) == Ranged(block, next.value)
    ensures next.None? ==>
      FastqRange(lines, old(f.row) - 1, f.headerID, nread, seqIndex, stop) == RPrepend(block, FastqRange(lines, f.row, f.headerID, 0, seqIndex + 1, stop))
  {
    var q := CopyQuality(f, lines, nread);
    block := [x] + q;
    if stop <= seqIndex + 1 {
      return block, Some(RangeDone);
    }
    var got := ReadOn(f);
    if !got {
      return block, Some(ReachedEof);
    }
    if !f.LooksLikeFastqHeader() {
      return block, Some(BadFormat);
    }
    block := block + [f.Line()];
    next := None;
  }

  /** A line that is not a separator is copied and counted, and the loop goes on. */
  lemma RangeSequenceLine(lines: seq<Line>, r: nat, id: seq<char>, nread: nat, seqIndex: int, stop: int)
    requires r < |lines| && !IsSeparator(NameAware, lines[r], id)
    ensures FastqRange(lines, r, id, nread, seqIndex, stop) == RPrepend([lines[r]], FastqRange(lines, r + 1, id, nread + |lines[r]|, seqIndex, stop))
  {
  }

  method RangeFastq(f: FileLineBuffer, ghost lines: seq<Line>, start: int, stop: int) returns (res: Ranged)
    requires f.Valid() && f.input == lines && f.col == 0 && f.lineCount >= 1
    modifies f, f.b
    ensures res == FastqRange(lines, old(f.row), old(f.headerID), 0, start, stop)
  {
    ghost var r0 := f.row;
    ghost var id := f.headerID;
    var out: seq<Line> := [];
    var nread: nat := 0;
    var seqIndex := start;
    while true
      invariant f.Valid() && f.input == lines && f.col == 0 && f.lineCount >= 1 && (f.b == old(f.b) || fresh(f.b))
      invariant f.headerID == id
      invariant FastqRange(lines, r0, id, 0, start, stop) == RPrepend(out, FastqRange(lines, f.row, id, nread, seqIndex, stop))
      decreases |lines| - f.row
    {
      ghost var k := f.row;
      var got := ReadOn(f);
      if !got {
        break;
      }
      var x := f.Line();
      if f.LooksLikeFastqSeparator() {
        var block, next := RangeRecordEnd(f, lines, x, nread, seqIndex, stop);
        if next.Some? {
          RPrependRPrepend(out, block, Ranged([], next.value));
          return Ranged(out + block, next.value);
        }
        RPrependRPrepend(out, block, FastqRange(lines, f.row, id, 0, seqIndex + 1, stop));
        out := out + block;
        seqIndex := seqIndex + 1;
        nread := 0;
      } else {
        RangeSequenceLine(lines, k, id, nread, seqIndex, stop);
        RPrependRPrepend(out, [x], FastqRange(lines, f.row, id, nread + f.Len(), seqIndex, stop));
        nread := nread + f.Len();
        out := out + [x];
      }
    }
    return Ranged(out, RangeDone);
  }

  method RangeFasta(f: FileLineBuffer, ghost lines: seq<Line>, start: int, stop: int) returns (res: Ranged)
    requires f.Valid() && f.input == lines && f.col == 0 && f.lineCount >= 1
    modifies f, f.b
    ensures res == FastaRange(lines, old(f.row), start, stop)
  {
    ghost var r0 := f.row;
    var out: seq<Line> := [];
    var seqIndex := start;
    while true
      invariant f.Valid() && f.input == lines && f.col == 0 && f.lineCount >= 1 && (f.b == old(f.b) || fresh(f.b))
      invariant FastaRange(lines, r0, start, stop) == RPrepend(out, FastaRange(lines, f.row, seqIndex, stop))
      decreases |lines| - f.row
    {
      var got := ReadOn(f);
      if !got {
        break;
      }
      var x := f.Line();
      if f.LooksLikeFastaHeader() {
        if stop <= seqIndex + 1 {
          break;
        }
        RPrependRPrepend(out, [x], FastaRange(lines, f.row, seqIndex + 1, stop));
        seqIndex := seqIndex + 1;
      } else {
        RPrependRPrepend(out, [x], FastaRange(lines, f.row, seqIndex, stop));
      }
      out := out + [x];
    }
    return Ranged(out, RangeDone);
  }

  method ExtractByRange(f: FileLineBuffer, ghost lines: seq<Line>, fastq: bool, idx: Index, start: int, stop: int)
      returns (res: Ranged)
    requires f.Valid() && f.input == lines
    modifies f, f.b
    ensures res == ExtractRange(lines, fastq, idx, start, stop, old(CursorOf(f)))
  {
    var found := LookupByOrdinal(idx, start);
    if found.None? {
      return Ranged([], StartTooLarge);
    }
    var g, header := SeekHeader(f, lines, found.value);
    if g == AtEof {
      return Ranged([], CannotSeek);
    }
    if g == NotFastx {
      // exit(1)
      return Ranged([], RangeExited);
    }
    var rest;
    if fastq {
      f.RegisterHeaderLine();
      rest := RangeFastq(f, lines, start, stop);
    } else {
      rest := RangeFasta(f, lines, start, stop);
    }
    return RPrepend([header], rest);
  }

  // ----- one file -----

  /** is_file_fastq: the first line starts with '@'. */
  predicate IsFileFastq(lines: seq<Line>)
  {
    |lines| > 0 && IsFastqHeader(lines[0])
  }

  datatype ExtractOutcome = ExtractCannotOpen | ByName(names: Extraction) | ByRange(range: Ranged)

  /** The freshly opened stream. */
  const Opened := Cursor(0, 0, false, 0, [])

  /**
   * do_extract with an index on one file: the name mode when no --start was
   * given (start == -1), the range mode otherwise.
   */
  function ExtractFromIndex(file: Option<seq<Line>>, idx: Index, names: seq<seq<char>>, start: int, stop: int): ExtractOutcome
  {
    match file
    case None => ExtractCannotOpen
    case Some(lines) =>
      if start == -1 then ByName(ExtractNames(lines, IsFileFastq(lines), idx, names, Opened))
      else ByRange(ExtractRange(lines, IsFileFastq(lines), idx, start, stop, Opened))
  }

  method ExtractWithIndex(file: Option<seq<Line>>, idx: Index, names: seq<seq<char>>, start: int, stop: int)
      returns (out: ExtractOutcome)
    requires InSetOrder(names)
    ensures out == ExtractFromIndex(file, idx, names, start, stop)
  {
    var f := new FileLineBuffer();
    var ok := f.Open(file);
    if !ok {
      return ExtractCannotOpen;
    }
    ghost var lines := f.input;
    var fastq := |file.value| > 0 && IsFastqHeader(file.value[0]);
    if start == -1 {
      var res := ExtractByNames(f, lines, fastq, idx, names);
      out := ByName(res);
    } else {
      var res := ExtractByRange(f, lines, fastq, idx, start, stop);
      out := ByRange(res);
    }
  }
}
