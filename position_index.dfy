/**
 * create_index (src/fatt.cc): the position index `fatt index` writes next
 * to a FASTA/FASTQ file, one row (name, pos, readindex) per record, the
 * name being the primary key; and DeleteOnFailure, which removes the index
 * file unless the build reached its end. The SQLite table is modelled as a
 * map from name to offset plus the rows in insertion order; the file system
 * as the set of existing paths.
 */
module PositionIndex {
  import opened Wrappers
  import opened Text
  import opened LineSource
  import opened FastxScan
  import opened FattScan

  /** get_index_file_name: the file name with ".index" appended. */
  function IndexFileName(fileName: seq<char>): (r: seq<char>)
    ensures |r| == |fileName| + 6 && r[..|fileName|] == fileName && r[|fileName|..] == ".index"
  {
    fileName + ".index"
  }

  /** Two files never share an index file. */
  lemma IndexFileNameInjective(a: seq<char>, b: seq<char>)
    requires IndexFileName(a) == IndexFileName(b)
    ensures a == b
  {
    assert a == IndexFileName(a)[..|a|];
    assert b == IndexFileName(b)[..|b|];
  }

  // ----- the seqpos table -----

  /** One row of `seqpos(name text primary key, pos integer, readindex integer)`. */
  datatype Row = Row(name: seq<char>, pos: nat, readindex: int)

  /** The table: the primary-key map from name to pos, and the rows in insertion order. */
  datatype Index = Index(byName: map<seq<char>, nat>, rows: seq<Row>)

  const EmptyIndex := Index(map[], [])

  /** An insert; a name already present violates the primary key and the statement fails. */
  function Insert(idx: Index, r: Row): Result<Index, seq<char>>
  {
    if r.name in idx.byName then Err(r.name)
    else Ok(Index(idx.byName[r.name := r.pos], idx.rows + [r]))
  }

  /** What the scan hands to each insert: the record's name and the offset recorded for it. */
  datatype Entry = Entry(name: seq<char>, pos: nat)

  /** The table after inserting the entries in order, readindex counting from 0; the first duplicate name stops it. */
  function BuildIndex(es: seq<Entry>): Result<Index, seq<char>>
  {
    if |es| == 0 then Ok(EmptyIndex)
    else match BuildIndex(es[..|es| - 1])
      case Err(d) => Err(d)
      case Ok(idx) => Insert(idx, Row(es[|es| - 1].name, es[|es| - 1].pos, |es| - 1))
  }

  lemma BuildIndexSnoc(es: seq<Entry>, e: Entry)
    ensures BuildIndex(es + [e]) == match BuildIndex(es)
      case Err(d) => Err(d)
      case Ok(idx) => Insert(idx, Row(e.name, e.pos, |es|))
  {
    assert (es + [e])[..|es|] == es;
  }

  predicate DistinctNames(es: seq<Entry>)
  {
    forall i, j :: 0 <= i < j < |es| ==> es[i].name != es[j].name
  }

  /** The names among the entries. */
  function Names(es: seq<Entry>): set<seq<char>>
  {
    if |es| == 0 then {} else Names(es[..|es| - 1]) + {es[|es| - 1].name}
  }

  lemma {:induction false} NamesMembership(es: seq<Entry>, n: seq<char>)
    ensures n in Names(es) <==> exists i :: 0 <= i < |es| && es[i].name == n
  {
    if |es| > 0 {
      var p := es[..|es| - 1];
      NamesMembership(p, n);
      if n in Names(p) {
        var i :| 0 <= i < |p| && p[i].name == n;
        assert es[i] == p[i];
      } else if n != es[|es| - 1].name {
        forall i | 0 <= i < |es|
          ensures es[i].name != n
        {
          if i < |p| {
            assert es[i] == p[i];
          }
        }
      }
    }
  }

  /**
   * A built table holds one row per entry in order, with readindex its
   * position, keys exactly the entries' names, and maps each name to its
   * entry's offset.
   */
  lemma {:induction false} BuildIndexRows(es: seq<Entry>)
    requires BuildIndex(es).Ok?
    ensures var idx := BuildIndex(es).value;
      && |idx.rows| == |es|
      && (forall i :: 0 <= i < |es| ==> idx.rows[i] == Row(es[i].name, es[i].pos, i))
      && idx.byName.Keys == Names(es)
      && (forall i :: 0 <= i < |es| ==> es[i].name in idx.byName && idx.byName[es[i].name] == es[i].pos)
  {
    if |es| > 0 {
      var p := es[..|es| - 1];
      var e := es[|es| - 1];
      BuildIndexRows(p);
      assert forall i :: 0 <= i < |p| ==> es[i] == p[i];
      var idx := BuildIndex(p).value;
      assert e.name !in idx.byName;
      forall i | 0 <= i < |p|
        ensures es[i].name != e.name
      {
        NamesMembership(p, es[i].name);
      }
    }
  }

  /** The table is built exactly when the names are distinct; otherwise the error names a duplicate. */
  lemma {:induction false} BuildIndexOk(es: seq<Entry>)
    ensures BuildIndex(es).Ok? <==> DistinctNames(es)
    ensures BuildIndex(es).Err? ==> exists i, j :: 0 <= i < j < |es| && es[i].name == es[j].name == BuildIndex(es).error
  {
    if |es| > 0 {
      var p := es[..|es| - 1];
      var e := es[|es| - 1];
      BuildIndexOk(p);
      assert forall i :: 0 <= i < |p| ==> es[i] == p[i];
      match BuildIndex(p)
      case Err(d) =>
        var i, j :| 0 <= i < j < |p| && p[i].name == p[j].name == d;
        assert es[i] == p[i] && es[j] == p[j];
      case Ok(idx) =>
        BuildIndexRows(p);
        NamesMembership(p, e.name);
        if e.name in idx.byName {
          var i :| 0 <= i < |p| && p[i].name == e.name;
          assert es[i].name == es[|es| - 1].name;
        } else {
          forall i, j | 0 <= i < j < |es|
            ensures es[i].name != es[j].name
          {
            if j == |es| - 1 {
              assert es[i] == p[i];
            } else {
              assert es[i] == p[i] && es[j] == p[j];
            }
          }
        }
    }
  }

  /** Once an insert fails the build stops: entries after it change nothing. */
  lemma {:induction false} BuildIndexErrSticks(a: seq<Entry>, b: seq<Entry>)
    requires BuildIndex(a).Err?
    ensures BuildIndex(a + b) == BuildIndex(a)
    decreases |b|
  {
    if |b| > 0 {
      var b' := b[..|b| - 1];
      assert a + b == (a + b') + [b[|b| - 1]];
      BuildIndexErrSticks(a, b');
      BuildIndexSnoc(a + b', b[|b| - 1]);
    } else {
      assert a + b == a;
    }
  }

  // ----- what create_index inserts -----

  predicate HeadsWithin(lines: seq<Line>, heads: seq<(nat, Line)>)
  {
    forall i :: 0 <= i < |heads| ==> heads[i].0 < |lines|
  }

  /**
   * The offset create_index inserts for the record whose header is line k.
   * FASTQ: the offset of that line (tellg before its getline). FASTA: 0 for
   * the first record and the offset of line 1 for every later one, because
   * last_pos is taken once, after the first line.
   */
  function InsertedPos(fmt: Format, lines: seq<Line>, k: nat): nat
    requires 1 <= |lines| && k < |lines|
  {
    if fmt == Fastq || k == 0 then Offset(lines, k) else Offset(lines, 1)
  }

  /** The entries create_index inserts for the records beginning at `heads`. */
  function Entries(fmt: Format, lines: seq<Line>, heads: seq<(nat, Line)>): seq<Entry>
    requires |lines| >= 1 && HeadsWithin(lines, heads)
  {
    if |heads| == 0 then []
    else
      var last := heads[|heads| - 1];
      Entries(fmt, lines, heads[..|heads| - 1]) + [Entry(ReadName(last.1), InsertedPos(fmt, lines, last.0))]
  }

  lemma EntriesSnoc(fmt: Format, lines: seq<Line>, heads: seq<(nat, Line)>, h: (nat, Line))
    requires |lines| >= 1 && HeadsWithin(lines, heads) && h.0 < |lines|
    ensures HeadsWithin(lines, heads + [h])
    ensures Entries(fmt, lines, heads + [h]) == Entries(fmt, lines, heads) + [Entry(ReadName(h.1), InsertedPos(fmt, lines, h.0))]
  {
    assert (heads + [h])[..|heads|] == heads;
  }

  lemma {:induction false} EntriesPrefix(fmt: Format, lines: seq<Line>, a: seq<(nat, Line)>, b: seq<(nat, Line)>)
    requires |lines| >= 1 && HeadsWithin(lines, b) && a <= b
    ensures HeadsWithin(lines, a)
    ensures Entries(fmt, lines, a) <= Entries(fmt, lines, b)
    decreases |b|
  {
    if |a| < |b| {
      var b' := b[..|b| - 1];
      assert a <= b';
      EntriesPrefix(fmt, lines, a, b');
    } else {
      assert a == b;
    }
  }

  /** The record heads of a whole file, with the facts every use of them needs. */
  function FileHeads(fmt: Format, lines: seq<Line>): (h: seq<(nat, Line)>)
    requires |lines| >= 1
    ensures HeadsWithin(lines, h)
    ensures h == Heads(Records(Run(fmt, NameAware, lines, |lines|)))
  {
    HeadsOfRun(fmt, NameAware, lines, |lines|);
    Heads(Records(Run(fmt, NameAware, lines, |lines|)))
  }

  /** The table create_index builds for a file whose first line decided `fmt`. */
  function FileIndex(fmt: Format, lines: seq<Line>): Result<Index, seq<char>>
    requires |lines| >= 1
  {
    BuildIndex(Entries(fmt, lines, FileHeads(fmt, lines)))
  }

  datatype IndexOutcome =
    | IndexExists               // the index file was already there; nothing is done
    | IndexCannotOpen           // the input cannot be opened
    | IndexNotFastx             // the first line is neither FASTA nor FASTQ: exit(1)
    | IndexDuplicate(name: seq<char>)  // an insert violated the primary key
    | IndexBuilt(index: Index)

  /** What create_index does, given whether the index file exists and the input file. */
  function CreateIndexSpec(indexExists: bool, file: Option<seq<Line>>): IndexOutcome
  {
    if indexExists then IndexExists
    else if file.None? then IndexCannotOpen
    else if |file.value| == 0 then IndexBuilt(EmptyIndex)
    else match FirstLineFormat(file.value[0])
      case None => IndexNotFastx
      case Some(fmt) =>
        match FileIndex(fmt, file.value)
        case Err(d) => IndexDuplicate(d)
        case Ok(idx) => IndexBuilt(idx)
  }

  /**
   * Whether the index file exists afterwards. DeleteOnFailure removes it on
   * every early return and on a failed insert; exit(1) runs no destructor,
   * so a file that is neither FASTA nor FASTQ leaves it behind.
   */
  predicate IndexFileRemains(out: IndexOutcome)
  {
    out.IndexExists? || out.IndexNotFastx? || out.IndexBuilt?
  }

  // ----- the imperative builder -----

  /** The paths that exist. */
  class FileSystem {
    var files: set<seq<char>>

    constructor (files: set<seq<char>>)
      ensures this.files == files
    {
      this.files := files;
    }
  }

  /** DeleteOnFailure: unlinks the file when it goes out of scope, unless doNotDelete was called. */
  class DeleteOnFailure {
    const filename: seq<char>
    var hasToDelete: bool

    constructor (filename: seq<char>)
      ensures this.filename == filename && hasToDelete
    {
      this.filename := filename;
      hasToDelete := true;
    }

    method DoNotDelete()
      modifies this
      ensures !hasToDelete
    {
      hasToDelete := false;
    }

    /** The destructor. */
    method Destroy(fs: FileSystem)
      modifies fs
      ensures fs.files == if hasToDelete then old(fs.files) - {filename} else old(fs.files)
    {
      if hasToDelete {
        fs.files := fs.files - {filename};
      }
    }
  }

  /** The state a build loop keeps: the table holds exactly the entries of the records seen so far. */
  ghost predicate Indexed(fmt: Format, lines: seq<Line>, m: Machine, idx: Index, sequenceCount: int)
  {
    && |lines| >= 1 && HeadsWithin(lines, Heads(Records(m)))
    && BuildIndex(Entries(fmt, lines, Heads(Records(m)))) == Ok(idx)
    && sequenceCount == |idx.rows|
  }

  /** A failed insert after k lines is the failure of the whole file's build. */
  lemma ErrorIsFinal(fmt: Format, lines: seq<Line>, k: nat, d: seq<char>)
    requires 1 <= k <= |lines|
    requires HeadsWithin(lines, Heads(Records(Run(fmt, NameAware, lines, k))))
    requires BuildIndex(Entries(fmt, lines, Heads(Records(Run(fmt, NameAware, lines, k))))) == Err(d)
    ensures FileIndex(fmt, lines) == Err(d)
  {
    var a := Heads(Records(Run(fmt, NameAware, lines, k)));
    var b := FileHeads(fmt, lines);
    HeadsPrefix(fmt, NameAware, lines, k, |lines|);
    EntriesPrefix(fmt, lines, a, b);
    var ea := Entries(fmt, lines, a);
    var eb := Entries(fmt, lines, b);
    assert eb == ea + eb[|ea|..];
    BuildIndexErrSticks(ea, eb[|ea|..]);
  }

  /** The first record is inserted at the offset before the first getline, 0. */
  lemma IndexedStart(fmt: Format, lines: seq<Line>)
    requires |lines| >= 1
    ensures Indexed(fmt, lines, Start(lines[0]), Index(map[ReadName(lines[0]) := 0], [Row(ReadName(lines[0]), 0, 0)]), 1)
  {
    var h := Heads(Records(Start(lines[0])));
    assert h == [] + [(0, lines[0])];
    EntriesSnoc(fmt, lines, [], (0, lines[0]));
    var e := Entry(ReadName(lines[0]), 0);
    assert Entries(fmt, lines, h) == [] + [e];
    BuildIndexSnoc([], e);
    assert [] + [e] == [e];
    assert BuildIndex([e]) == Insert(EmptyIndex, Row(e.name, 0, 0));
    assert [] + [Row(e.name, 0, 0)] == [Row(e.name, 0, 0)];
  }

  /** A line that opens no record inserts nothing. */
  lemma IndexedKeep(fmt: Format, lines: seq<Line>, m: Machine, x: Line, k: nat, idx: Index, sequenceCount: int)
    requires Indexed(fmt, lines, m, idx, sequenceCount) && !Opens(fmt, m, x)
    ensures Indexed(fmt, lines, Step(fmt, NameAware, m, x, k), idx, sequenceCount)
  {
    HeadsStep(fmt, NameAware, m, x, k);
    assert Heads(Records(m)) + [] == Heads(Records(m));
  }

  /** A line that opens a record is inserted with the offset given, readindex the number inserted so far. */
  lemma IndexedOpen(fmt: Format, lines: seq<Line>, m: Machine, x: Line, k: nat, idx: Index, sequenceCount: int, pos: nat)
    requires Indexed(fmt, lines, m, idx, sequenceCount) && Opens(fmt, m, x) && k < |lines|
    requires pos == InsertedPos(fmt, lines, k)
    ensures var m' := Step(fmt, NameAware, m, x, k);
      && HeadsWithin(lines, Heads(Records(m')))
      && BuildIndex(Entries(fmt, lines, Heads(Records(m')))) == Insert(idx, Row(ReadName(x), pos, sequenceCount))
  {
    var h := Heads(Records(m));
    HeadsStep(fmt, NameAware, m, x, k);
    EntriesSnoc(fmt, lines, h, (k, x));
    BuildIndexRows(Entries(fmt, lines, h));
    BuildIndexSnoc(Entries(fmt, lines, h), Entry(ReadName(x), pos));
  }

  /** After the insert a header line triggers: the table grows by one row, or the build has failed for good. */
  lemma IndexedStepInsert(fmt: Format, lines: seq<Line>, m: Machine, x: Line, k: nat, idx: Index, sequenceCount: int,
                          r: Result<Index, seq<char>>)
    requires Indexed(fmt, lines, m, idx, sequenceCount) && Opens(fmt, m, x) && k < |lines|
    requires Step(fmt, NameAware, m, x, k) == Run(fmt, NameAware, lines, k + 1)
    requires r == Insert(idx, Row(ReadName(x), InsertedPos(fmt, lines, k), sequenceCount))
    ensures r.Ok? ==> Indexed(fmt, lines, Step(fmt, NameAware, m, x, k), r.value, sequenceCount + 1)
    ensures r.Err? ==> FileIndex(fmt, lines) == r
  {
    IndexedOpen(fmt, lines, m, x, k, idx, sequenceCount, InsertedPos(fmt, lines, k));
    if r.Err? {
      ErrorIsFinal(fmt, lines, k + 1, r.error);
    }
  }

  /** The FASTA branch of create_index. */
  method IndexFasta(f: FileLineBuffer, ghost lines: seq<Line>) returns (result: Result<Index, seq<char>>)
    requires AtLineStart(f, lines) && f.row == 1 && f.Line() == lines[0] && !f.failed
    modifies f, f.b
    ensures result == FileIndex(Fasta, lines)
  {
    ghost var m := Start(lines[0]);
    var name0 := ReadName(f.Line());
    var idx := Index(map[name0 := 0], [Row(name0, 0, 0)]);
    IndexedStart(Fasta, lines);
    var sequenceCount := 1;
    // the only tellg of this branch: every later record is inserted with this offset
    var lastPos := f.Tellg();
    while true
      invariant AtLineStart(f, lines)
      invariant f.b == old(f.b) || fresh(f.b)
      invariant m == Run(Fasta, NameAware, lines, f.row)
      invariant Indexed(Fasta, lines, m, idx, sequenceCount)
      invariant lastPos == Offset(lines, 1)
      decreases |lines| - f.row
    {
      ghost var k := f.row;
      var got := f.NextLine();
      if !got {
        break;
      }
      var x := f.Line();
      RunNext(Fasta, NameAware, lines, k);
      if f.LooksLikeFastaHeader() {
        var r := Insert(idx, Row(ReadName(x), lastPos, sequenceCount));
        IndexedStepInsert(Fasta, lines, m, x, k, idx, sequenceCount, r);
        m := FastaStep(m, x, k);
        if r.Err? {
          return r;
        }
        idx := r.value;
        sequenceCount := sequenceCount + 1;
      } else {
        IndexedKeep(Fasta, lines, m, x, k, idx, sequenceCount);
        m := FastaStep(m, x, k);
      }
    }
    return Ok(idx);
  }

  /** The heads after a FASTQ header opened the record that follows m0. */
  lemma IndexedNextRecord(lines: seq<Line>, m0: Machine, m: Machine, idx: Index, sequenceCount: int, k: nat, h: Line)
    requires Indexed(Fastq, lines, m0, idx, sequenceCount) && k < |lines|
    requires m.done == Records(m0) && m.cur == Record(k, h, 0, false)
    ensures HeadsWithin(lines, Heads(Records(m)))
    ensures BuildIndex(Entries(Fastq, lines, Heads(Records(m)))) == Insert(idx, Row(ReadName(h), Offset(lines, k), sequenceCount))
  {
    var hs := Heads(Records(m0));
    assert Heads(Records(m)) == hs + [(k, h)];
    EntriesSnoc(Fastq, lines, hs, (k, h));
    BuildIndexRows(Entries(Fastq, lines, hs));
    BuildIndexSnoc(Entries(Fastq, lines, hs), Entry(ReadName(h), Offset(lines, k)));
  }

  /** After the insert for the header at line k: the table grows by one row, or the build has failed for good. */
  lemma IndexedInsert(lines: seq<Line>, m0: Machine, m: Machine, idx: Index, sequenceCount: int, k: nat, h: Line,
                      r: Result<Index, seq<char>>)
    requires Indexed(Fastq, lines, m0, idx, sequenceCount) && k < |lines|
    requires m.done == Records(m0) && m.cur == Record(k, h, 0, false) && m == Run(Fastq, NameAware, lines, k + 1)
    requires r == Insert(idx, Row(ReadName(h), Offset(lines, k), sequenceCount))
    ensures r.Ok? ==> Indexed(Fastq, lines, m, r.value, sequenceCount + 1)
    ensures r.Err? ==> FileIndex(Fastq, lines) == r
  {
    IndexedNextRecord(lines, m0, m, idx, sequenceCount, k, h);
    if r.Err? {
      ErrorIsFinal(Fastq, lines, k + 1, r.error);
    }
  }

  /**
   * The end of a FASTQ record inside create_index: the quality block, then
   * last_pos = tellg, the next header's getline and its insert.
   */
  method IndexRecordEnd(f: FileLineBuffer, nread: nat, ghost lines: seq<Line>, ghost m0: Machine, idx: Index, sequenceCount: int)
      returns (got: bool, r: Result<Index, seq<char>>, ghost m: Machine)
    requires AtLineStart(f, lines)
    requires m0 == Run(Fastq, NameAware, lines, f.row) && m0.phase == Quality(nread) && f.headerID == m0.id
    requires Indexed(Fastq, lines, m0, idx, sequenceCount)
    modifies f, f.b
    ensures AtLineStart(f, lines) && old(f.row) <= f.row
    ensures f.b == old(f.b) || fresh(f.b)
    ensures m == Run(Fastq, NameAware, lines, f.row) && f.headerID == m.id
    ensures !got ==> f.row == |lines| && Indexed(Fastq, lines, m, idx, sequenceCount)
    ensures got ==> m.phase == Sequence && m.cur.seqLen == 0
    ensures got && r.Ok? ==> Indexed(Fastq, lines, m, r.value, sequenceCount + 1)
    ensures got && r.Err? ==> FileIndex(Fastq, lines) == r
  {
    var warning, lastPos;
    got, warning, lastPos, m := EndOfRecord(f, nread, lines, m0);
    if !got {
      assert Records(m) == Records(m0);
      return got, Ok(idx), m;
    }
    var h := f.Line();
    r := Insert(idx, Row(ReadName(h), lastPos, sequenceCount));
    IndexedInsert(lines, m0, m, idx, sequenceCount, f.row - 1, h, r);
  }

  /** The FASTQ branch of create_index: each header is inserted at the tellg taken just before its getline. */
  method IndexFastq(f: FileLineBuffer, ghost lines: seq<Line>) returns (result: Result<Index, seq<char>>)
    requires AtLineStart(f, lines) && f.row == 1 && f.Line() == lines[0]
    requires IsFastqHeader(lines[0]) && f.headerID == ReadName(lines[0])
    modifies f, f.b
    ensures result == FileIndex(Fastq, lines)
  {
    ghost var m := Start(lines[0]);
    var name0 := ReadName(f.Line());
    var idx := Index(map[name0 := 0], [Row(name0, 0, 0)]);
    IndexedStart(Fastq, lines);
    var sequenceCount := 1;
    var nread: nat := 0;
    while true
      invariant AtLineStart(f, lines)
      invariant f.b == old(f.b) || fresh(f.b)
      invariant m == Run(Fastq, NameAware, lines, f.row) && m.phase == Sequence
      invariant f.headerID == m.id && nread == m.cur.seqLen
      invariant Indexed(Fastq, lines, m, idx, sequenceCount)
      decreases |lines| - f.row
    {
      ghost var k := f.row;
      var got := f.NextLine();
      if !got {
        break;
      }
      var x := f.Line();
      RunNext(Fastq, NameAware, lines, k);
      FastqSequenceStep(NameAware, m, x, k);
      IndexedKeep(Fastq, lines, m, x, k, idx, sequenceCount);
      m := FastqStep(NameAware, m, x, k);
      if f.LooksLikeFastqSeparator() {
        var r;
        got, r, m := IndexRecordEnd(f, nread, lines, m, idx, sequenceCount);
        if !got {
          break;
        }
        if r.Err? {
          return r;
        }
        idx := r.value;
        sequenceCount := sequenceCount + 1;
        nread := 0;
      } else {
        nread := nread + f.Len();
      }
    }
    return Ok(idx);
  }

  /** Opening and scanning the input: everything of create_index but the index file itself. */
  method IndexFile(file: Option<seq<Line>>) returns (out: IndexOutcome)
    ensures out == CreateIndexSpec(false, file)
  {
    var f := new FileLineBuffer();
    var ok := f.Open(file);
    if !ok {
      return IndexCannotOpen;
    }
    ghost var lines := f.input;
    var g := f.GetLine();
    if g == AtEof {
      return IndexBuilt(EmptyIndex);
    }
    if g == NotFastx {
      return IndexNotFastx;
    }
    var result;
    if !f.LooksLikeFastqHeader() {
      result := IndexFasta(f, lines);
    } else {
      result := IndexFastq(f, lines);
    }
    if result.Err? {
      return IndexDuplicate(result.error);
    }
    return IndexBuilt(result.value);
  }

  /**
   * create_index on `fileName`, whose contents are `file` (None: it cannot
   * be opened). The index file is created before the input is read and
   * removed again unless the build got through or exit(1) cut it short.
   */
  method CreateIndex(fs: FileSystem, fileName: seq<char>, file: Option<seq<Line>>) returns (out: IndexOutcome)
    modifies fs
    ensures out == CreateIndexSpec(IndexFileName(fileName) in old(fs.files), file)
    ensures fs.files == if IndexFileRemains(out) then old(fs.files) + {IndexFileName(fileName)}
                        else old(fs.files) - {IndexFileName(fileName)}
  {
    var indexFileName := IndexFileName(fileName);
    if indexFileName in fs.files {
      return IndexExists;
    }
    var dof := new DeleteOnFailure(indexFileName);
    // sqdb::Db creates the database file
    fs.files := fs.files + {indexFileName};
    out := IndexFile(file);
    if out.IndexNotFastx? {
      // exit(1): the destructor of dof never runs
      return;
    }
    if out.IndexBuilt? {
      dof.DoNotDelete();
    }
    dof.Destroy(fs);
  }

  // ----- the lookups do_extract makes -----

  /** `select pos from seqpos where name=?` */
  function LookupByName(idx: Index, name: seq<char>): Option<nat>
  {
    if name in idx.byName then Some(idx.byName[name]) else None
  }

  /**
   * `select pos from seqpos limit 1 offset ?`: the row at that ordinal, the
   * table being scanned in insertion order; a negative offset counts as 0.
   */
  function LookupByOrdinal(idx: Index, start: int): Option<nat>
  {
    var offset := if start < 0 then 0 else start;
    if offset < |idx.rows| then Some(idx.rows[offset].pos) else None
  }

  /** On a built table, a name is found exactly when it was inserted, at the offset inserted with it. */
  lemma LookupByNameBuilt(es: seq<Entry>, name: seq<char>)
    requires BuildIndex(es).Ok?
    ensures LookupByName(BuildIndex(es).value, name).Some? <==> exists i :: 0 <= i < |es| && es[i].name == name
    ensures forall i :: 0 <= i < |es| && es[i].name == name ==> LookupByName(BuildIndex(es).value, name) == Some(es[i].pos)
  {
    BuildIndexRows(es);
    NamesMembership(es, name);
  }

  /** On a built table, ordinal i finds the i-th entry's offset, and an ordinal past the end finds nothing. */
  lemma LookupByOrdinalBuilt(es: seq<Entry>, start: int)
    requires BuildIndex(es).Ok?
    ensures 0 <= start < |es| ==> LookupByOrdinal(BuildIndex(es).value, start) == Some(es[start].pos)
    ensures start < 0 && |es| > 0 ==> LookupByOrdinal(BuildIndex(es).value, start) == Some(es[0].pos)
    ensures LookupByOrdinal(BuildIndex(es).value, start).None? <==> start >= |es| || |es| == 0
  {
    BuildIndexRows(es);
  }

  lemma {:induction false} EntriesAt(fmt: Format, lines: seq<Line>, heads: seq<(nat, Line)>, i: nat)
    requires |lines| >= 1 && HeadsWithin(lines, heads) && i < |heads|
    ensures |Entries(fmt, lines, heads)| == |heads|
    ensures Entries(fmt, lines, heads)[i] == Entry(ReadName(heads[i].1), InsertedPos(fmt, lines, heads[i].0))
  {
    var p := heads[..|heads| - 1];
    if i < |p| {
      EntriesAt(fmt, lines, p, i);
    } else if |p| > 0 {
      EntriesAt(fmt, lines, p, 0);
    }
  }

  /**
   * FASTQ: looking a record up, by its name or by its ordinal, gives the
   * offset of its own header line, and seeking there lands at the start of
   * that line.
   */
  lemma FastqLookupLandsOnHeader(lines: seq<Line>, i: nat)
    requires |lines| >= 1 && FileIndex(Fastq, lines).Ok? && i < |FileHeads(Fastq, lines)|
    ensures var h := FileHeads(Fastq, lines)[i];
      var idx := FileIndex(Fastq, lines).value;
      && LookupByName(idx, ReadName(h.1)) == Some(Offset(lines, h.0))
      && LookupByOrdinal(idx, i) == Some(Offset(lines, h.0))
      && Locate(lines, Offset(lines, h.0)) == (h.0, 0) && lines[h.0] == h.1
  {
    var heads := FileHeads(Fastq, lines);
    HeadsOfRun(Fastq, NameAware, lines, |lines|);
    var es := Entries(Fastq, lines, heads);
    EntriesAt(Fastq, lines, heads, i);
    LookupByNameBuilt(es, es[i].name);
    LookupByOrdinalBuilt(es, i);
    LocateOffset(lines, heads[i].0);
  }

  /**
   * FASTA as built: every record after the first is looked up at the
   * offset of line 1, so once a record's header lies past line 1 the lookup
   * lands on a different line than that header.
   */
  lemma FastaLookupAsWritten(lines: seq<Line>, i: nat)
    requires |lines| >= 2 && FileIndex(Fasta, lines).Ok? && 1 <= i < |FileHeads(Fasta, lines)|
    ensures var h := FileHeads(Fasta, lines)[i];
      var idx := FileIndex(Fasta, lines).value;
      && LookupByName(idx, ReadName(h.1)) == Some(Offset(lines, 1))
      && Locate(lines, Offset(lines, 1)) == (1, 0)
      && (h.0 > 1 ==> Locate(lines, Offset(lines, 1)) != (h.0, 0))
  {
    var heads := FileHeads(Fasta, lines);
    HeadsOfRun(Fasta, NameAware, lines, |lines|);
    var es := Entries(Fasta, lines, heads);
    EntriesAt(Fasta, lines, heads, i);
    LookupByNameBuilt(es, es[i].name);
    LocateOffset(lines, 1);
  }

  /** The offset every record should have been inserted with: that of its header line. */
  function HeaderEntries(lines: seq<Line>, heads: seq<(nat, Line)>): (es: seq<Entry>)
    requires HeadsWithin(lines, heads)
    ensures |es| == |heads|
  {
    if |heads| == 0 then []
    else
      var last := heads[|heads| - 1];
      HeaderEntries(lines, heads[..|heads| - 1]) + [Entry(ReadName(last.1), Offset(lines, last.0))]
  }

  lemma {:induction false} HeaderEntriesAt(lines: seq<Line>, heads: seq<(nat, Line)>, i: nat)
    requires HeadsWithin(lines, heads) && i < |heads|
    ensures |HeaderEntries(lines, heads)| == |heads|
    ensures HeaderEntries(lines, heads)[i] == Entry(ReadName(heads[i].1), Offset(lines, heads[i].0))
  {
    var p := heads[..|heads| - 1];
    if i < |p| {
      HeaderEntriesAt(lines, p, i);
    } else if |p| > 0 {
      HeaderEntriesAt(lines, p, 0);
    }
  }

  /** The table with every record at its header offset, in either format. */
  function CorrectedFileIndex(fmt: Format, lines: seq<Line>): Result<Index, seq<char>>
    requires |lines| >= 1
  {
    BuildIndex(HeaderEntries(lines, FileHeads(fmt, lines)))
  }

  /** For FASTQ the table as built is already the corrected one. */
  lemma {:induction false} FastqIndexIsCorrected(lines: seq<Line>, heads: seq<(nat, Line)>)
    requires |lines| >= 1 && HeadsWithin(lines, heads)
    ensures Entries(Fastq, lines, heads) == HeaderEntries(lines, heads)
  {
    if |heads| > 0 {
      FastqIndexIsCorrected(lines, heads[..|heads| - 1]);
    }
  }

  /**
   * With the corrected table, both formats: a record looked up by its name
   * or its ordinal is found at its header line, and the table is built
   * exactly when the record names are distinct.
   */
  lemma CorrectedLookupLandsOnHeader(fmt: Format, lines: seq<Line>, i: nat)
    requires |lines| >= 1 && CorrectedFileIndex(fmt, lines).Ok? && i < |FileHeads(fmt, lines)|
    ensures var h := FileHeads(fmt, lines)[i];
      var idx := CorrectedFileIndex(fmt, lines).value;
      && LookupByName(idx, ReadName(h.1)) == Some(Offset(lines, h.0))
      && LookupByOrdinal(idx, i) == Some(Offset(lines, h.0))
      && Locate(lines, Offset(lines, h.0)) == (h.0, 0) && lines[h.0] == h.1
  {
    var heads := FileHeads(fmt, lines);
    HeadsOfRun(fmt, NameAware, lines, |lines|);
    var es := HeaderEntries(lines, heads);
    HeaderEntriesAt(lines, heads, i);
    LookupByNameBuilt(es, es[i].name);
    LookupByOrdinalBuilt(es, i);
    LocateOffset(lines, heads[i].0);
  }

  /** Two entries with different names give a two-row table. */
  lemma BuildIndexPair(e1: Entry, e2: Entry)
    requires e1.name != e2.name
    ensures BuildIndex([e1, e2]) == Ok(Index(map[e1.name := e1.pos, e2.name := e2.pos], [Row(e1.name, e1.pos, 0), Row(e2.name, e2.pos, 1)]))
  {
    var noEntries: seq<Entry> := [];
    var noRows: seq<Row> := [];
    BuildIndexSnoc(noEntries, e1);
    assert noEntries + [e1] == [e1];
    assert noRows + [Row(e1.name, e1.pos, 0)] == [Row(e1.name, e1.pos, 0)];
    BuildIndexSnoc([e1], e2);
    assert [e1] + [e2] == [e1, e2];
    assert [Row(e1.name, e1.pos, 0)] + [Row(e2.name, e2.pos, 1)] == [Row(e1.name, e1.pos, 0), Row(e2.name, e2.pos, 1)];
  }

  /** A FASTA file of two records, each with one sequence line. */
  const ExampleFasta: seq<Line> := [">a", "AC", ">b", "GT"]

  lemma ExampleFastaHeads()
    ensures FileHeads(Fasta, ExampleFasta) == [(0, ">a"), (2, ">b")]
    ensures ReadName(">a") == "a" && ReadName(">b") == "b"
    ensures Offset(ExampleFasta, 1) == 3 && Offset(ExampleFasta, 2) == 6
  {
    var lines := ExampleFasta;
    assert ">a"[1..] == "a";
    assert ">b"[1..] == "b";
    var m4 := FastaStep(FastaStep(FastaStep(Start(lines[0]), lines[1], 1), lines[2], 2), lines[3], 3);
    assert Run(Fasta, NameAware, lines, 4) == m4;
    assert Heads(Records(m4)) == [(0, ">a"), (2, ">b")];
  }

  /**
   * On ExampleFasta the table as built puts record b at offset 3, the start
   * of the sequence line "AC", while its header ">b" starts at offset 6,
   * where the corrected table puts it.
   */
  lemma FastaIndexExample()
    ensures FileIndex(Fasta, ExampleFasta) == Ok(Index(map["a" := 0, "b" := 3], [Row("a", 0, 0), Row("b", 3, 1)]))
    ensures Locate(ExampleFasta, 3) == (1, 0) && !IsFastaHeader(ExampleFasta[1])
    ensures CorrectedFileIndex(Fasta, ExampleFasta) == Ok(Index(map["a" := 0, "b" := 6], [Row("a", 0, 0), Row("b", 6, 1)]))
    ensures Locate(ExampleFasta, 6) == (2, 0)
  {
    var lines := ExampleFasta;
    ExampleFastaHeads();
    var heads := [(0, ">a"), (2, ">b")];
    assert heads[..1] == [(0, ">a")];
    assert [(0, ">a")][..0] == [];
    assert Entries(Fasta, lines, heads) == [Entry("a", 0), Entry("b", 3)];
    assert HeaderEntries(lines, heads) == [Entry("a", 0), Entry("b", 6)];
    BuildIndexPair(Entry("a", 0), Entry("b", 3));
    BuildIndexPair(Entry("a", 0), Entry("b", 6));
    LocateOffset(lines, 1);
    LocateOffset(lines, 2);
  }
}
