/**
 * The record-scanning state machine that every FASTA/FASTQ loop of
 * src/fatt.cc and readcount.cc repeats: show_read_names_in_file,
 * count_number_of_reads_in_file and create_index all call getline once per
 * line and react to it the same way. It is stated once, as a left fold of
 * one step per line, and the loops are proved against it.
 */
module FastxScan {
  import opened Text

  /** The size_t value of -1, the initial min_read_len. */
  const SizeMax: nat := 0xFFFF_FFFF_FFFF_FFFF

  datatype Format = Fasta | Fastq

  /** src/fatt.cc compares the `+` line with the current read name; readcount.cc accepts only a bare `+`. */
  datatype SeparatorRule = NameAware | BarePlus

  /**
   * A record as the scanner sees it: the index of its header line, the
   * header, the summed length of its sequence lines and whether its FASTQ
   * separator has been reached.
   */
  datatype Record = Record(start: nat, header: Line, seqLen: nat, sep: bool)

  /** Where a FASTQ scan is: in the sequence lines, counting down quality bytes, or expecting a header. */
  datatype Phase = Sequence | Quality(remaining: int) | Header

  /**
   * The scan state: the phase, the remembered read name (headerID), the
   * records closed so far, the open record and the line counts at which the
   * "expected a new sequence" warning was raised.
   */
  datatype Machine = Machine(phase: Phase, id: seq<char>, done: seq<Record>, cur: Record, warnings: seq<nat>)

  function Records(m: Machine): seq<Record>
  {
    m.done + [m.cur]
  }

  /** registerHeaderLine: an empty line keeps the old name. */
  function Register(id: seq<char>, x: Line): seq<char>
  {
    if |x| == 0 then id else ReadName(x)
  }

  predicate IsSeparator(rule: SeparatorRule, x: Line, id: seq<char>)
  {
    match rule
    case NameAware => LooksLikeSeparator(x, id)
    case BarePlus => x == ['+']
  }

  /** The state after the first line, which opens the first record whatever the format. */
  function Start(x: Line): Machine
  {
    Machine(Sequence, Register([], x), [], Record(0, x, 0, false), [])
  }

  /** One FASTQ line, the k-th of the file (from 0), so k lines have been read before it. */
  function FastqStep(rule: SeparatorRule, m: Machine, x: Line, k: nat): Machine
  {
    match m.phase
    case Sequence =>
      if IsSeparator(rule, x, m.id) then m.(phase := Quality(m.cur.seqLen), cur := m.cur.(sep := true))
      else m.(cur := m.cur.(seqLen := m.cur.seqLen + |x|))
    case Quality(n) =>
      if n - |x| <= 0 then m.(phase := Header) else m.(phase := Quality(n - |x|))
    case Header =>
      Machine(Sequence, Register(m.id, x), m.done + [m.cur], Record(k, x, 0, false),
              m.warnings + (if IsFastqHeader(x) then [] else [k]))
  }

  /** One FASTA line: a '>' line closes the open record, any other line extends it. */
  function FastaStep(m: Machine, x: Line, k: nat): Machine
  {
    if IsFastaHeader(x) then m.(done := m.done + [m.cur], cur := Record(k, x, 0, false))
    else m.(cur := m.cur.(seqLen := m.cur.seqLen + |x|))
  }

  function Step(fmt: Format, rule: SeparatorRule, m: Machine, x: Line, k: nat): Machine
  {
    if fmt == Fasta then FastaStep(m, x, k) else FastqStep(rule, m, x, k)
  }

  /** Lines i .. j-1 fed to the machine, starting from m. */
  function FoldFrom(fmt: Format, rule: SeparatorRule, m: Machine, lines: seq<Line>, i: nat, j: nat): Machine
    requires i <= j <= |lines|
    decreases j
  {
    if j == i then m else Step(fmt, rule, FoldFrom(fmt, rule, m, lines, i, j - 1), lines[j - 1], j - 1)
  }

  /** The state once the first k lines have been read. */
  function Run(fmt: Format, rule: SeparatorRule, lines: seq<Line>, k: nat): Machine
    requires 1 <= k <= |lines|
  {
    FoldFrom(fmt, rule, Start(lines[0]), lines, 1, k)
  }

  lemma {:induction false} FoldSplit(fmt: Format, rule: SeparatorRule, m: Machine, lines: seq<Line>, i: nat, h: nat, j: nat)
    requires i <= h <= j <= |lines|
    ensures FoldFrom(fmt, rule, m, lines, i, j) == FoldFrom(fmt, rule, FoldFrom(fmt, rule, m, lines, i, h), lines, h, j)
    decreases j
  {
    if j > h {
      FoldSplit(fmt, rule, m, lines, i, h, j - 1);
    }
  }

  /** Two folds in a row, each with a known result, are one fold. */
  lemma FoldChain(fmt: Format, rule: SeparatorRule, m: Machine, lines: seq<Line>, i: nat, h: nat, j: nat, a: Machine, b: Machine)
    requires i <= h <= j <= |lines|
    requires FoldFrom(fmt, rule, m, lines, i, h) == a && FoldFrom(fmt, rule, a, lines, h, j) == b
    ensures FoldFrom(fmt, rule, m, lines, i, j) == b
  {
    FoldSplit(fmt, rule, m, lines, i, h, j);
  }

  /** A fold over a window sees only the lines inside it. */
  lemma {:induction false} FoldWindow(fmt: Format, rule: SeparatorRule, m: Machine, lines: seq<Line>, other: seq<Line>, i: nat, j: nat)
    requires i <= j <= |lines| && j <= |other|
    requires lines[i..j] == other[i..j]
    ensures FoldFrom(fmt, rule, m, lines, i, j) == FoldFrom(fmt, rule, m, other, i, j)
    decreases j
  {
    if j > i {
      assert lines[j - 1] == lines[i..j][j - 1 - i] == other[j - 1];
      assert lines[i..j - 1] == lines[i..j][..j - 1 - i];
      assert other[i..j - 1] == other[i..j][..j - 1 - i];
      FoldWindow(fmt, rule, m, lines, other, i, j - 1);
    }
  }

  /** One more line read is one more step. */
  lemma RunNext(fmt: Format, rule: SeparatorRule, lines: seq<Line>, k: nat)
    requires 1 <= k < |lines|
    ensures Run(fmt, rule, lines, k + 1) == Step(fmt, rule, Run(fmt, rule, lines, k), lines[k], k)
  {
  }

  /** Reading a longer file first reads its prefix: the run over the prefix, continued. */
  lemma RunExtend(fmt: Format, rule: SeparatorRule, prev: seq<Line>, lines: seq<Line>)
    requires 1 <= |prev| <= |lines| && lines[..|prev|] == prev
    ensures Run(fmt, rule, lines, |lines|)
         == FoldFrom(fmt, rule, Run(fmt, rule, prev, |prev|), lines, |prev|, |lines|)
  {
    assert lines[0] == prev[0];
    assert lines[1..|prev|] == prev[1..|prev|];
    FoldSplit(fmt, rule, Start(lines[0]), lines, 1, |prev|, |lines|);
    FoldWindow(fmt, rule, Start(lines[0]), lines, prev, 1, |prev|);
  }

  // ----- what the loops report -----

  function SumLens(s: seq<Line>): nat
  {
    if |s| == 0 then 0 else SumLens(s[..|s| - 1]) + |s[|s| - 1]|
  }

  lemma {:induction false} SumLensAppend(a: seq<Line>, b: seq<Line>)
    ensures SumLens(a + b) == SumLens(a) + SumLens(b)
    decreases |b|
  {
    if |b| > 0 {
      assert (a + b)[..|a + b| - 1] == a + b[..|b| - 1];
      assert (a + b)[|a + b| - 1] == b[|b| - 1];
      SumLensAppend(a, b[..|b| - 1]);
    } else {
      assert a + b == a;
    }
  }

  /** output_read_name on every header in turn: an empty header prints nothing. */
  function Names(recs: seq<Record>): seq<seq<char>>
  {
    if |recs| == 0 then []
    else Names(recs[..|recs| - 1]) + (if |recs[|recs| - 1].header| == 0 then [] else [ReadName(recs[|recs| - 1].header)])
  }

  function SeqLens(recs: seq<Record>): seq<nat>
  {
    if |recs| == 0 then [] else SeqLens(recs[..|recs| - 1]) + [recs[|recs| - 1].seqLen]
  }

  /** The lengths show_read_names_in_file prints: one per closed record, the open one only if positive. */
  function Lengths(recs: seq<Record>): seq<nat>
    requires |recs| >= 1
  {
    SeqLens(recs[..|recs| - 1]) + (if recs[|recs| - 1].seqLen > 0 then [recs[|recs| - 1].seqLen] else [])
  }

  /** SeqLens, position by position. */
  lemma {:induction false} SeqLensAt(recs: seq<Record>)
    ensures |SeqLens(recs)| == |recs|
    ensures forall i :: 0 <= i < |recs| ==> SeqLens(recs)[i] == recs[i].seqLen
    decreases |recs|
  {
    if |recs| > 0 {
      SeqLensAt(recs[..|recs| - 1]);
    }
  }

  /**
   * The printed lengths, position by position: every closed record's
   * length in file order, then the open record's only when it is positive.
   */
  lemma LengthsShape(recs: seq<Record>)
    requires |recs| >= 1
    ensures var n := |recs| - 1;
      var r := Lengths(recs);
      && |r| == n + (if recs[n].seqLen > 0 then 1 else 0)
      && (forall i :: 0 <= i < n ==> r[i] == recs[i].seqLen)
      && (recs[n].seqLen > 0 ==> r[n] == recs[n].seqLen)
  {
    SeqLensAt(recs[..|recs| - 1]);
  }

  /** The lengths of a machine's records: the closed ones, then the open one if it is not empty. */
  lemma LengthsOf(m: Machine)
    ensures Lengths(Records(m)) == SeqLens(m.done) + (if m.cur.seqLen > 0 then [m.cur.seqLen] else [])
  {
    assert Records(m)[..|Records(m)| - 1] == m.done;
  }

  function TotalLen(recs: seq<Record>): nat
  {
    if |recs| == 0 then 0 else TotalLen(recs[..|recs| - 1]) + recs[|recs| - 1].seqLen
  }

  /** The sequence lengths passed to UPDATE_MIN_AND_MAX in FASTQ mode: one per record whose separator was reached. */
  function SepLens(recs: seq<Record>): seq<nat>
  {
    if |recs| == 0 then []
    else SepLens(recs[..|recs| - 1]) + (if recs[|recs| - 1].sep then [recs[|recs| - 1].seqLen] else [])
  }

  /** Every observable of a record list grows by what the new last record contributes. */
  lemma ObservablesSnoc(recs: seq<Record>, r: Record)
    ensures Names(recs + [r]) == Names(recs) + (if |r.header| == 0 then [] else [ReadName(r.header)])
    ensures SeqLens(recs + [r]) == SeqLens(recs) + [r.seqLen]
    ensures TotalLen(recs + [r]) == TotalLen(recs) + r.seqLen
    ensures SepLens(recs + [r]) == SepLens(recs) + (if r.sep then [r.seqLen] else [])
  {
    assert (recs + [r])[..|recs|] == recs;
  }

  /** What one FASTA line does to everything the loops report. */
  lemma FastaStepObservables(m: Machine, x: Line, k: nat)
    ensures var m' := FastaStep(m, x, k);
      && Names(Records(m')) == Names(Records(m)) + (if IsFastaHeader(x) then [ReadName(x)] else [])
      && SeqLens(m'.done) == SeqLens(m.done) + (if IsFastaHeader(x) then [m.cur.seqLen] else [])
      && TotalLen(Records(m')) == TotalLen(Records(m)) + (if IsFastaHeader(x) then 0 else |x|)
      && |Records(m')| == |Records(m)| + (if IsFastaHeader(x) then 1 else 0)
  {
    var m' := FastaStep(m, x, k);
    ObservablesSnoc(m.done, m.cur);
    if IsFastaHeader(x) {
      ObservablesSnoc(Records(m), m'.cur);
    } else {
      ObservablesSnoc(m.done, m'.cur);
    }
  }

  /**
   * A line read after a quality block opens a record at line k whatever it
   * holds: one more record and one more head, its name printed when the line
   * is not empty, nothing added to the totals, the closed read's length
   * kept, and a warning at k when the line does not start with '@'.
   */
  lemma FastqHeaderStep(rule: SeparatorRule, m: Machine, x: Line, k: nat)
    requires m.phase == Header
    ensures var m' := FastqStep(rule, m, x, k);
      && m'.phase == Sequence && m'.id == (if |x| == 0 then m.id else ReadName(x))
      && |Records(m')| == |Records(m)| + 1
      && Heads(Records(m')) == Heads(Records(m)) + [(k, x)]
      && Names(Records(m')) == Names(Records(m)) + (if |x| == 0 then [] else [ReadName(x)])
      && SeqLens(m'.done) == SeqLens(m.done) + [m.cur.seqLen]
      && TotalLen(Records(m')) == TotalLen(Records(m))
      && SepLens(Records(m')) == SepLens(Records(m))
      && m'.warnings == m.warnings + (if IsFastqHeader(x) then [] else [k])
  {
    var m' := FastqStep(rule, m, x, k);
    ObservablesSnoc(m.done, m.cur);
    ObservablesSnoc(Records(m), m'.cur);
    HeadsStep(Fastq, rule, m, x, k);
  }

  /** Line k read after a quality block opens a record at k, warning when it does not start with '@'. */
  lemma RunHeader(rule: SeparatorRule, lines: seq<Line>, k: nat)
    requires 1 <= k < |lines| && Run(Fastq, rule, lines, k).phase == Header
    ensures var m := Run(Fastq, rule, lines, k);
      Run(Fastq, rule, lines, k + 1)
        == Machine(Sequence, Register(m.id, lines[k]), Records(m), Record(k, lines[k], 0, false),
                   m.warnings + (if IsFastqHeader(lines[k]) then [] else [k]))
  {
    RunNext(Fastq, rule, lines, k);
  }

  /** RunHeader, stated on the two machines a caller already holds. */
  lemma HeaderStep(rule: SeparatorRule, lines: seq<Line>, k: nat, m1: Machine, m: Machine)
    requires 1 <= k < |lines| && m1 == Run(Fastq, rule, lines, k) && m1.phase == Header
    requires m == Run(Fastq, rule, lines, k + 1)
    ensures m.phase == Sequence && m.id == Register(m1.id, lines[k]) && m.done == Records(m1)
    ensures m.cur == Record(k, lines[k], 0, false)
    ensures m.warnings == m1.warnings + (if IsFastqHeader(lines[k]) then [] else [k])
  {
    RunHeader(rule, lines, k);
  }

  /** Line k read in the quality phase counts the owed quality bytes down, and changes nothing else. */
  lemma RunQuality(rule: SeparatorRule, lines: seq<Line>, k: nat, n: int)
    requires 1 <= k < |lines| && Run(Fastq, rule, lines, k).phase == Quality(n)
    ensures Run(Fastq, rule, lines, k + 1)
         == Run(Fastq, rule, lines, k).(phase := if n - |lines[k]| <= 0 then Header else Quality(n - |lines[k]|))
  {
    RunNext(Fastq, rule, lines, k);
  }

  /** A FASTQ sequence-phase line: a separator opens the quality block, any other line extends the read. */
  lemma FastqSequenceStep(rule: SeparatorRule, m: Machine, x: Line, k: nat)
    requires m.phase == Sequence
    ensures var m' := FastqStep(rule, m, x, k);
      && m'.id == m.id && m'.done == m.done && m'.warnings == m.warnings && m'.cur.header == m.cur.header
      && |Records(m')| == |Records(m)| && Names(Records(m')) == Names(Records(m))
      && (IsSeparator(rule, x, m.id) ==> m'.phase == Quality(m.cur.seqLen) && m'.cur == m.cur.(sep := true))
      && (IsSeparator(rule, x, m.id) ==> TotalLen(Records(m')) == TotalLen(Records(m)))
      && (!IsSeparator(rule, x, m.id) ==> m'.phase == Sequence && m'.cur == m.cur.(seqLen := m.cur.seqLen + |x|))
      && (!IsSeparator(rule, x, m.id) ==> TotalLen(Records(m')) == TotalLen(Records(m)) + |x|)
  {
    var m' := FastqStep(rule, m, x, k);
    ObservablesSnoc(m.done, m.cur);
    ObservablesSnoc(m.done, m'.cur);
  }

  /** The open record counts in SepLens exactly when its separator has been reached. */
  lemma OpenSepLens(m: Machine)
    ensures m.cur.sep ==> SepLens(Records(m)) == SepLens(m.done) + [m.cur.seqLen]
    ensures !m.cur.sep ==> SepLens(Records(m)) == SepLens(m.done)
  {
    ObservablesSnoc(m.done, m.cur);
  }

  /** A header after a quality block closes the open record and opens an empty one. */
  lemma CloseRecord(m0: Machine, m: Machine)
    requires m.done == Records(m0) && m.cur.seqLen == 0
    ensures |Records(m)| == |Records(m0)| + 1 && TotalLen(Records(m)) == TotalLen(Records(m0))
    ensures Names(Records(m)) == Names(Records(m0)) + (if |m.cur.header| == 0 then [] else [ReadName(m.cur.header)])
    ensures SeqLens(m.done) == SeqLens(m0.done) + [m0.cur.seqLen]
    ensures m0.cur.sep ==> SepLens(m.done) == SepLens(m0.done) + [m0.cur.seqLen]
  {
    ObservablesSnoc(m0.done, m0.cur);
    ObservablesSnoc(m.done, m.cur);
  }

  function MinFrom(init: nat, s: seq<nat>): nat
  {
    if |s| == 0 then init else Min(MinFrom(init, s[..|s| - 1]), s[|s| - 1])
  }

  function MaxFrom(init: nat, s: seq<nat>): nat
  {
    if |s| == 0 then init else Max(MaxFrom(init, s[..|s| - 1]), s[|s| - 1])
  }

  /** One more UPDATE_MIN_AND_MAX. */
  lemma MinMaxSnoc(init: nat, s: seq<nat>, v: nat)
    ensures MinFrom(init, s + [v]) == Min(MinFrom(init, s), v)
    ensures MaxFrom(init, s + [v]) == Max(MaxFrom(init, s), v)
  {
    assert (s + [v])[..|s|] == s;
  }

  function Min(a: nat, b: nat): nat { if a <= b then a else b }
  function Max(a: nat, b: nat): nat { if a >= b then a else b }

  /**
   * The running minimum and maximum that UPDATE_MIN_AND_MAX keeps are the
   * least and greatest value passed to it, or their initial values when
   * nothing was passed.
   */
  lemma {:induction false} MinMaxBounds(s: seq<nat>)
    ensures |s| == 0 ==> MinFrom(SizeMax, s) == SizeMax && MaxFrom(0, s) == 0
    ensures forall v :: v in s ==> MinFrom(SizeMax, s) <= v <= MaxFrom(0, s)
    ensures |s| > 0 ==> MaxFrom(0, s) in s
    ensures |s| > 0 && (forall v :: v in s ==> v <= SizeMax) ==> MinFrom(SizeMax, s) in s
  {
    if |s| > 0 {
      var p := s[..|s| - 1];
      MinMaxBounds(p);
      assert s == p + [s[|s| - 1]];
      forall v | v in s
        ensures MinFrom(SizeMax, s) <= v <= MaxFrom(0, s)
      {
        if v != s[|s| - 1] {
          assert v in p;
        }
      }
      if (forall v :: v in s ==> v <= SizeMax) && |p| > 0 {
        assert forall v :: v in p ==> v in s;
      }
    }
  }

  // ----- properties of the fold -----

  /** Lines that are not FASTA headers, among lines i .. j-1. */
  function NonHeaderLens(lines: seq<Line>, i: nat, j: nat): nat
    requires i <= j <= |lines|
    decreases j
  {
    if j == i then 0 else NonHeaderLens(lines, i, j - 1) + (if IsFastaHeader(lines[j - 1]) then 0 else |lines[j - 1]|)
  }

  function StartsOf(recs: seq<Record>): seq<nat>
  {
    if |recs| == 0 then [] else StartsOf(recs[..|recs| - 1]) + [recs[|recs| - 1].start]
  }

  /** The indices where a FASTA record begins among the first k lines: line 0, then every '>' line. */
  function FastaStarts(lines: seq<Line>, k: nat): seq<nat>
    requires 1 <= k <= |lines|
  {
    if k == 1 then [0] else FastaStarts(lines, k - 1) + (if IsFastaHeader(lines[k - 1]) then [k - 1] else [])
  }

  /** FASTA: the record lengths add up to the bytes of every line after the first that is not a '>' line. */
  lemma {:induction false} FastaTotal(rule: SeparatorRule, lines: seq<Line>, k: nat)
    requires 1 <= k <= |lines|
    ensures TotalLen(Records(Run(Fasta, rule, lines, k))) == NonHeaderLens(lines, 1, k)
  {
    if k > 1 {
      FastaTotal(rule, lines, k - 1);
      var m0 := Run(Fasta, rule, lines, k - 1);
      var m := Run(Fasta, rule, lines, k);
      assert Records(m0)[..|Records(m0)| - 1] == m0.done;
      if IsFastaHeader(lines[k - 1]) {
        assert Records(m)[..|Records(m)| - 1] == Records(m0);
      } else {
        assert Records(m)[..|Records(m)| - 1] == m0.done;
      }
    }
  }

  /**
   * FASTA: a record begins at line 0 and at every '>' line, in file order,
   * and its header is the line it begins at.
   */
  lemma {:induction false} FastaRecordStarts(rule: SeparatorRule, lines: seq<Line>, k: nat)
    requires 1 <= k <= |lines|
    ensures var recs := Records(Run(Fasta, rule, lines, k));
      && StartsOf(recs) == FastaStarts(lines, k)
      && forall i :: 0 <= i < |recs| ==> recs[i].start < k && recs[i].header == lines[recs[i].start]
  {
    if k > 1 {
      FastaRecordStarts(rule, lines, k - 1);
      var m0 := Run(Fasta, rule, lines, k - 1);
      var m := Run(Fasta, rule, lines, k);
      assert Records(m0)[..|Records(m0)| - 1] == m0.done;
      if IsFastaHeader(lines[k - 1]) {
        assert Records(m) == Records(m0) + [m.cur];
        assert Records(m)[..|Records(m)| - 1] == Records(m0);
      } else {
        assert Records(m)[..|Records(m)| - 1] == m0.done;
        assert forall i :: 0 <= i < |Records(m)| ==> Records(m)[i].start == Records(m0)[i].start;
      }
    }
  }

  /**
   * FASTQ quality countdown: starting with `n` bytes to go, quality lines are
   * consumed until their summed length reaches n; nothing but the phase
   * changes meanwhile.
   */
  lemma {:induction false} QualityCountdown(rule: SeparatorRule, m: Machine, n: int, lines: seq<Line>, i: nat, j: nat)
    requires m.phase == Quality(n)
    requires i < j <= |lines|
    requires forall t :: i < t < j ==> SumLens(lines[i..t]) < n
    ensures var m' := FoldFrom(Fastq, rule, m, lines, i, j);
      && m'.phase == (if SumLens(lines[i..j]) >= n then Header else Quality(n - SumLens(lines[i..j])))
      && m'.id == m.id && m'.done == m.done && m'.cur == m.cur && m'.warnings == m.warnings
    decreases j
  {
    assert lines[i..j] == lines[i..j - 1] + [lines[j - 1]];
    assert lines[i..j][..j - i - 1] == lines[i..j - 1];
    if j > i + 1 {
      QualityCountdown(rule, m, n, lines, i, j - 1);
    } else {
      assert lines[i..j - 1] == [];
    }
  }

  // ----- where records begin -----

  /** The index of the line each record begins at, with that line. */
  function Heads(recs: seq<Record>): seq<(nat, Line)>
  {
    seq(|recs|, i requires 0 <= i < |recs| => (recs[i].start, recs[i].header))
  }

  /** Whether line x, read in state m, opens a new record. */
  predicate Opens(fmt: Format, m: Machine, x: Line)
  {
    if fmt == Fasta then IsFastaHeader(x) else m.phase == Header
  }

  /** One step either leaves the record heads alone or appends the line just read. */
  lemma HeadsStep(fmt: Format, rule: SeparatorRule, m: Machine, x: Line, k: nat)
    ensures Heads(Records(Step(fmt, rule, m, x, k))) == Heads(Records(m)) + (if Opens(fmt, m, x) then [(k, x)] else [])
  {
    var m' := Step(fmt, rule, m, x, k);
    if Opens(fmt, m, x) {
      assert Records(m') == Records(m) + [m'.cur];
    } else {
      assert |Records(m')| == |Records(m)|;
      assert forall i :: 0 <= i < |Records(m)| ==> Heads(Records(m'))[i] == Heads(Records(m))[i];
    }
  }

  /**
   * Every record of a run begins at a line already read whose text is its
   * header, the first at line 0, and records begin in strictly increasing
   * line order.
   */
  lemma {:induction false} HeadsOfRun(fmt: Format, rule: SeparatorRule, lines: seq<Line>, k: nat)
    requires 1 <= k <= |lines|
    ensures var h := Heads(Records(Run(fmt, rule, lines, k)));
      && |h| >= 1 && h[0] == (0, lines[0])
      && (forall i :: 0 <= i < |h| ==> h[i].0 < k && h[i].1 == lines[h[i].0])
      && (forall i, j :: 0 <= i < j < |h| ==> h[i].0 < h[j].0)
  {
    if k > 1 {
      HeadsOfRun(fmt, rule, lines, k - 1);
      HeadsStep(fmt, rule, Run(fmt, rule, lines, k - 1), lines[k - 1], k - 1);
    }
  }

  /**
   * FASTA: past line 0, a line begins a record exactly when it is a '>'
   * line; so every record after the first has a '>' header.
   */
  lemma {:induction false} FastaHeadsExact(rule: SeparatorRule, lines: seq<Line>, k: nat)
    requires 1 <= k <= |lines|
    ensures var h := Heads(Records(Run(Fasta, rule, lines, k)));
      && (forall j :: 1 <= j < k ==> (IsFastaHeader(lines[j]) <==> exists i :: 0 <= i < |h| && h[i].0 == j))
      && (forall i :: 1 <= i < |h| ==> IsFastaHeader(h[i].1))
  {
    if k == 1 {
      HeadsOfRun(Fasta, rule, lines, k);
    } else {
      FastaHeadsExact(rule, lines, k - 1);
      HeadsOfRun(Fasta, rule, lines, k - 1);
      var m0 := Run(Fasta, rule, lines, k - 1);
      HeadsStep(Fasta, rule, m0, lines[k - 1], k - 1);
      HeadsExactSnoc(lines, k, Heads(Records(m0)), Heads(Records(Run(Fasta, rule, lines, k))));
    }
  }

  /** The step of FastaHeadsExact: line k - 1 opens a record exactly when it is a '>' line. */
  lemma {:induction false} HeadsExactSnoc(lines: seq<Line>, k: nat, h0: seq<(nat, Line)>, h: seq<(nat, Line)>)
    requires 1 < k <= |lines|
    requires forall i :: 0 <= i < |h0| ==> h0[i].0 < k - 1
    requires forall j :: 1 <= j < k - 1 ==> (IsFastaHeader(lines[j]) <==> exists i :: 0 <= i < |h0| && h0[i].0 == j)
    requires forall i :: 1 <= i < |h0| ==> IsFastaHeader(h0[i].1)
    requires h == h0 + (if IsFastaHeader(lines[k - 1]) then [(k - 1, lines[k - 1])] else [])
    ensures forall j :: 1 <= j < k ==> (IsFastaHeader(lines[j]) <==> exists i :: 0 <= i < |h| && h[i].0 == j)
    ensures forall i :: 1 <= i < |h| ==> IsFastaHeader(h[i].1)
  {
    forall j | 1 <= j < k
      ensures IsFastaHeader(lines[j]) <==> exists i :: 0 <= i < |h| && h[i].0 == j
    {
      if j == k - 1 {
        if IsFastaHeader(lines[j]) {
          assert h[|h0|].0 == j;
        } else {
          assert h == h0;
        }
      } else {
        if IsFastaHeader(lines[j]) {
          var i :| 0 <= i < |h0| && h0[i].0 == j;
          assert h[i] == h0[i];
        }
        if exists i :: 0 <= i < |h| && h[i].0 == j {
          var i :| 0 <= i < |h| && h[i].0 == j;
          assert i < |h0| && h0[i].0 == j;
        }
      }
    }
  }

  /** Reading further never changes where the records already seen begin. */
  lemma {:induction false} HeadsPrefix(fmt: Format, rule: SeparatorRule, lines: seq<Line>, k: nat, k': nat)
    requires 1 <= k <= k' <= |lines|
    ensures Heads(Records(Run(fmt, rule, lines, k))) <= Heads(Records(Run(fmt, rule, lines, k')))
    decreases k'
  {
    if k' > k {
      HeadsPrefix(fmt, rule, lines, k, k' - 1);
      HeadsStep(fmt, rule, Run(fmt, rule, lines, k' - 1), lines[k' - 1], k' - 1);
    }
  }
}
