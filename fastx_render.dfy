/**
 * Well-formed FASTQ and FASTA files, written out line by line, and the
 * proof that the scan recovers every read from them: its header, the
 * length of its sequence and, in FASTQ, that its quality block was read to
 * the end with no format warning.
 */
module FastxRender {
  import opened Text
  import opened FastxScan

  /** A FASTQ read: "@name[ comment]", the sequence lines, "+[name]" and the quality lines. */
  datatype FastqRead = FastqRead(name: seq<char>, comment: seq<char>, bases: seq<Line>, repeatName: bool, qual: seq<Line>)

  /** A FASTA read: ">name[ comment]" and the sequence lines. */
  datatype FastaRead = FastaRead(name: seq<char>, comment: seq<char>, bases: seq<Line>)

  function HeaderLine(tag: char, name: seq<char>, comment: seq<char>): Line
  {
    [tag] + name + (if |comment| == 0 then [] else [' '] + comment)
  }

  function SeparatorOf(r: FastqRead): Line
  {
    ['+'] + (if r.repeatName then r.name else [])
  }

  function FastqLines(r: FastqRead): seq<Line>
  {
    [HeaderLine('@', r.name, r.comment)] + r.bases + [SeparatorOf(r)] + r.qual
  }

  function FastaLines(r: FastaRead): seq<Line>
  {
    [HeaderLine('>', r.name, r.comment)] + r.bases
  }

  function RenderFastq(rs: seq<FastqRead>): seq<Line>
  {
    if |rs| == 0 then [] else RenderFastq(rs[..|rs| - 1]) + FastqLines(rs[|rs| - 1])
  }

  function RenderFasta(rs: seq<FastaRead>): seq<Line>
  {
    if |rs| == 0 then [] else RenderFasta(rs[..|rs| - 1]) + FastaLines(rs[|rs| - 1])
  }

  /**
   * A FASTQ read as sequencers write it: a name without spaces, sequence
   * lines that do not start with '+', as many quality bytes as bases, and
   * no empty quality line unless the quality is a single line. A bare-`+`
   * scanner also needs the separator not to repeat the name.
   */
  predicate FastqWellFormed(rule: SeparatorRule, r: FastqRead)
  {
    && ' ' !in r.name
    && (rule == BarePlus ==> !r.repeatName)
    && (forall x :: x in r.bases ==> !(|x| > 0 && x[0] == '+'))
    && |r.qual| >= 1
    && SumLens(r.qual) == SumLens(r.bases)
    && (|r.qual| == 1 || forall q :: q in r.qual ==> |q| > 0)
  }

  predicate FastaWellFormed(r: FastaRead)
  {
    && ' ' !in r.name
    && (forall x :: x in r.bases ==> !(|x| > 0 && x[0] == '>'))
  }

  /** The name read back from a written header is the name written. */
  lemma HeaderName(tag: char, name: seq<char>, comment: seq<char>)
    requires ' ' !in name
    ensures ReadName(HeaderLine(tag, name, comment)) == name
  {
    var h := HeaderLine(tag, name, comment);
    assert h[1..] == name + (if |comment| == 0 then [] else [' '] + comment);
    TokenUnique(h[1..], name);
  }

  lemma SeparatorRecognised(rule: SeparatorRule, r: FastqRead)
    requires FastqWellFormed(rule, r)
    ensures IsSeparator(rule, SeparatorOf(r), r.name)
  {
    var line := SeparatorOf(r);
    if rule == NameAware {
      SeparatorSpec(line, r.name);
      if r.repeatName {
        assert line[1..|r.name| + 1] == r.name;
      }
    }
  }

  /** A window inside a window. */
  lemma Window(lines: seq<Line>, p: nat, block: seq<Line>, a: nat, b: nat)
    requires p + |block| <= |lines| && lines[p..p + |block|] == block
    requires a <= b <= |block|
    ensures lines[p + a..p + b] == block[a..b]
  {
    var w := lines[p + a..p + b];
    var whole := lines[p..p + |block|];
    assert forall t :: 0 <= t < |w| ==> w[t] == whole[a + t];
  }

  /** A line that does not start with '+' extends the read in the sequence phase. */
  lemma PlainStep(rule: SeparatorRule, m: Machine, x: Line, k: nat)
    requires m.phase == Sequence && !(|x| > 0 && x[0] == '+')
    ensures Step(Fastq, rule, m, x, k) == m.(cur := m.cur.(seqLen := m.cur.seqLen + |x|))
  {
  }

  /** Sequence lines only add to the open record. */
  lemma {:induction false} SequenceLines(rule: SeparatorRule, m: Machine, lines: seq<Line>, i: nat, j: nat)
    requires m.phase == Sequence
    requires i <= j <= |lines|
    requires forall k :: i <= k < j ==> !(|lines[k]| > 0 && lines[k][0] == '+')
    ensures FoldFrom(Fastq, rule, m, lines, i, j) == m.(cur := m.cur.(seqLen := m.cur.seqLen + SumLens(lines[i..j])))
    decreases j
  {
    if j > i {
      SequenceLines(rule, m, lines, i, j - 1);
      var a := FoldFrom(Fastq, rule, m, lines, i, j - 1);
      PlainStep(rule, a, lines[j - 1], j - 1);
      SumLensSlice(lines, i, j);
    } else {
      assert lines[i..j] == [];
    }
  }

  /** The last line of a window adds its length to the window's sum. */
  lemma SumLensSlice(lines: seq<Line>, i: nat, j: nat)
    requires i < j <= |lines|
    ensures SumLens(lines[i..j]) == SumLens(lines[i..j - 1]) + |lines[j - 1]|
  {
    assert lines[i..j][..j - 1 - i] == lines[i..j - 1];
  }

  /** Every line of a window holding `block` is a line of `block`. */
  lemma WindowLines(lines: seq<Line>, i: nat, j: nat, block: seq<Line>)
    requires i <= j <= |lines| && lines[i..j] == block
    ensures forall k :: i <= k < j ==> lines[k] in block
  {
    forall k | i <= k < j ensures lines[k] in block {
      assert lines[k] == block[k - i];
    }
  }

  /** A proper prefix of well-formed quality lines is shorter than the sequence. */
  lemma QualityPrefix(rule: SeparatorRule, r: FastqRead, t: nat)
    requires FastqWellFormed(rule, r)
    requires 0 < t < |r.qual|
    ensures SumLens(r.qual[..t]) < SumLens(r.bases)
  {
    var q := r.qual;
    assert q == q[..t] + q[t..];
    SumLensAppend(q[..t], q[t..]);
    var tail := q[t..];
    assert tail[|tail| - 1] in q;
  }

  /** A well-formed quality block ends the countdown on its last line. */
  lemma QualityBlock(rule: SeparatorRule, r: FastqRead, m: Machine, lines: seq<Line>, i: nat, j: nat)
    requires FastqWellFormed(rule, r)
    requires m.phase == Quality(SumLens(r.bases))
    requires i <= j <= |lines| && lines[i..j] == r.qual
    ensures FoldFrom(Fastq, rule, m, lines, i, j) == m.(phase := Header)
  {
    forall t | i < t < j
      ensures SumLens(lines[i..t]) < SumLens(r.bases)
    {
      assert lines[i..t] == r.qual[..t - i];
      QualityPrefix(rule, r, t - i);
    }
    QualityCountdown(rule, m, SumLens(r.bases), lines, i, j);
  }

  /** Where each part of a written FASTQ read sits among its lines. */
  lemma FastqLinesParts(r: FastqRead)
    ensures var rl := FastqLines(r);
      var nb := |r.bases|;
      && |rl| == 2 + nb + |r.qual|
      && rl[0] == HeaderLine('@', r.name, r.comment)
      && rl[1..1 + nb] == r.bases
      && rl[1 + nb] == SeparatorOf(r)
      && rl[2 + nb..] == r.qual
  {
  }

  /** One line of a window. */
  lemma WindowAt(lines: seq<Line>, p: nat, block: seq<Line>, k: nat)
    requires p + |block| <= |lines| && lines[p..p + |block|] == block && k < |block|
    ensures lines[p + k] == block[k]
  {
    assert lines[p + k] == lines[p..p + |block|][k];
  }

  /** A separator in the sequence phase opens the quality block, owing as many bytes as the read has bases. */
  lemma SeparatorStep(rule: SeparatorRule, m: Machine, x: Line, k: nat)
    requires m.phase == Sequence && IsSeparator(rule, x, m.id)
    ensures Step(Fastq, rule, m, x, k) == m.(phase := Quality(m.cur.seqLen), cur := m.cur.(sep := true))
  {
  }

  /** Sequence lines and then a separator: the read's length is summed and the quality block opened. */
  lemma SequenceThenSeparator(rule: SeparatorRule, m: Machine, lines: seq<Line>, i: nat, j: nat, n: nat)
    requires m.phase == Sequence
    requires i <= j < |lines|
    requires forall k :: i <= k < j ==> !(|lines[k]| > 0 && lines[k][0] == '+')
    requires IsSeparator(rule, lines[j], m.id)
    requires n == m.cur.seqLen + SumLens(lines[i..j])
    ensures FoldFrom(Fastq, rule, m, lines, i, j + 1) == m.(phase := Quality(n), cur := m.cur.(seqLen := n, sep := true))
  {
    SequenceLines(rule, m, lines, i, j);
    SeparatorStep(rule, FoldFrom(Fastq, rule, m, lines, i, j), lines[j], j);
  }

  /** Where the sequence lines and the separator of a written read sit in the file. */
  lemma WrittenParts(r: FastqRead, lines: seq<Line>, p: nat)
    requires p + |FastqLines(r)| <= |lines| && lines[p..p + |FastqLines(r)|] == FastqLines(r)
    ensures var s := p + 1 + |r.bases|;
      s < |lines| && lines[p + 1..s] == r.bases && lines[s] == SeparatorOf(r)
  {
    var rl := FastqLines(r);
    var nb := |r.bases|;
    FastqLinesParts(r);
    Window(lines, p, rl, 1, 1 + nb);
    WindowAt(lines, p, rl, 1 + nb);
  }

  /** The lines of a written read, seen from the scan: plain sequence lines, then a separator for its name. */
  lemma WrittenSequence(rule: SeparatorRule, r: FastqRead, lines: seq<Line>, p: nat)
    requires FastqWellFormed(rule, r)
    requires p + |FastqLines(r)| <= |lines| && lines[p..p + |FastqLines(r)|] == FastqLines(r)
    ensures var s := p + 1 + |r.bases|;
      && s < |lines|
      && (forall k :: p + 1 <= k < s ==> !(|lines[k]| > 0 && lines[k][0] == '+'))
      && IsSeparator(rule, lines[s], r.name)
      && SumLens(lines[p + 1..s]) == SumLens(r.bases)
  {
    var s := p + 1 + |r.bases|;
    WrittenParts(r, lines, p);
    forall k | p + 1 <= k < s
      ensures !(|lines[k]| > 0 && lines[k][0] == '+')
    {
      assert lines[k] == r.bases[k - p - 1] && lines[k] in r.bases;
    }
    SeparatorRecognised(rule, r);
  }

  /** From the sequence lines of a read through its separator line. */
  lemma ReadSequence(rule: SeparatorRule, r: FastqRead, m: Machine, lines: seq<Line>, p: nat)
    requires FastqWellFormed(rule, r)
    requires m.phase == Sequence && m.id == r.name && m.cur.seqLen == 0
    requires p + |FastqLines(r)| <= |lines| && lines[p..p + |FastqLines(r)|] == FastqLines(r)
    ensures FoldFrom(Fastq, rule, m, lines, p + 1, p + 1 + |r.bases| + 1)
         == m.(phase := Quality(SumLens(r.bases)), cur := m.cur.(seqLen := SumLens(r.bases), sep := true))
  {
    WrittenSequence(rule, r, lines, p);
    SequenceThenSeparator(rule, m, lines, p + 1, p + 1 + |r.bases|, SumLens(r.bases));
  }

  /** Where the quality lines of a written read sit in the file. */
  lemma WrittenQuality(r: FastqRead, lines: seq<Line>, p: nat)
    requires p + |FastqLines(r)| <= |lines| && lines[p..p + |FastqLines(r)|] == FastqLines(r)
    ensures p + 1 + |r.bases| + 1 <= p + |FastqLines(r)|
    ensures lines[p + 1 + |r.bases| + 1..p + |FastqLines(r)|] == r.qual
  {
    var rl := FastqLines(r);
    FastqLinesParts(r);
    Window(lines, p, rl, 2 + |r.bases|, |rl|);
  }

  /** From the sequence lines of a read to the end of its quality block. */
  lemma ReadBody(rule: SeparatorRule, r: FastqRead, m: Machine, lines: seq<Line>, p: nat)
    requires FastqWellFormed(rule, r)
    requires m.phase == Sequence && m.id == r.name && m.cur.seqLen == 0
    requires p + |FastqLines(r)| <= |lines| && lines[p..p + |FastqLines(r)|] == FastqLines(r)
    ensures FoldFrom(Fastq, rule, m, lines, p + 1, p + |FastqLines(r)|)
         == m.(phase := Header, cur := m.cur.(seqLen := SumLens(r.bases), sep := true))
  {
    var s := p + 1 + |r.bases| + 1;
    var e := p + |FastqLines(r)|;
    var a := m.(phase := Quality(SumLens(r.bases)), cur := m.cur.(seqLen := SumLens(r.bases), sep := true));
    ReadSequence(rule, r, m, lines, p);
    WrittenQuality(r, lines, p);
    QualityBlock(rule, r, a, lines, s, e);
    FoldChain(Fastq, rule, m, lines, p + 1, s, e, a, a.(phase := Header));
  }

  /** A written header after a complete record opens a new record and raises no warning. */
  lemma HeaderStep(rule: SeparatorRule, r: FastqRead, m: Machine, lines: seq<Line>, p: nat)
    requires ' ' !in r.name
    requires m.phase == Header
    requires p < |lines| && lines[p] == HeaderLine('@', r.name, r.comment)
    ensures FoldFrom(Fastq, rule, m, lines, p, p + 1)
         == Machine(Sequence, r.name, m.done + [m.cur], Record(p, HeaderLine('@', r.name, r.comment), 0, false), m.warnings)
  {
    var h := HeaderLine('@', r.name, r.comment);
    HeaderName('@', r.name, r.comment);
    assert IsFastqHeader(h) && Register(m.id, h) == r.name;
    assert FoldFrom(Fastq, rule, m, lines, p, p) == m;
    assert m.warnings + [] == m.warnings;
  }

  /** A whole read after the previous record's quality block: a new record, no warning. */
  lemma NextRead(rule: SeparatorRule, r: FastqRead, m: Machine, lines: seq<Line>, p: nat)
    requires FastqWellFormed(rule, r)
    requires m.phase == Header
    requires p + |FastqLines(r)| <= |lines| && lines[p..p + |FastqLines(r)|] == FastqLines(r)
    ensures FoldFrom(Fastq, rule, m, lines, p, p + |FastqLines(r)|)
         == Machine(Header, r.name, m.done + [m.cur], Record(p, HeaderLine('@', r.name, r.comment), SumLens(r.bases), true), m.warnings)
  {
    var e := p + |FastqLines(r)|;
    var h := HeaderLine('@', r.name, r.comment);
    assert lines[p] == lines[p..e][0];
    HeaderStep(rule, r, m, lines, p);
    var m1 := FoldFrom(Fastq, rule, m, lines, p, p + 1);
    assert m1 == Machine(Sequence, r.name, m.done + [m.cur], Record(p, h, 0, false), m.warnings);
    ReadBody(rule, r, m1, lines, p);
    var m2 := FoldFrom(Fastq, rule, m1, lines, p + 1, e);
    assert m2 == Machine(Header, r.name, m.done + [m.cur], Record(p, h, SumLens(r.bases), true), m.warnings);
    FoldSplit(Fastq, rule, m, lines, p, p + 1, e);
  }

  /** The records a written FASTQ file should scan to, each starting at its header line. */
  function FastqExpected(rs: seq<FastqRead>): seq<Record>
  {
    if |rs| == 0 then []
    else
      var r := rs[|rs| - 1];
      FastqExpected(rs[..|rs| - 1])
        + [Record(|RenderFastq(rs[..|rs| - 1])|, HeaderLine('@', r.name, r.comment), SumLens(r.bases), true)]
  }

  function FastaExpected(rs: seq<FastaRead>): seq<Record>
  {
    if |rs| == 0 then []
    else
      var r := rs[|rs| - 1];
      FastaExpected(rs[..|rs| - 1])
        + [Record(|RenderFasta(rs[..|rs| - 1])|, HeaderLine('>', r.name, r.comment), SumLens(r.bases), false)]
  }

  lemma RenderOneFastq(r: FastqRead)
    ensures RenderFastq([r]) == FastqLines(r)
    ensures RenderFastq([r])[0..|RenderFastq([r])|] == FastqLines(r)
  {
    assert [r][..0] == [];
    assert RenderFastq([r][..0]) == [];
    assert RenderFastq([r]) == [] + FastqLines(r);
  }

  lemma FastqFirstRead(rule: SeparatorRule, r: FastqRead)
    requires FastqWellFormed(rule, r)
    ensures |RenderFastq([r])| >= 1
    ensures var m := Run(Fastq, rule, RenderFastq([r]), |RenderFastq([r])|);
      m.phase == Header && m.warnings == [] && m.id == r.name && Records(m) == FastqExpected([r])
  {
    var lines := RenderFastq([r]);
    var h := HeaderLine('@', r.name, r.comment);
    RenderOneFastq(r);
    assert lines[0] == h;
    HeaderName('@', r.name, r.comment);
    var m0 := Start(h);
    assert m0 == Machine(Sequence, r.name, [], Record(0, h, 0, false), []);
    ReadBody(rule, r, m0, lines, 0);
    var rec := Record(0, h, SumLens(r.bases), true);
    assert Run(Fastq, rule, lines, |lines|) == Machine(Header, r.name, [], rec, []);
    assert FastqExpected([r]) == FastqExpected([]) + [rec];
  }

  lemma FastqNextRead(rule: SeparatorRule, rs: seq<FastqRead>)
    requires |rs| >= 2
    requires FastqWellFormed(rule, rs[|rs| - 1])
    requires |RenderFastq(rs[..|rs| - 1])| >= 1
    requires var mp := Run(Fastq, rule, RenderFastq(rs[..|rs| - 1]), |RenderFastq(rs[..|rs| - 1])|);
      mp.phase == Header && mp.warnings == [] && Records(mp) == FastqExpected(rs[..|rs| - 1])
    ensures |RenderFastq(rs)| >= 1
    ensures var m := Run(Fastq, rule, RenderFastq(rs), |RenderFastq(rs)|);
      m.phase == Header && m.warnings == [] && m.id == rs[|rs| - 1].name && Records(m) == FastqExpected(rs)
  {
    var r := rs[|rs| - 1];
    var rs' := rs[..|rs| - 1];
    var prev := RenderFastq(rs');
    var lines := RenderFastq(rs);
    var rl := FastqLines(r);
    assert lines == prev + rl;
    assert lines[|prev|..|prev| + |rl|] == rl;
    var mp := Run(Fastq, rule, prev, |prev|);
    assert lines[..|prev|] == prev;
    RunExtend(Fastq, rule, prev, lines);
    NextRead(rule, r, mp, lines, |prev|);
    var rec := Record(|prev|, HeaderLine('@', r.name, r.comment), SumLens(r.bases), true);
    var mq := Machine(Header, r.name, mp.done + [mp.cur], rec, mp.warnings);
    assert Run(Fastq, rule, lines, |lines|) == mq;
    assert FastqExpected(rs) == FastqExpected(rs') + [rec];
  }

  /**
   * Round trip: scanning a written FASTQ file yields exactly the expected
   * records, ends after a complete quality block and raises no warning.
   */
  lemma {:induction false} FastqScanOfRender(rule: SeparatorRule, rs: seq<FastqRead>)
    requires |rs| >= 1
    requires forall i :: 0 <= i < |rs| ==> FastqWellFormed(rule, rs[i])
    ensures |RenderFastq(rs)| >= 1
    ensures var m := Run(Fastq, rule, RenderFastq(rs), |RenderFastq(rs)|);
      m.phase == Header && m.warnings == [] && m.id == rs[|rs| - 1].name && Records(m) == FastqExpected(rs)
  {
    if |rs| == 1 {
      assert rs == [rs[0]];
      FastqFirstRead(rule, rs[0]);
    } else {
      var rs' := rs[..|rs| - 1];
      forall i | 0 <= i < |rs'| ensures FastqWellFormed(rule, rs'[i]) {
        assert rs'[i] == rs[i];
      }
      FastqScanOfRender(rule, rs');
      FastqNextRead(rule, rs);
    }
  }

  lemma {:induction false} FastaLinesOnly(rule: SeparatorRule, m: Machine, lines: seq<Line>, i: nat, j: nat)
    requires i <= j <= |lines|
    requires forall k :: i <= k < j ==> !(|lines[k]| > 0 && lines[k][0] == '>')
    ensures FoldFrom(Fasta, rule, m, lines, i, j) == m.(cur := m.cur.(seqLen := m.cur.seqLen + SumLens(lines[i..j])))
    decreases j
  {
    if j > i {
      FastaLinesOnly(rule, m, lines, i, j - 1);
      SumLensSlice(lines, i, j);
    } else {
      assert lines[i..j] == [];
    }
  }

  /** The last read of a written FASTA file sits at its end. */
  lemma RenderFastaLast(rs: seq<FastaRead>)
    requires |rs| >= 1
    ensures var prev := RenderFasta(rs[..|rs| - 1]);
      var lines := RenderFasta(rs);
      var r := rs[|rs| - 1];
      && |lines| == |prev| + 1 + |r.bases|
      && lines[..|prev|] == prev
      && lines[|prev|] == HeaderLine('>', r.name, r.comment)
      && lines[|prev| + 1..] == r.bases
  {
    var prev := RenderFasta(rs[..|rs| - 1]);
    var rl := FastaLines(rs[|rs| - 1]);
    assert RenderFasta(rs) == prev + rl;
    assert (prev + rl)[|prev| + 1..] == rl[1..];
  }

  /** A written FASTA read, its header and then its sequence lines, closes the record before it and opens its own. */
  lemma WrittenFastaRead(rule: SeparatorRule, m: Machine, lines: seq<Line>, p: nat, r: FastaRead)
    requires FastaWellFormed(r)
    requires p < |lines| && lines[p] == HeaderLine('>', r.name, r.comment) && lines[p + 1..] == r.bases
    ensures FoldFrom(Fasta, rule, m, lines, p, |lines|)
         == m.(done := m.done + [m.cur], cur := Record(p, HeaderLine('>', r.name, r.comment), SumLens(r.bases), false))
  {
    var h := HeaderLine('>', r.name, r.comment);
    assert FoldFrom(Fasta, rule, m, lines, p, p) == m;
    var m1 := FoldFrom(Fasta, rule, m, lines, p, p + 1);
    assert m1 == m.(done := m.done + [m.cur], cur := Record(p, h, 0, false));
    assert lines[p + 1..|lines|] == r.bases;
    WindowLines(lines, p + 1, |lines|, r.bases);
    FastaLinesOnly(rule, m1, lines, p + 1, |lines|);
    FoldSplit(Fasta, rule, m, lines, p, p + 1, |lines|);
  }

  lemma FastaFirstRead(rule: SeparatorRule, rs: seq<FastaRead>)
    requires |rs| == 1 && FastaWellFormed(rs[0])
    ensures |RenderFasta(rs)| >= 1
    ensures Records(Run(Fasta, rule, RenderFasta(rs), |RenderFasta(rs)|)) == FastaExpected(rs)
  {
    var r := rs[0];
    var lines := RenderFasta(rs);
    RenderFastaLast(rs);
    assert rs[..0] == [] && RenderFasta(rs[..0]) == [];
    assert lines[1..|lines|] == r.bases;
    WindowLines(lines, 1, |lines|, r.bases);
    FastaLinesOnly(rule, Start(lines[0]), lines, 1, |lines|);
    assert FastaExpected(rs[..0]) == [];
  }

  lemma FastaNextRead(rule: SeparatorRule, rs: seq<FastaRead>)
    requires |rs| >= 2 && FastaWellFormed(rs[|rs| - 1])
    requires |RenderFasta(rs[..|rs| - 1])| >= 1
    requires var prev := RenderFasta(rs[..|rs| - 1]);
      Records(Run(Fasta, rule, prev, |prev|)) == FastaExpected(rs[..|rs| - 1])
    ensures |RenderFasta(rs)| >= 1
    ensures Records(Run(Fasta, rule, RenderFasta(rs), |RenderFasta(rs)|)) == FastaExpected(rs)
  {
    var prev := RenderFasta(rs[..|rs| - 1]);
    var lines := RenderFasta(rs);
    RenderFastaLast(rs);
    var mp := Run(Fasta, rule, prev, |prev|);
    RunExtend(Fasta, rule, prev, lines);
    WrittenFastaRead(rule, mp, lines, |prev|, rs[|rs| - 1]);
  }

  /** Round trip for FASTA: scanning a written file yields exactly the expected records. */
  lemma {:induction false} FastaScanOfRender(rule: SeparatorRule, rs: seq<FastaRead>)
    requires |rs| >= 1
    requires forall i :: 0 <= i < |rs| ==> FastaWellFormed(rs[i])
    ensures |RenderFasta(rs)| >= 1
    ensures Records(Run(Fasta, rule, RenderFasta(rs), |RenderFasta(rs)|)) == FastaExpected(rs)
  {
    if |rs| == 1 {
      FastaFirstRead(rule, rs);
    } else {
      var rs' := rs[..|rs| - 1];
      forall i | 0 <= i < |rs'| ensures FastaWellFormed(rs'[i]) {
        assert rs'[i] == rs[i];
      }
      FastaScanOfRender(rule, rs');
      FastaNextRead(rule, rs);
    }
  }
}
