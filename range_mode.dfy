/**
 * Which records the range mode of do_extract (src/fatt.cc) prints: from
 * the record at ordinal --start up to, not including, the record at
 * ordinal --end, or to the end of the file; with no --end, exactly the
 * record at --start. Stated for a FASTA file with the corrected table and
 * for any well-formed FASTQ file.
 */
module RangeMode {
  import opened Wrappers
  import opened Text
  import opened LineSource
  import opened FastxScan
  import opened PositionIndex
  import opened Extract
  import opened FastxRender

  /** The first record range mode does not print: the one at --end, but at least the one after --start. */
  function StopOrdinal(start: nat, stop: int): nat
  {
    if stop <= start + 1 then start + 1 else stop
  }

  // ----- FASTA -----

  /** The FASTA range loop runs through a body as the body loop does, then decides at the '>' line it stopped on. */
  lemma {:induction false} FastaRangeBody(lines: seq<Line>, r: nat, seqIndex: int, stop: int)
    requires r <= |lines|
    ensures var s := FastaBody(lines, r);
      FastaRange(lines, r, seqIndex, stop)
        == if s.eof || stop <= seqIndex + 1 then Ranged(s.out, RangeDone)
           else RPrepend(s.out + [lines[s.end - 1]], FastaRange(lines, s.end, seqIndex + 1, stop))
    decreases |lines| - r
  {
    if r < |lines| && !IsFastaHeader(lines[r]) {
      FastaRangeBody(lines, r + 1, seqIndex, stop);
      var s := FastaBody(lines, r + 1);
      if !(s.eof || stop <= seqIndex + 1) {
        RPrependRPrepend([lines[r]], s.out + [lines[s.end - 1]], FastaRange(lines, s.end, seqIndex + 1, stop));
        assert [lines[r]] + (s.out + [lines[s.end - 1]]) == ([lines[r]] + s.out) + [lines[s.end - 1]];
      }
    } else if r < |lines| {
      assert [] + [lines[r]] == [lines[r]];
    }
  }

  /** Where the range that starts at record j ends: the first line of record StopOrdinal, or the end of the file. */
  function RangeEnd(lines: seq<Line>, heads: seq<(nat, Line)>, j: nat, stop: int): nat
  {
    var e := StopOrdinal(j, stop);
    if e < |heads| then heads[e].0 else |lines|
  }

  /** Records begin in increasing line order, each at a line of the file. */
  lemma {:induction false} HeadsOrdered(lines: seq<Line>, a: nat, b: nat)
    requires |lines| >= 1 && a < b < |FileHeads(Fasta, lines)|
    ensures FileHeads(Fasta, lines)[a].0 < FileHeads(Fasta, lines)[b].0 < |lines|
  {
    HeadsOfRun(Fasta, NameAware, lines, |lines|);
  }

  /** From the line after record j's header, the FASTA range loop prints up to RangeEnd and stops normally. */
  lemma {:induction false} FastaRangeRecords(lines: seq<Line>, j: nat, stop: int)
    requires |lines| >= 1 && j < |FileHeads(Fasta, lines)|
    ensures var heads := FileHeads(Fasta, lines);
      && heads[j].0 + 1 <= RangeEnd(lines, heads, j, stop) <= |lines|
      && FastaRange(lines, heads[j].0 + 1, j, stop) == Ranged(lines[heads[j].0 + 1..RangeEnd(lines, heads, j, stop)], RangeDone)
    decreases |FileHeads(Fasta, lines)| - j
  {
    var heads := FileHeads(Fasta, lines);
    var h := heads[j].0;
    var end := RangeEnd(lines, heads, j, stop);
    FastaBodyOfRecord(lines, j);
    FastaRangeBody(lines, h + 1, j, stop);
    if j + 1 < |heads| {
      var next := heads[j + 1].0;
      var e := StopOrdinal(j, stop);
      if e < |heads| {
        HeadsOrdered(lines, j, e);
      }
      if stop > j + 1 {
        FastaRangeRecords(lines, j + 1, stop);
        assert RangeEnd(lines, heads, j + 1, stop) == end;
        FastaGoesOn(lines, h, next, end, j, stop);
      }
    }
  }

  /** The range goes on past the '>' line at `next` into the next record, whose range ends at `end`. */
  lemma {:induction false} FastaGoesOn(lines: seq<Line>, h: nat, next: nat, end: nat, j: int, stop: int)
    requires h + 1 <= next < end <= |lines|
    requires FastaRange(lines, h + 1, j, stop) == RPrepend(lines[h + 1..next] + [lines[next]], FastaRange(lines, next + 1, j + 1, stop))
    requires FastaRange(lines, next + 1, j + 1, stop) == Ranged(lines[next + 1..end], RangeDone)
    ensures FastaRange(lines, h + 1, j, stop) == Ranged(lines[h + 1..end], RangeDone)
  {
    assert lines[h + 1..next] + [lines[next]] + lines[next + 1..end] == lines[h + 1..end];
  }

  /** In a file that starts with a '>' line, every record begins at a '>' line. */
  lemma {:induction false} FastaHeaderAt(lines: seq<Line>, j: nat)
    requires |lines| >= 1 && IsFastaHeader(lines[0]) && j < |FileHeads(Fasta, lines)|
    ensures FileHeads(Fasta, lines)[j].0 < |lines| && IsFastaHeader(lines[FileHeads(Fasta, lines)[j].0])
  {
    HeadsOfRun(Fasta, NameAware, lines, |lines|);
    FastaHeadsExact(NameAware, lines, |lines|);
  }

  /**
   * Range mode on a FASTA file with the corrected table, from a stream
   * that has not failed: --start s below the record count prints the lines
   * of records s up to, not including, StopOrdinal(s, --end), or to the end
   * of the file, and stops normally; with --end not above s + 1 it prints
   * exactly record s.
   */
  lemma {:induction false} CorrectedFastaRange(lines: seq<Line>, start: nat, stop: int, c: Cursor)
    requires |lines| >= 1 && IsFastaHeader(lines[0]) && CorrectedFileIndex(Fasta, lines).Ok?
    requires start < |FileHeads(Fasta, lines)| && Fits(lines, c) && !c.failed
    ensures var heads := FileHeads(Fasta, lines);
      var r := ExtractRange(lines, false, CorrectedFileIndex(Fasta, lines).value, start, stop, c);
      && heads[start].0 < RangeEnd(lines, heads, start, stop) <= |lines|
      && r == Ranged(lines[heads[start].0..RangeEnd(lines, heads, start, stop)], RangeDone)
      && (stop <= start + 1 ==> r.out == FastaRecordLines(lines, start))
  {
    var heads := FileHeads(Fasta, lines);
    var h := heads[start];
    var end := RangeEnd(lines, heads, start, stop);
    CorrectedLookupLandsOnHeader(Fasta, lines, start);
    FastaHeaderAt(lines, start);
    assert lines[h.0][0..] == lines[h.0];
    FastaRangeRecords(lines, start, stop);
    assert [lines[h.0]] + lines[h.0 + 1..end] == lines[h.0..end];
  }

  // ----- FASTQ -----

  lemma {:induction false} SliceCons(lines: seq<Line>, a: nat, c: nat)
    requires a < c <= |lines|
    ensures [lines[a]] + lines[a + 1..c] == lines[a..c]
  {
  }

  /** Writing two runs of reads one after the other. */
  lemma {:induction false} RenderAppend(a: seq<FastqRead>, b: seq<FastqRead>)
    ensures RenderFastq(a + b) == RenderFastq(a) + RenderFastq(b)
    decreases |b|
  {
    if |b| == 0 {
      assert a + b == a;
    } else {
      var b' := b[..|b| - 1];
      var last := b[|b| - 1];
      var ab := a + b;
      assert ab[..|ab| - 1] == a + b' && ab[|ab| - 1] == last;
      assert RenderFastq(ab) == RenderFastq(a + b') + FastqLines(last);
      assert RenderFastq(b) == RenderFastq(b') + FastqLines(last);
      RenderAppend(a, b');
      assert (RenderFastq(a) + RenderFastq(b')) + FastqLines(last) == RenderFastq(a) + (RenderFastq(b') + FastqLines(last));
    }
  }

  /** The reads a .. b-1 of a written file sit between the ends of the first a and the first b reads. */
  lemma {:induction false} RenderedWindow(rs: seq<FastqRead>, a: nat, b: nat)
    requires a <= b <= |rs|
    ensures |RenderFastq(rs[..a])| <= |RenderFastq(rs[..b])| <= |RenderFastq(rs)|
    ensures RenderFastq(rs)[|RenderFastq(rs[..a])|..|RenderFastq(rs[..b])|] == RenderFastq(rs[a..b])
  {
    assert rs[..b] == rs[..a] + rs[a..b];
    assert rs == rs[..b] + rs[b..];
    RenderAppend(rs[..a], rs[a..b]);
    RenderAppend(rs[..b], rs[b..]);
  }

  /** Read i of a written file, line by line, starting where the reads before it end. */
  lemma {:induction false} RenderedRead(rs: seq<FastqRead>, i: nat)
    requires i < |rs|
    ensures var p := |RenderFastq(rs[..i])|;
      && p + |FastqLines(rs[i])| == |RenderFastq(rs[..i + 1])| <= |RenderFastq(rs)|
      && RenderFastq(rs)[p..p + |FastqLines(rs[i])|] == FastqLines(rs[i])
  {
    RenderedWindow(rs, i, i + 1);
    assert rs[i..i + 1] == [rs[i]];
    RenderOneFastq(rs[i]);
  }

  /** The expected record i begins where the reads before it end, with read i's header. */
  lemma {:induction false} FastqExpectedAt(rs: seq<FastqRead>, i: nat)
    requires i < |rs|
    ensures |FastqExpected(rs)| == |rs|
    ensures FastqExpected(rs)[i].start == |RenderFastq(rs[..i])|
    ensures FastqExpected(rs)[i].header == HeaderLine('@', rs[i].name, rs[i].comment)
    decreases |rs|
  {
    var rs' := rs[..|rs| - 1];
    if i < |rs'| {
      FastqExpectedAt(rs', i);
      assert rs'[..i] == rs[..i] && rs'[i] == rs[i];
    } else if |rs'| > 0 {
      FastqExpectedAt(rs', 0);
    }
  }

  /** Sequence lines, none starting with '+', are copied and their lengths summed. */
  lemma {:induction false} FastqRangeSequence(lines: seq<Line>, i: nat, j: nat, id: seq<char>, nread: nat, seqIndex: int, stop: int)
    requires i <= j <= |lines|
    requires forall k :: i <= k < j ==> !(|lines[k]| > 0 && lines[k][0] == '+')
    ensures FastqRange(lines, i, id, nread, seqIndex, stop)
         == RPrepend(lines[i..j], FastqRange(lines, j, id, nread + SumLens(lines[i..j]), seqIndex, stop))
    decreases j - i
  {
    if i == j {
      assert lines[i..j] == [];
      var r := FastqRange(lines, j, id, nread, seqIndex, stop);
      assert [] + r.out == r.out;
    } else {
      SumLensFrom(lines, i, j);
      FastqRangeSequence(lines, i + 1, j, id, nread + |lines[i]|, seqIndex, stop);
      RPrependRPrepend([lines[i]], lines[i + 1..j], FastqRange(lines, j, id, nread + SumLens(lines[i..j]), seqIndex, stop));
    }
  }

  /** Quality lines whose proper prefixes stay below n and which reach n are copied exactly. */
  lemma {:induction false} QualityFromExact(lines: seq<Line>, i: nat, j: nat, n: int)
    requires i < j <= |lines|
    requires forall t :: i < t < j ==> SumLens(lines[i..t]) < n
    requires SumLens(lines[i..j]) >= n
    ensures QualityFrom(lines, i, n) == Span(lines[i..j], j, false)
    decreases j - i
  {
    SumLensFrom(lines, i, j);
    if i + 1 == j {
      assert lines[i + 1..j] == [];
    } else {
      var k := i + 1;
      SumLensFrom(lines, i, k);
      assert lines[k..k] == [];
      forall t | k < t < j
        ensures SumLens(lines[k..t]) < n - |lines[i]|
      {
        SumLensFrom(lines, i, t);
      }
      QualityFromExact(lines, i + 1, j, n - |lines[i]|);
    }
  }

  /** The quality lines of a well-formed read are exactly what the quality loop copies. */
  lemma {:induction false} QualityCopied(r: FastqRead, lines: seq<Line>, q: nat, e: nat)
    requires FastqWellFormed(NameAware, r)
    requires q <= e <= |lines| && lines[q..e] == r.qual
    ensures q < e && QualityFrom(lines, q, SumLens(r.bases)) == Span(lines[q..e], e, false)
  {
    forall t | q < t < e
      ensures SumLens(lines[q..t]) < SumLens(r.bases)
    {
      assert lines[q..t] == r.qual[..t - q];
      QualityPrefix(NameAware, r, t - q);
    }
    QualityFromExact(lines, q, e, SumLens(r.bases));
  }

  /**
   * What the FASTQ range loop returns once `block` is copied and the
   * quality block ends before row e: stop at --end, at the end of the file
   * or at a line that is not a header, or copy that header and go on.
   */
  function AfterBlock(lines: seq<Line>, block: seq<Line>, e: nat, id: seq<char>, seqIndex: int, stop: int): Ranged
    requires e <= |lines|
  {
    if stop <= seqIndex + 1 then Ranged(block, RangeDone)
    else if e == |lines| then Ranged(block, ReachedEof)
    else if !IsFastqHeader(lines[e]) then Ranged(block, BadFormat)
    else RPrepend(block + [lines[e]], FastqRange(lines, e + 1, id, 0, seqIndex + 1, stop))
  }

  lemma {:induction false} RPrependAfterBlock(lines: seq<Line>, a: seq<Line>, block: seq<Line>, e: nat, id: seq<char>, seqIndex: int, stop: int)
    requires e <= |lines|
    ensures RPrepend(a, AfterBlock(lines, block, e, id, seqIndex, stop)) == AfterBlock(lines, a + block, e, id, seqIndex, stop)
  {
    if stop > seqIndex + 1 && e < |lines| && IsFastqHeader(lines[e]) {
      RPrependRPrepend(a, block + [lines[e]], FastqRange(lines, e + 1, id, 0, seqIndex + 1, stop));
      assert a + (block + [lines[e]]) == (a + block) + [lines[e]];
    }
  }

  /** At a separator the range loop copies it and the quality block the quality loop reads. */
  lemma {:induction false} FastqRangeAtSeparator(lines: seq<Line>, s: nat, e: nat, id: seq<char>, n: nat, seqIndex: int, stop: int)
    requires s < e <= |lines| && IsSeparator(NameAware, lines[s], id)
    requires QualityFrom(lines, s + 1, n) == Span(lines[s + 1..e], e, false)
    ensures FastqRange(lines, s, id, n, seqIndex, stop) == AfterBlock(lines, lines[s..e], e, id, seqIndex, stop)
  {
    assert [lines[s]] + lines[s + 1..e] == lines[s..e];
  }

  /** The FASTQ range loop from row i: the sequence lines up to the separator at row s, then the quality lines up to row e. */
  lemma {:induction false} FastqRangeParts(lines: seq<Line>, i: nat, s: nat, e: nat, id: seq<char>, seqIndex: int, stop: int)
    requires i <= s < e <= |lines|
    requires forall k :: i <= k < s ==> !(|lines[k]| > 0 && lines[k][0] == '+')
    requires IsSeparator(NameAware, lines[s], id)
    requires QualityFrom(lines, s + 1, SumLens(lines[i..s])) == Span(lines[s + 1..e], e, false)
    ensures FastqRange(lines, i, id, 0, seqIndex, stop) == AfterBlock(lines, lines[i..e], e, id, seqIndex, stop)
  {
    FastqRangeSequence(lines, i, s, id, 0, seqIndex, stop);
    FastqRangeAtSeparator(lines, s, e, id, SumLens(lines[i..s]), seqIndex, stop);
    RPrependAfterBlock(lines, lines[i..s], lines[s..e], e, id, seqIndex, stop);
    assert lines[i..s] + lines[s..e] == lines[i..e];
  }

  /**
   * The FASTQ range loop over one written read, entered after its header
   * with its separator recognised under `id`: the read's lines are copied,
   * and the loop then decides at the line after its quality block.
   */
  lemma {:induction false} FastqRangeRead(lines: seq<Line>, p: nat, q: nat, r: FastqRead, id: seq<char>, seqIndex: int, stop: int)
    requires FastqWellFormed(NameAware, r) && IsSeparator(NameAware, SeparatorOf(r), id)
    requires q == p + |FastqLines(r)| <= |lines| && lines[p..q] == FastqLines(r)
    ensures p + 1 <= q
    ensures FastqRange(lines, p + 1, id, 0, seqIndex, stop) == AfterBlock(lines, lines[p + 1..q], q, id, seqIndex, stop)
  {
    var s := ReadLayout(lines, p, q, r, id);
    FastqRangeParts(lines, p + 1, s, q, id, seqIndex, stop);
  }

  /** Where a written read's separator and quality block lie, in the terms FastqRangeParts asks for. */
  lemma ReadLayout(lines: seq<Line>, p: nat, q: nat, r: FastqRead, id: seq<char>) returns (s: nat)
    requires FastqWellFormed(NameAware, r) && IsSeparator(NameAware, SeparatorOf(r), id)
    requires q == p + |FastqLines(r)| <= |lines| && lines[p..q] == FastqLines(r)
    ensures p + 1 <= s < q
    ensures forall k :: p + 1 <= k < s ==> !(|lines[k]| > 0 && lines[k][0] == '+')
    ensures IsSeparator(NameAware, lines[s], id)
    ensures QualityFrom(lines, s + 1, SumLens(lines[p + 1..s])) == Span(lines[s + 1..q], q, false)
  {
    s := p + 1 + |r.bases|;
    WrittenSequence(NameAware, r, lines, p);
    WrittenParts(r, lines, p);
    assert lines[s] == SeparatorOf(r);
    WrittenQuality(r, lines, p);
    var n := SumLens(lines[p + 1..s]);
    assert n == SumLens(r.bases);
    QualityCopied(r, lines, s + 1, q);
    assert QualityFrom(lines, s + 1, n) == Span(lines[s + 1..q], q, false);
  }

  /** A quality block followed by a header before --end: what comes after is appended. */
  lemma {:induction false} RangeGoesOn(lines: seq<Line>, p: nat, q: nat, end: nat, id: seq<char>, i: int, stop: int, reason: RangeStop)
    requires p + 1 <= q < end <= |lines| && IsFastqHeader(lines[q]) && stop > i + 1
    requires FastqRange(lines, p + 1, id, 0, i, stop) == AfterBlock(lines, lines[p + 1..q], q, id, i, stop)
    requires FastqRange(lines, q + 1, id, 0, i + 1, stop) == Ranged(lines[q + 1..end], reason)
    ensures FastqRange(lines, p + 1, id, 0, i, stop) == Ranged(lines[p + 1..end], reason)
  {
    assert lines[p + 1..q] + [lines[q]] + lines[q + 1..end] == lines[p + 1..end];
  }

  /** pos[k] is the line where read k begins in lines, and pos[|rs|] the end of the file. */
  ghost predicate ReadsAt(lines: seq<Line>, rs: seq<FastqRead>, pos: seq<nat>)
  {
    |pos| == |rs| + 1 && pos[|rs|] == |lines| && forall k :: 0 <= k < |rs| ==> ReadAt(lines, rs, pos, k)
  }

  /** Read k occupies the lines from pos[k] up to pos[k + 1]. */
  ghost predicate ReadAt(lines: seq<Line>, rs: seq<FastqRead>, pos: seq<nat>, k: nat)
    requires |pos| == |rs| + 1 && k < |rs|
  {
    pos[k] + |FastqLines(rs[k])| == pos[k + 1] <= |lines| && lines[pos[k]..pos[k + 1]] == FastqLines(rs[k])
  }

  /** The line positions of a written FASTQ file. */
  lemma {:induction false} RenderedReadsAt(rs: seq<FastqRead>) returns (pos: seq<nat>)
    ensures ReadsAt(RenderFastq(rs), rs, pos)
    ensures forall k :: 0 <= k <= |rs| ==> pos[k] == |RenderFastq(rs[..k])|
  {
    pos := seq(|rs| + 1, k requires 0 <= k <= |rs| => |RenderFastq(rs[..k])|);
    assert rs[..|rs|] == rs;
    forall k | 0 <= k < |rs|
      ensures ReadAt(RenderFastq(rs), rs, pos, k)
    {
      RenderedRead(rs, k);
    }
  }

  /**
   * From the line after read i's header, the FASTQ range loop copies reads
   * i up to StopOrdinal(i, --end), or to the end of the file, when its
   * remembered name is read start's and the reads after start end their
   * sequence with a bare '+'.
   */
  lemma {:induction false} FastqRangeRecords(lines: seq<Line>, rs: seq<FastqRead>, pos: seq<nat>, start: nat, i: nat, stop: int)
    requires ReadsAt(lines, rs, pos) && start <= i < |rs|
    requires forall k :: 0 <= k < |rs| ==> FastqWellFormed(NameAware, rs[k])
    requires forall k :: start < k < |rs| ==> !rs[k].repeatName
    ensures i < StopAt(i, stop, |rs|) && pos[i] + 1 <= pos[StopAt(i, stop, |rs|)] <= |lines|
    ensures FastqRange(lines, pos[i] + 1, rs[start].name, 0, i, stop)
         == Ranged(lines[pos[i] + 1..pos[StopAt(i, stop, |rs|)]], StopReason(i, stop, |rs|))
    decreases |rs| - i
  {
    var last := StopAt(i, stop, |rs|);
    if stop > i + 1 && i + 1 < |rs| {
      FastqRangeRecords(lines, rs, pos, start, i + 1, stop);
      assert StopAt(i + 1, stop, |rs|) == last && StopReason(i + 1, stop, |rs|) == StopReason(i, stop, |rs|);
      ReadGoesOn(lines, rs, pos, start, i, stop, pos[last], StopReason(i, stop, |rs|));
    } else {
      ReadEndsRange(lines, rs, pos, start, i, stop);
    }
  }

  /** Read i, followed by the range from read i + 1 on. */
  lemma {:induction false} ReadGoesOn(lines: seq<Line>, rs: seq<FastqRead>, pos: seq<nat>, start: nat, i: nat, stop: int, end: nat, reason: RangeStop)
    requires ReadsAt(lines, rs, pos) && start <= i && i + 1 < |rs| && stop > i + 1
    requires forall k :: 0 <= k < |rs| ==> FastqWellFormed(NameAware, rs[k])
    requires forall k :: start < k < |rs| ==> !rs[k].repeatName
    requires pos[i + 1] + 1 <= end <= |lines|
    requires FastqRange(lines, pos[i + 1] + 1, rs[start].name, 0, i + 1, stop) == Ranged(lines[pos[i + 1] + 1..end], reason)
    ensures pos[i] + 1 <= pos[i + 1]
    ensures FastqRange(lines, pos[i] + 1, rs[start].name, 0, i, stop) == Ranged(lines[pos[i] + 1..end], reason)
  {
    var p, q := pos[i], pos[i + 1];
    RangeStepAt(lines, rs, pos, start, i, stop);
    RangeGoesOn(lines, p, q, end, rs[start].name, i, stop, reason);
  }

  /** Read i ends the range: it is the last one asked for, or the last one in the file. */
  lemma {:induction false} ReadEndsRange(lines: seq<Line>, rs: seq<FastqRead>, pos: seq<nat>, start: nat, i: nat, stop: int)
    requires ReadsAt(lines, rs, pos) && start <= i < |rs| && (stop <= i + 1 || i + 1 == |rs|)
    requires forall k :: 0 <= k < |rs| ==> FastqWellFormed(NameAware, rs[k])
    requires forall k :: start < k < |rs| ==> !rs[k].repeatName
    ensures pos[i] + 1 <= pos[i + 1] <= |lines|
    ensures FastqRange(lines, pos[i] + 1, rs[start].name, 0, i, stop)
         == Ranged(lines[pos[i] + 1..pos[i + 1]], if stop <= i + 1 then RangeDone else ReachedEof)
  {
    RangeStepAt(lines, rs, pos, start, i, stop);
    RangeStopsAt(lines, pos[i], pos[i + 1], rs[start].name, i, stop);
  }

  /** The range ends right after a block when the block's record is the last one asked for, or the last one in the file. */
  lemma {:induction false} RangeStopsAt(lines: seq<Line>, p: nat, q: nat, id: seq<char>, i: int, stop: int)
    requires p + 1 <= q <= |lines| && (stop <= i + 1 || q == |lines|)
    requires FastqRange(lines, p + 1, id, 0, i, stop) == AfterBlock(lines, lines[p + 1..q], q, id, i, stop)
    ensures FastqRange(lines, p + 1, id, 0, i, stop) == Ranged(lines[p + 1..q], if stop <= i + 1 then RangeDone else ReachedEof)
  {
  }

  /** Where the range that starts at ordinal i stops in a file of n records: StopOrdinal(i, stop), or the end of the file. */
  function StopAt(i: nat, stop: int, n: nat): (last: nat)
    ensures last == n || last == StopOrdinal(i, stop)
    ensures last <= n
  {
    if StopOrdinal(i, stop) <= n then StopOrdinal(i, stop) else n
  }

  /** Why that range stops: its last ordinal lies inside the file, or the file ends first. */
  function StopReason(i: nat, stop: int, n: nat): RangeStop
  {
    if StopOrdinal(i, stop) <= n then RangeDone else ReachedEof
  }

  /** One step of FastqRangeRecords: read i's lines after its header, then what follows them. */
  lemma {:induction false} RangeStepAt(lines: seq<Line>, rs: seq<FastqRead>, pos: seq<nat>, start: nat, i: nat, stop: int)
    requires ReadsAt(lines, rs, pos) && start <= i < |rs|
    requires forall k :: 0 <= k < |rs| ==> FastqWellFormed(NameAware, rs[k])
    requires forall k :: start < k < |rs| ==> !rs[k].repeatName
    ensures pos[i] + 1 <= pos[i + 1] <= |lines|
    ensures FastqRange(lines, pos[i] + 1, rs[start].name, 0, i, stop)
         == AfterBlock(lines, lines[pos[i] + 1..pos[i + 1]], pos[i + 1], rs[start].name, i, stop)
    ensures i + 1 < |rs| ==> pos[i + 1] < |lines| && IsFastqHeader(lines[pos[i + 1]])
  {
    var p := pos[i];
    var q := pos[i + 1];
    assert ReadAt(lines, rs, pos, i);
    if i == start {
      SeparatorRecognised(NameAware, rs[i]);
    } else {
      assert SeparatorOf(rs[i]) == ['+'];
    }
    FastqRangeRead(lines, p, q, rs[i], rs[start].name, i, stop);
    if i + 1 < |rs| {
      var next := FastqLines(rs[i + 1]);
      assert ReadAt(lines, rs, pos, i + 1);
      assert lines[q] == next[0] == HeaderLine('@', rs[i + 1].name, rs[i + 1].comment);
    }
  }

  /** The record heads of a written FASTQ file: read i begins, with its header, where the reads before it end. */
  lemma {:induction false} RenderedHeads(rs: seq<FastqRead>, i: nat)
    requires forall k :: 0 <= k < |rs| ==> FastqWellFormed(NameAware, rs[k])
    requires i < |rs|
    ensures |RenderFastq(rs)| >= 1
    ensures var heads := FileHeads(Fastq, RenderFastq(rs));
      |heads| == |rs| && heads[i] == (|RenderFastq(rs[..i])|, HeaderLine('@', rs[i].name, rs[i].comment))
  {
    FastqScanOfRender(NameAware, rs);
    FastqExpectedAt(rs, i);
  }

  /** create_index builds the table of a written FASTQ file whose read names are distinct. */
  lemma {:induction false} RenderedIndexBuilds(rs: seq<FastqRead>)
    requires |rs| >= 1 && forall k :: 0 <= k < |rs| ==> FastqWellFormed(NameAware, rs[k])
    requires forall i, j :: 0 <= i < j < |rs| ==> rs[i].name != rs[j].name
    ensures |RenderFastq(rs)| >= 1 && FileIndex(Fastq, RenderFastq(rs)).Ok?
  {
    var lines := RenderFastq(rs);
    RenderedHeads(rs, 0);
    var heads := FileHeads(Fastq, lines);
    var es := Entries(Fastq, lines, heads);
    EntriesAt(Fastq, lines, heads, 0);
    forall i | 0 <= i < |es|
      ensures es[i].name == rs[i].name
    {
      RenderedHeads(rs, i);
      EntriesAt(Fastq, lines, heads, i);
      HeaderName('@', rs[i].name, rs[i].comment);
    }
    BuildIndexOk(es);
  }

  /**
   * Range mode on a written FASTQ file with distinct read names, from a
   * stream that has not failed: --start s below the read count prints
   * exactly reads s up to, not including, StopOrdinal(s, --end), as they
   * were written; it stops normally when that ordinal is within the file
   * and at the end of the file otherwise. So with no --end it prints
   * exactly read s. Only read s's name is remembered, so the reads after
   * it must end their sequence with a bare '+'.
   */
  lemma {:induction false} RenderedFastqRange(rs: seq<FastqRead>, start: nat, stop: int, c: Cursor)
    requires forall i :: 0 <= i < |rs| ==> FastqWellFormed(NameAware, rs[i])
    requires forall i, j :: 0 <= i < j < |rs| ==> rs[i].name != rs[j].name
    requires forall i :: start < i < |rs| ==> !rs[i].repeatName
    requires start < |rs| && Fits(RenderFastq(rs), c) && !c.failed
    ensures |RenderFastq(rs)| >= 1 && FileIndex(Fastq, RenderFastq(rs)).Ok?
    ensures ExtractRange(RenderFastq(rs), true, FileIndex(Fastq, RenderFastq(rs)).value, start, stop, c)
         == Ranged(RenderFastq(rs[start..StopAt(start, stop, |rs|)]), StopReason(start, stop, |rs|))
  {
    var lines := RenderFastq(rs);
    var p := FastqStartAt(rs, start);
    var pos := RenderedReadsAt(rs);
    assert pos[start] == p;
    FastqRangeTable(lines, rs, pos, FileIndex(Fastq, lines).value, start, stop, c);
    var last := StopAt(start, stop, |rs|);
    RenderedWindow(rs, start, last);
    assert pos[last] == |RenderFastq(rs[..last])|;
  }

  /** Range mode over any file laid out read by read, once the table sends `start` to read start's header. */
  lemma {:induction false} FastqRangeTable(lines: seq<Line>, rs: seq<FastqRead>, pos: seq<nat>, idx: Index, start: nat, stop: int, c: Cursor)
    requires ReadsAt(lines, rs, pos) && start < |rs|
    requires forall k :: 0 <= k < |rs| ==> FastqWellFormed(NameAware, rs[k])
    requires forall k :: start < k < |rs| ==> !rs[k].repeatName
    requires Fits(lines, c) && !c.failed && pos[start] < |lines|
    requires LookupByOrdinal(idx, start) == Some(Offset(lines, pos[start]))
    requires Locate(lines, Offset(lines, pos[start])) == (pos[start], 0)
    requires |lines[pos[start]]| > 0 && lines[pos[start]][0] == '@' && ReadName(lines[pos[start]]) == rs[start].name
    ensures pos[start] < pos[StopAt(start, stop, |rs|)] <= |lines|
    ensures ExtractRange(lines, true, idx, start, stop, c)
         == Ranged(lines[pos[start]..pos[StopAt(start, stop, |rs|)]], StopReason(start, stop, |rs|))
  {
    FastqRangeRecords(lines, rs, pos, start, start, stop);
    FastqRangeFromHeader(lines, idx, start, stop, c, pos[start], pos[StopAt(start, stop, |rs|)], StopReason(start, stop, |rs|));
  }

  /** The table of a written FASTQ file sends ordinal `start` to read start's header line, at row p. */
  lemma {:induction false} FastqStartAt(rs: seq<FastqRead>, start: nat) returns (p: nat)
    requires forall i :: 0 <= i < |rs| ==> FastqWellFormed(NameAware, rs[i])
    requires forall i, j :: 0 <= i < j < |rs| ==> rs[i].name != rs[j].name
    requires start < |rs|
    ensures p == |RenderFastq(rs[..start])| < |RenderFastq(rs)|
    ensures FileIndex(Fastq, RenderFastq(rs)).Ok?
    ensures var lines := RenderFastq(rs);
      && LookupByOrdinal(FileIndex(Fastq, lines).value, start) == Some(Offset(lines, p))
      && Locate(lines, Offset(lines, p)) == (p, 0)
      && |lines[p]| > 0 && lines[p][0] == '@' && ReadName(lines[p]) == rs[start].name
  {
    var lines := RenderFastq(rs);
    p := |RenderFastq(rs[..start])|;
    var hdr := HeaderLine('@', rs[start].name, rs[start].comment);
    RenderedIndexBuilds(rs);
    RenderedHeads(rs, start);
    FastqLookupLandsOnHeader(lines, start);
    HeaderName('@', rs[start].name, rs[start].comment);
    assert lines[p] == hdr && hdr[0] == '@';
  }

  /** Range mode that lands on a FASTQ header at row p prints that header, then what the range loop after it prints. */
  lemma {:induction false} FastqRangeFromHeader(lines: seq<Line>, idx: Index, start: int, stop: int, c: Cursor, p: nat, end: nat, reason: RangeStop)
    requires Fits(lines, c) && !c.failed && p < end <= |lines|
    requires LookupByOrdinal(idx, start) == Some(Offset(lines, p)) && Locate(lines, Offset(lines, p)) == (p, 0)
    requires |lines[p]| > 0 && lines[p][0] == '@'
    requires FastqRange(lines, p + 1, ReadName(lines[p]), 0, start, stop) == Ranged(lines[p + 1..end], reason)
    ensures ExtractRange(lines, true, idx, start, stop, c) == Ranged(lines[p..end], reason)
  {
    assert lines[p][0..] == lines[p];
    SliceCons(lines, p, end);
  }

  // ----- a worked example -----

  /** Three reads of two bases each, with bare separators. */
  const ThreeReads: seq<Line> := ["@a", "AC", "+", "II", "@b", "GT", "+", "II", "@c", "AA", "+", "II"]

  /** Read a of ThreeReads, then the loop goes on at read b with the count back at 0. */
  lemma FirstOfThree()
    ensures FastqRange(ThreeReads, 1, "a", 0, 0, 3)
         == RPrepend(ThreeReads[1..5], FastqRange(ThreeReads, 5, "a", 0, 1, 3))
  {
    var lines := ThreeReads;
    var rest := FastqRange(lines, 5, "a", 0, 1, 3);
    FirstOfThreeTail();
    assert FastqRange(lines, 1, "a", 0, 0, 3) == RPrepend([lines[1]], FastqRange(lines, 2, "a", 2, 0, 3)) by {
      SeparatorSpec(lines[1], "a");
    }
    RPrependRPrepend([lines[1]], lines[2..5], rest);
    assert [lines[1]] + lines[2..5] == lines[1..5];
  }

  /** The separator, quality and next header of read a. */
  lemma FirstOfThreeTail()
    ensures FastqRange(ThreeReads, 2, "a", 2, 0, 3)
         == RPrepend(ThreeReads[2..5], FastqRange(ThreeReads, 5, "a", 0, 1, 3))
  {
    var lines := ThreeReads;
    assert QualityFrom(lines, 3, 2) == Span([lines[3]], 4, false);
    assert IsFastqHeader(lines[4]);
    SeparatorSpec(lines[2], "a");
    assert lines[2..5] == [lines[2]] + [lines[3]] + [lines[4]];
  }

  /**
   * Range mode from read a with --end 3: each quality loop owes only its
   * own read's two bases, since the count starts again from 0 after every
   * header, so all three reads are printed and the loop stops normally.
   */
  lemma ThreeReadsExample()
    ensures FastqRange(ThreeReads, 1, "a", 0, 0, 3) == Ranged(ThreeReads[1..], RangeDone)
  {
    FirstOfThree();
    ThreeReadsTail();
    assert ThreeReads[1..] == ThreeReads[1..5] + ThreeReads[5..];
  }

  /** Reads b and c of the same request. */
  lemma ThreeReadsTail()
    ensures FastqRange(ThreeReads, 5, "a", 0, 1, 3) == Ranged(ThreeReads[5..], RangeDone)
  {
    var lines := ThreeReads;
    assert QualityFrom(lines, 7, 2) == Span(["II"], 8, false);
    assert QualityFrom(lines, 11, 2) == Span(["II"], 12, false);
    assert IsFastqHeader(lines[8]);
    assert FastqRange(lines, 10, "a", 2, 2, 3) == Ranged(["+", "II"], RangeDone) by {
      SeparatorSpec(lines[10], "a");
    }
    assert FastqRange(lines, 9, "a", 0, 2, 3) == Ranged(lines[9..], RangeDone) by {
      SeparatorSpec(lines[9], "a");
    }
    assert FastqRange(lines, 5, "a", 0, 1, 3) == Ranged(lines[5..], RangeDone) by {
      SeparatorSpec(lines[5], "a");
      SeparatorSpec(lines[6], "a");
    }
  }
}
