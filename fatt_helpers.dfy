/**
 * Small byte-level helpers of src/fatt.cc that the subcommands call on one
 * line at a time: strlen_without_n, the CSV quoting of CSVEscape, the QV
 * rebase-and-clamp loop of `fatt chqv`, the chunking loop of `fatt fold` and
 * the --start/--end/--num normalisation of `fatt extract`.
 */
module FattHelpers {
  import opened Wrappers
  import opened Text

  // ----- strlen_without_n -----

  /** A gap in an assembly: 'N' or 'n'. */
  predicate IsGap(c: char)
  {
    c == 'N' || c == 'n'
  }

  /** The bytes of `s` that are not gaps, in order. */
  function WithoutGaps(s: seq<char>): (r: seq<char>)
    ensures |r| <= |s|
    ensures forall c :: c in r ==> c in s && !IsGap(c)
  {
    if |s| == 0 then []
    else WithoutGaps(s[..|s| - 1]) + (if IsGap(s[|s| - 1]) then [] else [s[|s| - 1]])
  }

  /** Dropping the gaps shortens a line by exactly its number of 'N' and 'n' bytes. */
  lemma {:induction false} WithoutGapsLength(s: seq<char>)
    ensures |WithoutGaps(s)| == |s| - multiset(s)['N'] - multiset(s)['n']
  {
    if |s| > 0 {
      var p, c := s[..|s| - 1], s[|s| - 1];
      WithoutGapsLength(p);
      CountSnoc(s, 'N');
      CountSnoc(s, 'n');
    }
  }

  /** The last byte of `s` adds one to its own count and nothing to any other. */
  lemma CountSnoc(s: seq<char>, d: char)
    requires |s| > 0
    ensures multiset(s)[d] == multiset(s[..|s| - 1])[d] + (if s[|s| - 1] == d then 1 else 0)
  {
    assert s == s[..|s| - 1] + [s[|s| - 1]];
  }

  /** strlen_without_n: the number of bytes of the line that are not 'N' or 'n'. */
  method StrlenWithoutN(p: Line) returns (retval: nat)
    ensures retval == |WithoutGaps(p)|
  {
    retval := 0;
    var i := 0;
    while i < |p|
      invariant i <= |p|
      invariant retval == |WithoutGaps(p[..i])|
    {
      assert p[..i + 1][..i] == p[..i];
      if !(p[i] == 'N' || p[i] == 'n') {
        retval := retval + 1;
      }
      i := i + 1;
    }
    assert p[..i] == p;
  }

  // ----- CSVEscape -----

  /** What operator<< writes for one byte of a CSVEscape: a '"' is doubled. */
  function EscapeByte(c: char): seq<char>
  {
    if c == '"' then ['"', '"'] else [c]
  }

  /** The quoted-field form of `s`. */
  function Escaped(s: seq<char>): seq<char>
  {
    if |s| == 0 then [] else EscapeByte(s[0]) + Escaped(s[1..])
  }

  /** A CSV reader's view of a quoted field: `""` stands for one '"'. */
  function Unescape(t: seq<char>): seq<char>
  {
    if |t| == 0 then []
    else if 2 <= |t| && t[0] == '"' && t[1] == '"' then ['"'] + Unescape(t[2..])
    else [t[0]] + Unescape(t[1..])
  }

  /** Reading an escaped field back gives the original bytes. */
  lemma {:induction false} UnescapeEscaped(s: seq<char>)
    ensures Unescape(Escaped(s)) == s
  {
    if |s| > 0 {
      UnescapeEscaped(s[1..]);
      var t := Escaped(s);
      if s[0] == '"' {
        assert t[2..] == Escaped(s[1..]);
      } else {
        assert t[1..] == Escaped(s[1..]);
      }
    }
  }

  /** Escaping adds one byte per '"' and no other. */
  lemma {:induction false} EscapedLength(s: seq<char>)
    ensures |Escaped(s)| == |s| + multiset(s)['"']
  {
    if |s| > 0 {
      EscapedLength(s[1..]);
      assert s == [s[0]] + s[1..];
      assert multiset(s) == multiset{s[0]} + multiset(s[1..]);
    }
  }

  /** operator<< on a CSVEscape: the bytes of the string up to its '\0', each '"' written twice. */
  method CsvEscape(p: Line) returns (os: seq<char>)
    ensures os == Escaped(p)
  {
    os := [];
    var i := 0;
    while i < |p|
      invariant i <= |p|
      invariant os + Escaped(p[i..]) == Escaped(p)
    {
      assert p[i..] == [p[i]] + p[i + 1..];
      if p[i] == '"' {
        os := os + ['"'];
      }
      os := os + [p[i]];
      i := i + 1;
    }
  }

  // ----- the QV rebase-and-clamp loop of `fatt chqv` -----

  /** An unsigned char. */
  type Byte = x: int | 0 <= x < 256

  /**
   * The QV options once parsed: the base subtracted on input, the accepted
   * input QV range, the base added on output and the output QV range.
   */
  datatype QvParams = QvParams(fromBase: int, inMin: int, inMax: int, toBase: int, outMin: int, outMax: int)

  /** A byte whose QV (byte minus fromBase) lies in [inMin, inMax]. */
  predicate ValidQv(p: QvParams, c: Byte)
  {
    p.inMin <= c - p.fromBase <= p.inMax
  }

  /** outMax caps the QV first, then outMin raises it. */
  function Clamp(qv: int, lo: int, hi: int): int
  {
    var capped := if hi < qv then hi else qv;
    if capped < lo then lo else capped
  }

  /** The byte written back: toBase plus the clamped QV, stored into an unsigned char (modulo 256). */
  function Rebased(p: QvParams, c: Byte): Byte
  {
    (p.toBase + Clamp(c - p.fromBase, p.outMin, p.outMax)) % 256
  }

  /** The index of the first byte with an invalid QV, if any. */
  function FirstInvalid(p: QvParams, s: seq<Byte>): (r: Option<nat>)
    ensures r.None? <==> forall i :: 0 <= i < |s| ==> ValidQv(p, s[i])
    ensures r.Some? ==> r.value < |s| && !ValidQv(p, s[r.value]) && forall i :: 0 <= i < r.value ==> ValidQv(p, s[i])
  {
    if |s| == 0 then None
    else if !ValidQv(p, s[0]) then Some(0)
    else match FirstInvalid(p, s[1..])
      case None => None
      case Some(k) => Some(k + 1)
  }

  function RebaseAll(p: QvParams, s: seq<Byte>): (r: seq<Byte>)
    ensures |r| == |s|
    ensures forall i :: 0 <= i < |s| ==> r[i] == Rebased(p, s[i])
  {
    if |s| == 0 then [] else [Rebased(p, s[0])] + RebaseAll(p, s[1..])
  }

  /**
   * When the output QV range fits in a byte above toBase, a rebased byte
   * reads back (minus toBase) as a QV inside the output range, and a QV
   * already inside it is kept as it is.
   */
  lemma RebasedInRange(p: QvParams, c: Byte)
    requires p.outMin <= p.outMax
    requires 0 <= p.toBase + p.outMin && p.toBase + p.outMax < 256
    ensures p.outMin <= Rebased(p, c) - p.toBase <= p.outMax
    ensures p.outMin <= c - p.fromBase <= p.outMax ==> Rebased(p, c) - p.toBase == c - p.fromBase
  {
  }

  /** Rebasing back (output base and range swapped with the input ones) restores every byte whose QV both ranges accept. */
  lemma RebaseBack(p: QvParams, c: Byte)
    requires 0 <= p.toBase + p.outMin && p.toBase + p.outMax < 256
    requires p.outMin <= c - p.fromBase <= p.outMax && p.inMin <= c - p.fromBase <= p.inMax
    ensures var back := QvParams(p.toBase, p.outMin, p.outMax, p.fromBase, p.inMin, p.inMax);
      ValidQv(back, Rebased(p, c)) && Rebased(back, Rebased(p, c)) == c
  {
    RebasedInRange(p, c);
  }

  /** Contents rewritten up to k and untouched from k on, seen as one sequence. */
  lemma RewrittenUpTo(p: QvParams, s: seq<Byte>, t: seq<Byte>, k: nat)
    requires |t| == |s| && k <= |s|
    requires forall j :: 0 <= j < k ==> t[j] == Rebased(p, s[j])
    requires forall j :: k <= j < |s| ==> t[j] == s[j]
    ensures t == RebaseAll(p, s[..k]) + s[k..]
  {
  }

  /**
   * The conversion loop over one quality line in the buffer: each byte is
   * checked, clamped and rewritten in place; the first invalid QV stops the
   * loop, leaving the bytes before it rewritten and the rest untouched.
   */
  method RebaseQualityLine(b: array<Byte>, len: nat, p: QvParams) returns (bad: Option<nat>)
    requires len <= b.Length
    modifies b
    ensures bad == FirstInvalid(p, old(b[..len]))
    ensures var k := if bad.Some? then bad.value else len;
      k <= len && b[..] == RebaseAll(p, old(b[..k])) + old(b[k..])
  {
    ghost var s := b[..];
    var i := 0;
    while i < len
      invariant i <= len
      invariant forall j :: 0 <= j < i ==> ValidQv(p, s[j])
      invariant forall j :: 0 <= j < i ==> b[j] == Rebased(p, s[j])
      invariant forall j :: i <= j < b.Length ==> b[j] == s[j]
    {
      var qv := b[i] - p.fromBase;
      if qv < p.inMin || p.inMax < qv {
        FirstInvalidAt(p, s[..len], i);
        RewrittenUpTo(p, s, b[..], i);
        return Some(i);
      }
      if p.outMax < qv {
        qv := p.outMax;
      }
      if qv < p.outMin {
        qv := p.outMin;
      }
      b[i] := (p.toBase + qv) % 256;
      i := i + 1;
    }
    bad := None;
    FirstInvalidNone(p, s[..len]);
    RewrittenUpTo(p, s, b[..], len);
  }

  lemma FirstInvalidAt(p: QvParams, s: seq<Byte>, i: nat)
    requires i < |s| && !ValidQv(p, s[i]) && forall j :: 0 <= j < i ==> ValidQv(p, s[j])
    ensures FirstInvalid(p, s) == Some(i)
  {
  }

  lemma FirstInvalidNone(p: QvParams, s: seq<Byte>)
    requires forall j :: 0 <= j < |s| ==> ValidQv(p, s[j])
    ensures FirstInvalid(p, s) == None
  {
  }

  // ----- the chunking loop of `fatt fold` -----

  /**
   * The bytes fold_fastx writes for one line when `col` bytes are already on
   * the current output line: the line cut so that no output line holds more
   * than `width` bytes, with '\n' after each output line that fills up.
   */
  function Folded(x: seq<char>, width: nat, col: nat): seq<char>
    requires col < width
    decreases |x|
  {
    if |x| == 0 then []
    else if |x| < width - col then x
    else x[..width - col] + ['\n'] + Folded(x[width - col..], width, 0)
  }

  /** The bytes of `t` other than '\n'. */
  function Unfolded(t: seq<char>): seq<char>
  {
    if |t| == 0 then [] else (if t[0] == '\n' then [] else [t[0]]) + Unfolded(t[1..])
  }

  function NewlineCount(t: seq<char>): nat
  {
    if |t| == 0 then 0 else (if t[0] == '\n' then 1 else 0) + NewlineCount(t[1..])
  }

  lemma {:induction false} UnfoldedAppend(a: seq<char>, b: seq<char>)
    ensures Unfolded(a + b) == Unfolded(a) + Unfolded(b)
    ensures NewlineCount(a + b) == NewlineCount(a) + NewlineCount(b)
  {
    if |a| > 0 {
      assert (a + b)[1..] == a[1..] + b;
      UnfoldedAppend(a[1..], b);
    } else {
      assert a + b == b;
    }
  }

  lemma {:induction false} UnfoldedPlain(x: seq<char>)
    requires '\n' !in x
    ensures Unfolded(x) == x && NewlineCount(x) == 0
  {
    if |x| > 0 {
      assert x[0] in x;
      assert forall c :: c in x[1..] ==> c in x;
      UnfoldedPlain(x[1..]);
    }
  }

  /** The bytes held by n full output lines of `width` bytes each. */
  function FullLines(n: nat, width: nat): nat
  {
    if n == 0 then 0 else FullLines(n - 1, width) + width
  }

  /** A line at least as long as the room left on the output line: its first part fills it, then a '\n'. */
  lemma FoldedSplit(x: seq<char>, width: nat, col: nat)
    requires col < width && width - col <= |x|
    ensures Folded(x, width, col) == x[..width - col] + ['\n'] + Folded(x[width - col..], width, 0)
  {
  }

  /** Both parts of a line without '\n' are without '\n', and read back as themselves. */
  lemma PlainParts(x: seq<char>, k: nat)
    requires k <= |x| && '\n' !in x
    ensures '\n' !in x[k..] && Unfolded(x[..k]) == x[..k] && NewlineCount(x[..k]) == 0
  {
    assert forall c :: c in x[..k] ==> c in x;
    assert forall c :: c in x[k..] ==> c in x;
    UnfoldedPlain(x[..k]);
  }

  /** Folding loses no byte of the line and adds nothing but '\n' bytes. */
  lemma {:induction false} FoldedUnfolds(x: seq<char>, width: nat, col: nat)
    requires col < width && '\n' !in x
    ensures Unfolded(Folded(x, width, col)) == x
    decreases |x|
  {
    if |x| < width - col {
      UnfoldedPlain(x);
    } else {
      var k := width - col;
      FoldedSplit(x, width, col);
      AroundNewline(x, k, Folded(x[k..], width, 0));
      FoldedUnfolds(x[k..], width, 0);
      assert x[..k] + x[k..] == x;
    }
  }

  /** A plain prefix, one '\n' and then `t`: reading back drops the '\n', which is counted once. */
  lemma AroundNewline(x: seq<char>, k: nat, t: seq<char>)
    requires k <= |x| && '\n' !in x
    ensures Unfolded(x[..k] + ['\n'] + t) == x[..k] + Unfolded(t)
    ensures NewlineCount(x[..k] + ['\n'] + t) == 1 + NewlineCount(t)
  {
    PlainParts(x, k);
    UnfoldedAppend(x[..k], ['\n']);
    UnfoldedAppend(x[..k] + ['\n'], t);
  }

  /**
   * Folding writes one '\n' per output line it fills: with n newlines the
   * column plus the line's bytes make n full lines and less than one more.
   */
  lemma {:induction false} FoldedNewlines(x: seq<char>, width: nat, col: nat)
    requires col < width && '\n' !in x
    ensures var n := NewlineCount(Folded(x, width, col));
      FullLines(n, width) <= col + |x| < FullLines(n, width) + width
    decreases |x|
  {
    if |x| < width - col {
      UnfoldedPlain(x);
    } else {
      var k := width - col;
      FoldedSplit(x, width, col);
      AroundNewline(x, k, Folded(x[k..], width, 0));
      PlainParts(x, k);
      FoldedNewlines(x[k..], width, 0);
    }
  }

  /**
   * One pass of the chunking loop at offset `off` of the line: `s` bytes
   * are copied, then a '\n' if they fill the output line; what is left to
   * fold is the rest of the line after them.
   */
  lemma FoldedStep(out: seq<char>, x: seq<char>, off: nat, width: nat, c: nat, s: nat)
    requires c < width && off < |x| && '\n' !in x
    requires s == (if width - c <= |x| - off then width - c else |x| - off)
    ensures var full := c + s == width;
      var out' := if full then out + x[off..off + s] + ['\n'] else out + x[off..off + s];
      && out' + Folded(x[off + s..], width, if full then 0 else c + s) == out + Folded(x[off..], width, c)
      && NewlineCount(out') == NewlineCount(out) + (if full then 1 else 0)
  {
    var r := x[off..];
    assert r[..s] == x[off..off + s];
    assert r[s..] == x[off + s..];
    FoldedStepText(r, width, c, s);
    if c + s == width {
      assert out + Folded(x[off..], width, c) == (out + x[off..off + s] + ['\n']) + Folded(x[off + s..], width, 0);
    }
    PlainSlice(x, off, off + s);
    UnfoldedAppend(out, x[off..off + s]);
    UnfoldedAppend(out + x[off..off + s], ['\n']);
  }

  /** A slice of a line without '\n' holds no '\n'. */
  lemma PlainSlice(x: seq<char>, i: nat, j: nat)
    requires i <= j <= |x| && '\n' !in x
    ensures NewlineCount(x[i..j]) == 0
  {
    assert forall c :: c in x[i..j] ==> c in x;
    UnfoldedPlain(x[i..j]);
  }

  /** The bytes one pass copies, and the '\n' after them when they fill the output line, begin the folded rest. */
  lemma FoldedStepText(r: seq<char>, width: nat, c: nat, s: nat)
    requires c < width && 0 < |r|
    requires s == (if width - c <= |r| then width - c else |r|)
    ensures c + s == width ==> Folded(r, width, c) == r[..s] + ['\n'] + Folded(r[s..], width, 0)
    ensures c + s != width ==> Folded(r, width, c) == r[..s] && r[s..] == []
  {
    if c + s == width {
      FoldedSplit(r, width, c);
    } else {
      assert r[..s] == r;
    }
  }

  /** The value of an integer as a 64-bit `size_t`: C converts a signed operand to it before an unsigned comparison. */
  function AsSize(v: int): (r: nat)
    ensures r < 0x1_0000_0000_0000_0000
    ensures 0 <= v < 0x1_0000_0000_0000_0000 ==> r == v
    ensures -0x1_0000_0000_0000_0000 <= v < 0 ==> r == 0x1_0000_0000_0000_0000 + v
  {
    v % 0x1_0000_0000_0000_0000
  }

  /** With a positive `int` width below the counter's room, both `size_t` tests see the plain values. */
  lemma NarrowPositive(width: int, c: nat)
    requires c < width < 0x8000_0000
    ensures AsSize(width - c) == width - c && AsSize(width) == width
  {
  }

  /** A negative `int` width converts to a `size_t` above any counter or chunk that fits in 2^63. */
  lemma WideNegative(width: int, c: nat, s: nat)
    requires -0x8000_0000 <= width < 0 && c + s < 0x8000_0000_0000_0000
    ensures s < AsSize(width - c) && c + s < AsSize(width)
  {
  }

  /**
   * The folding loop for one line: `col` is number_of_nucleotides_in_output_line
   * (a `size_t`) on entry, `col'` on exit, and `width` is the `int` given to
   * --len. Both tests compare the `int` width against the counter, so they are
   * made in `size_t` arithmetic. With a positive width every '\n' written
   * completes an output line of `width` bytes and `col'` bytes are left on the
   * last one. A negative width reads as a value near 2^64, so neither test
   * ever holds: the line is copied whole and only the counter grows.
   */
  method FoldLine(x: Line, width: int, col: nat) returns (out: seq<char>, col': nat)
    requires -0x8000_0000 <= width < 0x8000_0000 && width != 0
    requires 0 < width ==> col < width
    requires width < 0 ==> col + |x| < 0x8000_0000_0000_0000
    requires '\n' !in x
    ensures 0 < width ==> out == Folded(x, width, col)
    ensures 0 < width ==> col' < width && col + |x| == FullLines(NewlineCount(out), width) + col'
    ensures width < 0 ==> out == x && col' == col + |x|
  {
    out := [];
    col' := col;
    var off := 0;
    ghost var lines := 0;
    while off < |x|
      invariant off <= |x|
      invariant 0 < width ==> col' < width
      invariant 0 < width ==> lines == NewlineCount(out)
      invariant 0 < width ==> col + off == FullLines(lines, width) + col'
      invariant 0 < width ==> out + Folded(x[off..], width, col') == Folded(x, width, col)
      invariant width < 0 ==> out == x[..off] && col' == col + off
    {
      var s := |x| - off;
      if 0 < width {
        NarrowPositive(width, col');
      } else {
        WideNegative(width, col', s);
      }
      if AsSize(width - col') <= s {
        s := width - col';
      }
      if 0 < width {
        FoldedStep(out, x, off, width, col', s);
      } else {
        assert x[..off] + x[off..off + s] == x[..off + s];
      }
      out := out + x[off..off + s];
      off := off + s;
      col' := col' + s;
      if AsSize(width) <= col' {
        out := out + ['\n'];
        lines := lines + 1;
        col' := 0;
      }
    }
    assert x[off..] == [];
  }

  // ----- --start / --end / --num of `fatt extract` -----

  datatype RangeError = EndAndNum

  /**
   * The range of ordinals [start, end) do_extract works on. --end with
   * --num is an error; --num alone counts from --start, or from 0 when
   * --start was not given. -1 stands for an option that was not given.
   */
  function NormaliseRange(start: int, end: int, num: int): (r: Result<(int, int), RangeError>)
    ensures r.Err? <==> end != -1 && num != -1
    ensures r.Ok? && num != -1 ==> r.value.1 - r.value.0 == num && r.value.0 == (if start == -1 then 0 else start)
    ensures r.Ok? && num == -1 ==> r.value == (start, end)
  {
    if end != -1 && num != -1 then Err(EndAndNum)
    else if num != -1 then
      if start == -1 then Ok((0, num)) else Ok((start, start + num))
    else Ok((start, end))
  }
}
