/**
 * FileLineBufferWithAutoExpansion (src/fatt.cc): an input stream read one
 * line per call into a heap buffer that doubles whenever a line does not
 * fit, keeping the bytes already read. The open file is modelled as its
 * sequence of lines; the stream position is a line index and a byte column.
 */
module LineSource {
  import opened Wrappers
  import opened Text

  /** INITIAL_BUFFER_SIZE: 8 KiB. */
  const InitialBufferSize: nat := 8 * 1024

  /** Byte offset of line k in the file: every earlier line contributes its bytes and its '\n'. */
  function Offset(lines: seq<Line>, k: nat): nat
    requires k <= |lines|
  {
    if k == 0 then 0 else Offset(lines, k - 1) + |lines[k - 1]| + 1
  }

  /** Line starts are strictly increasing, each line ending before the next one starts. */
  lemma {:induction false} OffsetIncreasing(lines: seq<Line>, j: nat, k: nat)
    requires j < k <= |lines|
    ensures Offset(lines, j) + |lines[j]| + 1 <= Offset(lines, k)
    decreases k - j
  {
    if j + 1 < k {
      OffsetIncreasing(lines, j + 1, k);
    }
  }

  /** The stream position (line, column) that seekg(pos) moves to, searching from line k on. */
  function LocateFrom(lines: seq<Line>, pos: nat, k: nat): (p: (nat, nat))
    requires k <= |lines| && Offset(lines, k) <= pos
    ensures p.0 <= |lines|
    ensures p.0 < |lines| ==> p.1 <= |lines[p.0]| && Offset(lines, p.0) + p.1 == pos
    ensures p.0 == |lines| ==> p.1 == 0
    decreases |lines| - k
  {
    if k == |lines| then (k, 0)
    else if pos - Offset(lines, k) <= |lines[k]| then (k, pos - Offset(lines, k))
    else LocateFrom(lines, pos, k + 1)
  }

  /** seekg(pos): the line containing byte `pos` (its '\n' included) and the column in it; past the end, end of file. */
  function Locate(lines: seq<Line>, pos: nat): (nat, nat)
  {
    LocateFrom(lines, pos, 0)
  }

  /** Seeking to the offset of line k lands at the start of line k. */
  lemma {:induction false} LocateOffset(lines: seq<Line>, k: nat)
    requires k <= |lines|
    ensures Locate(lines, Offset(lines, k)) == (k, 0)
  {
    var j := 0;
    while j < k
      invariant j <= k
      invariant Offset(lines, j) <= Offset(lines, k)
      invariant LocateFrom(lines, Offset(lines, k), j) == Locate(lines, Offset(lines, k))
    {
      OffsetIncreasing(lines, j, k);
      j := j + 1;
    }
  }

  /**
   * The growth policy of getline and expandBufferDouble: the buffer size a
   * line of m bytes ends up in, starting from `size`. A size s holds a line
   * of at most s - 1 bytes (one byte is the terminating '\0').
   */
  function Grown(size: nat, m: nat): (r: nat)
    requires size >= 1
    ensures r > m && r >= size
    ensures r == size || r <= 2 * m
    decreases m - size
  {
    if m < size then size else Grown(2 * size, m)
  }

  /** What a call to getline reports. */
  datatype Status =
    | Got       // a whole line is in the buffer
    | AtEof     // nothing left to read
    | NotFastx  // the first line starts with neither '@' nor '>': the source exits with status 1

  class FileLineBuffer {
    /** The open file (the ifstream) and the position of the next byte to read. */
    var input: seq<Line>
    var row: nat
    var col: nat
    /** The stream's failbit: set by a getline that finds nothing left, or by a failed open. */
    var failed: bool

    var b: array<char>
    var currentBufferSize: nat
    var bufferOffsetToBeFill: nat
    /** strlen(b): the length of the line now in the buffer. */
    var lineLen: nat
    /** line_count, 1-origin: the number of successful getline calls since open. */
    var lineCount: nat
    var headerID: seq<char>

    ghost predicate Valid()
      reads this
    {
      && b.Length == currentBufferSize
      && currentBufferSize >= InitialBufferSize
      && lineLen < currentBufferSize
      && row <= |input|
      && (failed ==> row == |input|)
      && (row < |input| ==> col <= |input[row]|)
      && (row == |input| ==> col == 0)
    }

    /** The line in the buffer. */
    function Line(): Line
      reads this, b
      requires Valid()
    {
      b[..lineLen]
    }

    constructor ()
      ensures Valid() && fresh(b)
      ensures currentBufferSize == InitialBufferSize
      ensures input == [] && row == 0 && col == 0 && !failed
      ensures lineLen == 0 && lineCount == 0 && headerID == []
    {
      b := new char[InitialBufferSize];
      currentBufferSize := InitialBufferSize;
      lineCount := 0;
      headerID := [];
      input := [];
      row, col := 0, 0;
      failed := false;
      lineLen := 0;
      bufferOffsetToBeFill := 0;
    }

    /** open: a file that cannot be opened leaves a stream that delivers nothing. The buffer is kept. */
    method Open(file: Option<seq<Line>>) returns (ok: bool)
      requires Valid()
      modifies this
      ensures Valid()
      ensures ok == file.Some?
      ensures input == (if ok then file.value else [])
      ensures row == 0 && col == 0 && lineCount == 0 && failed == !ok
      ensures b == old(b) && currentBufferSize == old(currentBufferSize) && lineLen == old(lineLen)
      ensures headerID == old(headerID)
    {
      ok := file.Some?;
      input := if ok then file.value else [];
      failed := !ok;
      row, col := 0, 0;
      lineCount := 0;
    }

    /** expandBufferDouble: a buffer twice as large holding the first bufferOffsetToBeFill bytes of the old one. */
    method ExpandBufferDouble()
      requires Valid()
      requires bufferOffsetToBeFill <= currentBufferSize
      modifies this
      ensures Valid() && fresh(b)
      ensures currentBufferSize == 2 * old(currentBufferSize)
      ensures bufferOffsetToBeFill == old(bufferOffsetToBeFill)
      ensures b[..bufferOffsetToBeFill] == old(b[..bufferOffsetToBeFill])
      ensures input == old(input) && row == old(row) && col == old(col) && failed == old(failed)
      ensures bufferOffsetToBeFill == old(bufferOffsetToBeFill) && lineLen == old(lineLen)
      ensures lineCount == old(lineCount) && headerID == old(headerID)
    {
      var nextBufferSize := currentBufferSize * 2;
      var newb := new char[nextBufferSize];
      var i := 0;
      while i < bufferOffsetToBeFill
        modifies newb
        invariant i <= bufferOffsetToBeFill
        invariant newb[..i] == b[..i]
      {
        newb[i] := b[i];
        i := i + 1;
      }
      b := newb;
      currentBufferSize := nextBufferSize;
    }

    /** The part of ist.getline that stores bytes: `src` written into the buffer at `at`. */
    method Store(src: seq<char>, at: nat)
      requires at + |src| <= b.Length
      modifies b
      ensures b[..at] == old(b[..at])
      ensures b[at..at + |src|] == src
    {
      var i := 0;
      while i < |src|
        invariant i <= |src|
        invariant b[..at] == old(b[..at])
        invariant b[at..at + i] == src[..i]
      {
        b[at + i] := src[i];
        i := i + 1;
      }
    }

    /**
     * One failed attempt of the getline loop: the buffer is filled up to its
     * last byte, the bytes are kept and the buffer doubles.
     */
    method KeepPartAndExpand(ghost c0: nat, line: seq<char>)
      requires Valid() && row < |input| && line == input[row]
      requires c0 <= col <= |line| && bufferOffsetToBeFill == col - c0
      requires bufferOffsetToBeFill + 1 < currentBufferSize
      requires b[..bufferOffsetToBeFill] == line[c0..col]
      requires |line| - col > currentBufferSize - bufferOffsetToBeFill - 1
      modifies this, b
      ensures Valid() && fresh(b)
      ensures input == old(input) && row == old(row) && failed == old(failed)
      ensures lineCount == old(lineCount) && headerID == old(headerID)
      ensures old(col) < col <= |line| && bufferOffsetToBeFill == col - c0
      ensures currentBufferSize == 2 * old(currentBufferSize)
      ensures bufferOffsetToBeFill + 1 < currentBufferSize
      ensures b[..bufferOffsetToBeFill] == line[c0..col]
    {
      var off := bufferOffsetToBeFill;
      var n := currentBufferSize - off - 1;
      var part := line[col..col + n];
      Store(part, off);
      assert b[..off + n] == b[..off] + b[off..off + n];
      assert line[c0..col + n] == line[c0..col] + part;
      col := col + n;
      bufferOffsetToBeFill := off + n;
      ExpandBufferDouble();
    }

    /**
     * The loop of getline up to its last attempt: while the rest of the line
     * does not fit, the buffer is filled, kept and doubled.
     */
    method FillUntilFits()
      requires Valid() && row < |input|
      modifies this, b
      ensures Valid()
      ensures b == old(b) || fresh(b)
      ensures input == old(input) && row == old(row) && failed == old(failed)
      ensures lineCount == old(lineCount) && headerID == old(headerID)
      ensures old(col) <= col <= |input[row]|
      ensures bufferOffsetToBeFill == col - old(col) && bufferOffsetToBeFill + 1 < currentBufferSize
      ensures b[..bufferOffsetToBeFill] == input[row][old(col)..col]
      ensures |input[row]| - col <= currentBufferSize - bufferOffsetToBeFill - 1
      ensures Grown(currentBufferSize, |input[row]| - old(col)) == Grown(old(currentBufferSize), |input[row]| - old(col))
    {
      bufferOffsetToBeFill := 0;
      ghost var c0 := col;
      var line := input[row];
      while |line| - col > currentBufferSize - bufferOffsetToBeFill - 1
        invariant Valid()
        invariant b == old(b) || fresh(b)
        invariant input == old(input) && row == old(row) && line == input[row] && failed == old(failed)
        invariant lineCount == old(lineCount) && headerID == old(headerID)
        invariant c0 <= col <= |line|
        invariant bufferOffsetToBeFill == col - c0
        invariant bufferOffsetToBeFill + 1 < currentBufferSize
        invariant b[..bufferOffsetToBeFill] == line[c0..col]
        invariant Grown(currentBufferSize, |line| - c0) == Grown(old(currentBufferSize), |line| - c0)
        decreases |line| - col
      {
        KeepPartAndExpand(c0, line);
      }
    }

    /**
     * The whole of getline's loop: the rest of the current line, however
     * long, ends up in the buffer.
     */
    method FillLine()
      requires Valid() && row < |input|
      modifies this, b
      ensures Valid()
      ensures b == old(b) || fresh(b)
      ensures input == old(input) && row == old(row) + 1 && col == 0 && failed == old(failed)
      ensures Line() == old(input[row][col..])
      ensures currentBufferSize == Grown(old(currentBufferSize), |Line()|)
      ensures lineCount == old(lineCount) && headerID == old(headerID)
    {
      ghost var c0 := col;
      FillUntilFits();
      // the '\n' (or the end of the file) is within reach: the line is complete
      var line := input[row];
      var off := bufferOffsetToBeFill;
      var rest := line[col..];
      Store(rest, off);
      lineLen := off + |rest|;
      assert b[..lineLen] == b[..off] + b[off..lineLen];
      assert line[c0..] == line[c0..col] + rest;
      row, col := row + 1, 0;
    }

    /**
     * getline: one whole line into the buffer, or end of file. The first
     * line read after open decides the format: '@' is FASTQ (its name is
     * remembered), '>' is FASTA, anything else stops the program.
     */
    method GetLine() returns (r: Status)
      requires Valid()
      modifies this, b
      ensures Valid()
      ensures b == old(b) || fresh(b)
      ensures input == old(input)
      ensures r == AtEof <==> old(row) == |input|
      ensures failed == (r == AtEof || old(failed))
      ensures r == AtEof ==>
        && row == old(row) && col == old(col) && Line() == []
        && lineCount == old(lineCount) && headerID == old(headerID)
        && currentBufferSize == old(currentBufferSize)
      ensures r != AtEof ==>
        && row == old(row) + 1 && col == 0
        && Line() == old(input[row][col..])
        && lineCount == old(lineCount) + 1
        && currentBufferSize == Grown(old(currentBufferSize), |Line()|)
        && (r == NotFastx <==> lineCount == 1 && !IsFastqHeader(Line()) && !IsFastaHeader(Line()))
        && headerID == (if lineCount == 1 && IsFastqHeader(Line()) then ReadName(Line()) else old(headerID))
    {
      if row == |input| {
        // getline stores only the terminating '\0' and reports end of file
        bufferOffsetToBeFill := 0;
        lineLen := 0;
        failed := true;
        return AtEof;
      }
      FillLine();
      lineCount := lineCount + 1;
      r := Got;
      if lineCount == 1 {
        if LooksLikeFastqHeader() {
          RegisterHeaderLine();
        } else if LooksLikeFastaHeader() {
        } else {
          r := NotFastx;
        }
      }
    }

    /**
     * getline once the first line has been read: the classification cannot
     * trigger again, so only the line, the position and the count change.
     */
    method NextLine() returns (got: bool)
      requires Valid() && col == 0 && 1 <= lineCount == row
      modifies this, b
      ensures Valid() && col == 0 && lineCount == row
      ensures b == old(b) || fresh(b)
      ensures input == old(input) && headerID == old(headerID)
      ensures got <==> old(row) < |input|
      ensures got ==> row == old(row) + 1 && Line() == input[old(row)]
      ensures !got ==> row == old(row) && failed
    {
      var r := GetLine();
      got := r != AtEof;
      if got {
        assert input[old(row)][0..] == input[old(row)];
      }
    }

    function LooksLikeFastqHeader(): bool
      reads this, b
      requires Valid()
    {
      IsFastqHeader(Line())
    }

    function LooksLikeFastaHeader(): bool
      reads this, b
      requires Valid()
    {
      IsFastaHeader(Line())
    }

    /** looksLikeFASTQSeparator on the buffer and the remembered name. */
    function LooksLikeFastqSeparator(): bool
      reads this, b
      requires Valid()
    {
      LooksLikeSeparator(Line(), headerID)
    }

    /** strlen(b). */
    function Len(): nat
      reads this, b
      requires Valid()
    {
      |Line()|
    }

    /** notFollowedByHeaderOrEOF: peek sees a byte other than '@' (an empty next line shows its '\n'). */
    function NotFollowedByHeaderOrEof(): bool
      reads this
      requires Valid()
    {
      row < |input| && !(col < |input[row]| && input[row][col] == '@')
    }

    /** fail(). */
    function Fail(): bool
      reads this
    {
      failed
    }

    /** tellg: the byte offset of the next byte to read, or -1 once the stream has failed. */
    function Tellg(): int
      reads this
      requires Valid()
    {
      if failed then -1 else if row < |input| then Offset(input, row) + col else Offset(input, |input|)
    }

    /**
     * seekg: moves to byte `pos`, which is the start of line k when pos is
     * that line's offset. A failed stream does not move.
     */
    method Seekg(pos: nat)
      requires Valid()
      modifies this
      ensures Valid()
      ensures (row, col) == (if old(failed) then (old(row), old(col)) else Locate(input, pos))
      ensures failed == old(failed)
      ensures input == old(input) && b == old(b) && lineLen == old(lineLen)
      ensures currentBufferSize == old(currentBufferSize) && lineCount == old(lineCount)
      ensures headerID == old(headerID)
    {
      if !failed {
        var p := Locate(input, pos);
        row, col := p.0, p.1;
      }
    }

    /**
     * registerHeaderLine: the name is the bytes after the first one up to
     * the first space or the end of the line; an empty line leaves the
     * remembered name as it was.
     */
    method RegisterHeaderLine()
      requires Valid()
      modifies this`headerID
      ensures Valid() && Line() == old(Line())
      ensures |Line()| == 0 ==> headerID == old(headerID)
      ensures |Line()| > 0 ==> headerID == ReadName(Line())
    {
      var lenWithGt := lineLen;
      if lenWithGt == 0 {
        return;
      }
      var id: seq<char> := [];
      var i := 1;
      while i < lenWithGt && b[i] != ' '
        invariant 1 <= i <= lenWithGt
        invariant id == b[1..i]
        invariant ' ' !in id
      {
        id := id + [b[i]];
        i := i + 1;
      }
      headerID := id;
      assert Line()[1..] == b[1..lenWithGt];
      TokenUnique(Line()[1..], id);
    }
  }
}
