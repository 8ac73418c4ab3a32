/**
 * Line-level text helpers shared by fatt.cc and readcount.cc: how a record
 * name is cut out of a header line, and how a FASTQ `+` separator line is
 * recognised against the name of the current record.
 */
module Text {
  /** One line of an input file, without its terminating '\n'. */
  type Line = seq<char>

  /** `@` in the first byte: a FASTQ header (an empty line has '\0' there). */
  predicate IsFastqHeader(line: Line)
  {
    |line| > 0 && line[0] == '@'
  }

  /** `>` in the first byte: a FASTA header. */
  predicate IsFastaHeader(line: Line)
  {
    |line| > 0 && line[0] == '>'
  }

  /** The bytes of `s` before its first space (all of `s` if it has none). */
  function Token(s: seq<char>): seq<char>
  {
    if |s| == 0 || s[0] == ' ' then [] else [s[0]] + Token(s[1..])
  }

  /** The token is a prefix of `s` without spaces that ends at a space or at the end of `s`. */
  lemma {:induction false} TokenShape(s: seq<char>)
    ensures Token(s) <= s
    ensures ' ' !in Token(s)
    ensures |Token(s)| == |s| || s[|Token(s)|] == ' '
  {
    if |s| > 0 && s[0] != ' ' {
      TokenShape(s[1..]);
    }
  }

  /** A prefix of `s` without spaces that ends at a space or at the end is the token of `s`. */
  lemma {:induction false} TokenUnique(s: seq<char>, r: seq<char>)
    requires r <= s
    requires ' ' !in r
    requires |r| == |s| || s[|r|] == ' '
    ensures r == Token(s)
    decreases |s|
  {
    if |r| > 0 {
      assert r[0] == s[0] && r[0] in r;
      assert r[1..] <= s[1..] && ' ' !in r[1..];
      TokenUnique(s[1..], r[1..]);
    }
  }

  /**
   * get_read_name_from_header and output_read_name: the bytes after the
   * header's first byte up to the first space or the end of the line;
   * nothing for an empty line.
   */
  function ReadName(header: Line): seq<char>
  {
    if |header| == 0 then [] else Token(header[1..])
  }

  /** The name is the run of bytes after the first one that ends at the first space or at the end of the line. */
  lemma ReadNameShape(header: Line)
    ensures var r := ReadName(header);
      && (|header| == 0 ==> r == [])
      && (|header| > 0 ==>
            1 + |r| <= |header| && r == header[1..1 + |r|] && ' ' !in r &&
            (1 + |r| == |header| || header[1 + |r|] == ' '))
  {
    if |header| > 0 {
      TokenShape(header[1..]);
    }
  }

  /**
   * The comparison loop of looksLikeFASTQSeparator: for every i from `i` on,
   * byte i + 1 of the line is neither the end of the line nor a space and
   * equals byte i of the remembered name.
   */
  predicate IdMatchesFrom(line: Line, id: seq<char>, i: nat)
    requires i <= |id|
    decreases |id| - i
  {
    i == |id| ||
    (i + 1 < |line| && line[i + 1] != ' ' && line[i + 1] == id[i] && IdMatchesFrom(line, id, i + 1))
  }

  /** looksLikeFASTQSeparator, branch for branch, on the line in the buffer and the remembered name. */
  predicate LooksLikeSeparator(line: Line, id: seq<char>)
  {
    |line| > 0 && line[0] == '+' &&
    (|line| == 1 ||
     (IdMatchesFrom(line, id, 0) && (|line| == |id| + 1 || (|id| + 1 < |line| && line[|id| + 1] == ' '))))
  }

  /**
   * The separator rule in words: `+` alone, or `+` followed by exactly the
   * current record's name and then the end of the line or a space.
   */
  predicate IsSeparatorLine(line: Line, id: seq<char>)
  {
    |line| > 0 && line[0] == '+' &&
    (|line| == 1 ||
     (|id| + 1 <= |line| && line[1..|id| + 1] == id && (|line| == |id| + 1 || line[|id| + 1] == ' ')))
  }

  lemma {:induction false} IdMatchesFromSpec(line: Line, id: seq<char>, i: nat)
    requires ' ' !in id
    requires i <= |id| && i + 1 <= |line|
    ensures IdMatchesFrom(line, id, i) <==> (|id| + 1 <= |line| && line[i + 1..|id| + 1] == id[i..])
    decreases |id| - i
  {
    if i < |id| {
      if i + 1 < |line| {
        IdMatchesFromSpec(line, id, i + 1);
        if |id| + 1 <= |line| {
          assert line[i + 1..|id| + 1] == [line[i + 1]] + line[i + 2..|id| + 1];
          assert id[i..] == [id[i]] + id[i + 1..];
          assert id[i] in id;
        }
      }
    }
  }

  /**
   * The loop in looksLikeFASTQSeparator implements the separator rule, in
   * both directions, for every name registerHeaderLine can produce (names
   * never contain a space).
   */
  lemma SeparatorSpec(line: Line, id: seq<char>)
    requires ' ' !in id
    ensures LooksLikeSeparator(line, id) <==> IsSeparatorLine(line, id)
  {
    if |line| > 1 {
      IdMatchesFromSpec(line, id, 0);
    }
  }

  /** A quality line that starts with `+` but continues with other bytes than the name is not a separator. */
  lemma PlusQualityLineIsNotSeparator(id: seq<char>, rest: seq<char>)
    requires ' ' !in id
    requires |rest| > 0
    requires !(id <= rest && (|rest| == |id| || rest[|id|] == ' '))
    ensures !LooksLikeSeparator(['+'] + rest, id)
  {
    var line := ['+'] + rest;
    SeparatorSpec(line, id);
    assert line[1..] == rest;
    if |id| + 1 <= |line| && line[1..|id| + 1] == id {
      assert rest[..|id|] == id;
    }
  }

  /** `+`, `+name` and `+name comment` are separators of the record `name`; `+name2` and `+` + `IIII` are not. */
  lemma SeparatorExamples()
    ensures LooksLikeSeparator("+", "r1")
    ensures LooksLikeSeparator("+r1", "r1")
    ensures LooksLikeSeparator("+r1 x", "r1")
    ensures !LooksLikeSeparator("+r10", "r1")
    ensures !LooksLikeSeparator("+IIII", "r1")
  {
    SeparatorSpec("+r1", "r1");
    SeparatorSpec("+r1 x", "r1");
    SeparatorSpec("+r10", "r1");
    SeparatorSpec("+IIII", "r1");
  }
}
