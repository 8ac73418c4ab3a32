/**
 * src/sieve.cc: print a random sample of the lines of its input files. The
 * first pass counts the lines, the number to take follows from the
 * options, a set of line indices starts as the first ones and is shuffled
 * by swapping members for random targets, and the second pass prints the
 * lines whose global index is in the set. The random targets are an input
 * sequence; the files are their lines, read alike by both passes.
 */
module Sieve {
  import opened Wrappers
  import opened Text

  // ----- the option checks of main -----

  datatype OptionError = PercentOutOfRange | NoFiles | PercentAndCount

  /**
   * main's checks, in the order it makes them: a -p value outside 0..100,
   * no file argument, and -p given together with -c. `percent` is None
   * when -p is absent; `count` is -1 when -c is absent (an explicit `-c -1`
   * reads the same). On success, the two parameters of do_sieve.
   */
  function CheckOptions(percent: Option<int>, count: int, fileCount: nat): (r: Result<(int, int), OptionError>)
    ensures r.Ok? <==> (percent.None? || 0 <= percent.value <= 100) && fileCount > 0 && (percent.None? || count == -1)
    ensures r.Ok? ==> r.value.1 == count && (r.value.0 == -1 || 0 <= r.value.0 <= 100)
    ensures r.Ok? ==> (r.value.0 == -1 <==> percent.None?) && (percent.Some? ==> r.value.0 == percent.value)
  {
    if percent.Some? && !(0 <= percent.value <= 100) then Err(PercentOutOfRange)
    else if fileCount == 0 then Err(NoFiles)
    else if percent.Some? && count != -1 then Err(PercentAndCount)
    else Ok((if percent.Some? then percent.value else -1, count))
  }

  // ----- how many lines to take -----

  /**
   * take_lines: half the lines by default, `percent` percent of them with
   * -p, `count` of them (at most all) with -c; -1 stands for an absent
   * option. The product is taken in unbounded integers here; see
   * TakeLinesAsWritten for the `int` arithmetic of the source.
   */
  function TakeLines(lines: nat, percent: int, count: int): (t: int)
    requires percent == -1 || 0 <= percent <= 100
    ensures percent == -1 && count == -1 ==> 0 <= t && t + t <= lines < t + t + 2
    ensures percent != -1 && count == -1 ==> 0 <= t <= lines && t * 100 <= lines * percent < t * 100 + 100
    ensures count != -1 ==> t == (if lines < count then lines else count)
  {
    var t := if percent != -1 then lines * percent / 100 else lines / 2;
    if count != -1 then (if lines < count then lines else count) else t
  }

  /** The 32-bit two's-complement value of an integer, as `int` arithmetic wraps on common targets. */
  function Wrap32(x: int): (r: int)
    ensures -0x8000_0000 <= r < 0x8000_0000
    ensures (r - x) % 0x1_0000_0000 == 0
  {
    var m := x % 0x1_0000_0000;
    if m < 0x8000_0000 then m else m - 0x1_0000_0000
  }

  /**
   * C++ integer division: the quotient truncated toward zero, so q * d lies
   * between 0 and a, less than one d away from a.
   */
  function DivTrunc(a: int, d: int): (q: int)
    requires d > 0
    ensures a >= 0 ==> 0 <= q && q * d <= a < q * d + d
    ensures a < 0 ==> q <= 0 && q * d - d < a <= q * d
  {
    if a >= 0 then
      assert a == (a / d) * d + a % d && 0 <= a % d < d;
      a / d
    else
      assert -a == ((-a) / d) * d + (-a) % d && 0 <= (-a) % d < d;
      -((-a) / d)
  }

  /**
   * take_lines as src/sieve.cc computes it with -p: `lines * param_percent`
   * is an `int` product, which wraps once it passes 2^31 - 1.
   */
  function TakeLinesAsWritten(lines: nat, percent: int): int
    requires lines < 0x8000_0000 && 0 <= percent <= 100
  {
    DivTrunc(Wrap32(lines * percent), 100)
  }

  /**
   * With 30 million lines and -p 80 the product wraps to a negative number,
   * the take count is negative and nothing is printed, where 24 million
   * lines were asked for.
   */
  lemma PercentOverflowExample()
    ensures TakeLinesAsWritten(30_000_000, 80) == -18_949_672
    ensures TakeLines(30_000_000, 80, -1) == 24_000_000
  {
    assert 30_000_000 * 80 == 2_400_000_000;
    assert Wrap32(2_400_000_000) == -1_894_967_296;
  }

  /** Below the overflow the source's arithmetic is the intended one. */
  lemma TakeLinesAsWrittenAgrees(lines: nat, percent: int)
    requires lines < 0x8000_0000 && 0 <= percent <= 100 && lines * percent < 0x8000_0000
    ensures TakeLinesAsWritten(lines, percent) == TakeLines(lines, percent, -1)
  {
  }

  // ----- the set of chosen indices -----

  /** The indices 0 .. t-1 (none when t <= 0). */
  function Below(t: int): (r: set<int>)
    ensures forall i :: i in r <==> 0 <= i < t
    decreases if t < 0 then 0 else t
  {
    if t <= 0 then {} else Below(t - 1) + {t - 1}
  }

  lemma {:induction false} BelowSize(t: int)
    ensures |Below(t)| == (if t < 0 then 0 else t)
    decreases if t < 0 then 0 else t
  {
    if t > 0 {
      BelowSize(t - 1);
      assert t - 1 !in Below(t - 1);
    }
  }

  /** The set-up loop: insert 0, 1, ..., take_lines - 1. */
  method InitialSet(take: int) returns (chosen: set<int>)
    ensures chosen == Below(take)
  {
    chosen := {};
    var i := 0;
    while i < take
      invariant 0 <= i <= (if take < 0 then 0 else take)
      invariant chosen == Below(i)
    {
      chosen := chosen + {i};
      i := i + 1;
    }
    assert take <= 0 ==> Below(take) == Below(i);
  }

  /**
   * The shuffle from index i on, `used` random targets consumed so far:
   * every member i draws the next target; a target already in the set
   * changes nothing, any other joins the set and i leaves it.
   */
  function Shuffled(chosen: set<int>, lines: nat, draws: seq<int>, i: nat, used: nat): set<int>
    requires i <= lines <= |draws| && used <= i
    decreases lines - i
  {
    if i == lines then chosen
    else if i !in chosen then Shuffled(chosen, lines, draws, i + 1, used)
    else
      var target := draws[used];
      if target in chosen then Shuffled(chosen, lines, draws, i + 1, used + 1)
      else Shuffled(chosen + {target} - {i}, lines, draws, i + 1, used + 1)
  }

  /** The shuffle loop of do_sieve. */
  method Shuffle(chosen0: set<int>, lines: nat, draws: seq<int>) returns (chosen: set<int>)
    requires lines <= |draws|
    ensures chosen == Shuffled(chosen0, lines, draws, 0, 0)
  {
    chosen := chosen0;
    var used := 0;
    var i := 0;
    while i < lines
      invariant i <= lines && used <= i
      invariant Shuffled(chosen, lines, draws, i, used) == Shuffled(chosen0, lines, draws, 0, 0)
    {
      if i in chosen {
        var target := draws[used];
        used := used + 1;
        if target !in chosen {
          chosen := chosen + {target};
          chosen := chosen - {i};
        }
      }
      i := i + 1;
    }
  }

  /** A swap removes one member and adds one that was absent: the size of the set never changes. */
  lemma {:induction false} ShuffledSize(chosen: set<int>, lines: nat, draws: seq<int>, i: nat, used: nat)
    requires i <= lines <= |draws| && used <= i
    ensures |Shuffled(chosen, lines, draws, i, used)| == |chosen|
    decreases lines - i
  {
    if i < lines {
      if i !in chosen {
        ShuffledSize(chosen, lines, draws, i + 1, used);
      } else if draws[used] in chosen {
        ShuffledSize(chosen, lines, draws, i + 1, used + 1);
      } else {
        var target := draws[used];
        var next := chosen + {target} - {i};
        assert |chosen + {target}| == |chosen| + 1;
        assert |next| == |chosen|;
        ShuffledSize(next, lines, draws, i + 1, used + 1);
      }
    }
  }

  /** Targets within 0 .. lines-1 keep every member within 0 .. lines-1. */
  lemma {:induction false} ShuffledInRange(chosen: set<int>, lines: nat, draws: seq<int>, i: nat, used: nat)
    requires i <= lines <= |draws| && used <= i
    requires forall k :: k in chosen ==> 0 <= k < lines
    requires forall j :: 0 <= j < |draws| ==> 0 <= draws[j] < lines
    ensures forall k :: k in Shuffled(chosen, lines, draws, i, used) ==> 0 <= k < lines
    decreases lines - i
  {
    if i < lines {
      if i !in chosen {
        ShuffledInRange(chosen, lines, draws, i + 1, used);
      } else if draws[used] in chosen {
        ShuffledInRange(chosen, lines, draws, i + 1, used + 1);
      } else {
        ShuffledInRange(chosen + {draws[used]} - {i}, lines, draws, i + 1, used + 1);
      }
    }
  }

  // ----- the output pass -----

  /** The lines of all files, in order: line k of the result has global index k. */
  function Flatten(files: seq<seq<Line>>): seq<Line>
  {
    if |files| == 0 then [] else Flatten(files[..|files| - 1]) + files[|files| - 1]
  }

  /** The lines whose index is in `chosen`, in their input order. */
  function Selected(all: seq<Line>, chosen: set<int>): seq<Line>
  {
    if |all| == 0 then []
    else Selected(all[..|all| - 1], chosen) + (if |all| - 1 in chosen then [all[|all| - 1]] else [])
  }

  /** Exactly the chosen indices that exist are printed, one line each. */
  lemma {:induction false} SelectedCount(all: seq<Line>, chosen: set<int>)
    ensures |Selected(all, chosen)| == |chosen * Below(|all|)|
  {
    if |all| == 0 {
      assert chosen * Below(0) == {};
    } else {
      var n := |all| - 1;
      SelectedCount(all[..n], chosen);
      assert Below(n + 1) == Below(n) + {n};
      if n in chosen {
        assert chosen * Below(n + 1) == chosen * Below(n) + {n};
      } else {
        assert chosen * Below(n + 1) == chosen * Below(n);
      }
    }
  }

  /** Choosing every index prints the input unchanged. */
  lemma {:induction false} SelectedEverything(all: seq<Line>)
    ensures Selected(all, Below(|all|)) == all
  {
    if |all| > 0 {
      var n := |all| - 1;
      SelectedAgree(all[..n], Below(n + 1), Below(n));
      SelectedEverything(all[..n]);
      assert all[..n] + [all[n]] == all;
    }
  }

  /** Only the chosen indices below the length matter. */
  lemma {:induction false} SelectedAgree(all: seq<Line>, c: set<int>, c': set<int>)
    requires forall k :: 0 <= k < |all| ==> (k in c <==> k in c')
    ensures Selected(all, c) == Selected(all, c')
  {
    if |all| > 0 {
      SelectedAgree(all[..|all| - 1], c, c');
    }
  }

  /** The output loops: one pass over every file, the global cursor counting lines across files. */
  method Output(files: seq<seq<Line>>, chosen: set<int>) returns (out: seq<Line>)
    ensures out == Selected(Flatten(files), chosen)
  {
    out := [];
    var cursor := 0;
    var f := 0;
    while f < |files|
      invariant f <= |files|
      invariant cursor == |Flatten(files[..f])|
      invariant out == Selected(Flatten(files[..f]), chosen)
    {
      var lines := files[f];
      ghost var before := Flatten(files[..f]);
      var j := 0;
      assert before + lines[..0] == before;
      while j < |lines|
        invariant j <= |lines|
        invariant cursor == |before| + j
        invariant out == Selected(before + lines[..j], chosen)
      {
        ghost var read := before + lines[..j];
        assert read + [lines[j]] == before + lines[..j + 1];
        assert (read + [lines[j]])[..|read|] == read;
        if cursor in chosen {
          out := out + [lines[j]];
        }
        cursor := cursor + 1;
        j := j + 1;
      }
      assert files[..f + 1][..f] == files[..f];
      assert lines[..j] == lines;
      f := f + 1;
    }
    assert files[..f] == files;
  }

  // ----- do_sieve -----

  /** The contents of the files, or the index of the first one that cannot be opened. */
  function Opened(files: seq<Option<seq<Line>>>): (r: Result<seq<seq<Line>>, nat>)
    ensures r.Ok? ==> |r.value| == |files| && forall i :: 0 <= i < |files| ==> files[i] == Some(r.value[i])
    ensures r.Err? ==> r.error < |files| && files[r.error].None? && forall i :: 0 <= i < r.error ==> files[i].Some?
  {
    if |files| == 0 then Ok([])
    else match Opened(files[..|files| - 1])
      case Err(i) => Err(i)
      case Ok(prefix) =>
        if files[|files| - 1].None? then Err(|files| - 1) else Ok(prefix + [files[|files| - 1].value])
  }

  /** The number of lines of the files that open: the most targets the shuffle can draw. */
  function LinesIn(files: seq<Option<seq<Line>>>): nat
  {
    if |files| == 0 then 0
    else LinesIn(files[..|files| - 1]) + (if files[|files| - 1].Some? then |files[|files| - 1].value| else 0)
  }

  /**
   * What do_sieve prints: the lines whose global index is in the shuffled
   * set, or the index of the first file that does not open (exit(1)).
   */
  function SieveSpec(files: seq<Option<seq<Line>>>, percent: int, count: int, draws: seq<int>): Result<seq<Line>, nat>
    requires percent == -1 || 0 <= percent <= 100
    requires LinesIn(files) <= |draws|
  {
    match Opened(files)
    case Err(i) => Err(i)
    case Ok(contents) =>
      var lines := |Flatten(contents)|;
      LinesAll(files, contents);
      var chosen := Shuffled(Below(TakeLines(lines, percent, count)), lines, draws, 0, 0);
      Ok(Selected(Flatten(contents), chosen))
  }

  /** When every file opens, the lines counted are those of all of them. */
  lemma {:induction false} LinesAll(files: seq<Option<seq<Line>>>, contents: seq<seq<Line>>)
    requires |contents| == |files| && forall i :: 0 <= i < |files| ==> files[i] == Some(contents[i])
    ensures LinesIn(files) == |Flatten(contents)|
  {
    if |files| > 0 {
      var n := |files| - 1;
      LinesAll(files[..n], contents[..n]);
    }
  }

  /** The counting pass: every file is opened and its lines are counted; a file that does not open stops the program. */
  method CountLines(files: seq<Option<seq<Line>>>) returns (r: Result<(seq<seq<Line>>, nat), nat>)
    ensures Opened(files).Err? ==> r == Err(Opened(files).error)
    ensures Opened(files).Ok? ==> r == Ok((Opened(files).value, |Flatten(Opened(files).value)|))
  {
    var contents: seq<seq<Line>> := [];
    var lines := 0;
    var i := 0;
    while i < |files|
      invariant i <= |files|
      invariant Opened(files[..i]) == Ok(contents) && lines == |Flatten(contents)|
    {
      assert files[..i + 1][..i] == files[..i];
      if files[i].None? {
        OpenedPrefixErr(files, i + 1);
        r := Err(i);
        return;
      }
      var f := files[i].value;
      assert (contents + [f])[..|contents|] == contents;
      contents := contents + [f];
      lines := lines + |f|;
      i := i + 1;
    }
    assert files[..i] == files;
    r := Ok((contents, lines));
  }

  /** A file that does not open stops the scan there, whatever follows it. */
  lemma OpenedPrefixErr(files: seq<Option<seq<Line>>>, k: nat)
    requires k <= |files| && Opened(files[..k]).Err?
    ensures Opened(files) == Opened(files[..k])
  {
    var e := Opened(files[..k]).error;
    assert files[..k][e] == files[e];
    assert forall i :: 0 <= i < e ==> files[..k][i] == files[i];
    OpenedFirstErr(files, e);
    OpenedFirstErr(files[..k], e);
  }

  /** The error index is the first file that does not open. */
  lemma OpenedFirstErr(files: seq<Option<seq<Line>>>, e: nat)
    requires e < |files| && files[e].None? && forall i :: 0 <= i < e ==> files[i].Some?
    ensures Opened(files) == Err(e)
  {
  }

  /** do_sieve: count, choose, shuffle, print. */
  method DoSieve(files: seq<Option<seq<Line>>>, percent: int, count: int, draws: seq<int>) returns (r: Result<seq<Line>, nat>)
    requires percent == -1 || 0 <= percent <= 100
    requires LinesIn(files) <= |draws|
    ensures r == SieveSpec(files, percent, count, draws)
  {
    var counted := CountLines(files);
    if counted.Err? {
      return Err(counted.error);
    }
    var (contents, lines) := counted.value;
    LinesAll(files, contents);
    var take := TakeLines(lines, percent, count);
    var chosen := InitialSet(take);
    chosen := Shuffle(chosen, lines, draws);
    var out := Output(contents, chosen);
    r := Ok(out);
  }

  /**
   * The promise of sieve: when every target is a valid line index, it
   * prints exactly take_lines lines (none if take_lines is not positive),
   * each once, in input order.
   */
  lemma SieveTakes(files: seq<Option<seq<Line>>>, percent: int, count: int, draws: seq<int>)
    requires percent == -1 || 0 <= percent <= 100
    requires LinesIn(files) <= |draws|
    requires forall j :: 0 <= j < |draws| ==> 0 <= draws[j] < LinesIn(files)
    requires Opened(files).Ok?
    ensures var lines := LinesIn(files);
      var t := TakeLines(lines, percent, count);
      SieveSpec(files, percent, count, draws).Ok? &&
      |SieveSpec(files, percent, count, draws).value| == (if t < 0 then 0 else t)
  {
    var contents := Opened(files).value;
    LinesAll(files, contents);
    var all := Flatten(contents);
    var lines := |all|;
    var t := TakeLines(lines, percent, count);
    var start := Below(t);
    BelowSize(t);
    var chosen := Shuffled(start, lines, draws, 0, 0);
    ShuffledSize(start, lines, draws, 0, 0);
    ShuffledInRange(start, lines, draws, 0, 0);
    SelectedCount(all, chosen);
    assert chosen * Below(lines) == chosen;
  }
}
