/** String operations of the Rust standard library that the bot relies on, restated over
    `seq<char>`: prefixes, `split`, `join`, `str::lines` and first-occurrence search. */
module Text {
  import opened Errors

  predicate StartsWith(s: string, p: string) { |p| <= |s| && s[..|p|] == p }

  predicate Contains(s: string, c: char) { exists i :: 0 <= i < |s| && s[i] == c }

  /** The first index at or after `from` holding `c`. */
  function IndexOf(s: string, c: char, from: nat): (r: Option<nat>)
    requires from <= |s|
    ensures r.Some? ==> from <= r.value < |s| && s[r.value] == c
    ensures r.Some? ==> forall k :: from <= k < r.value ==> s[k] != c
    ensures r.None? ==> forall k :: from <= k < |s| ==> s[k] != c
    decreases |s| - from
  {
    if from == |s| then None
    else if s[from] == c then Some(from)
    else IndexOf(s, c, from + 1)
  }

  /** The part of `s` before the first `c`, or all of it. */
  function Before(s: string, c: char): (r: string)
    ensures |r| <= |s| && r == s[..|r|] && !Contains(r, c)
    ensures |r| < |s| ==> s[|r|] == c
  {
    match IndexOf(s, c, 0)
    case Some(i) => s[..i]
    case None => s
  }

  /** A separator-free part followed by the separator is what comes before it. */
  lemma BeforeSeparator(a: string, c: char, b: string)
    requires !Contains(a, c)
    ensures Before(a + [c] + b, c) == a
  {
    assert (a + [c] + b)[|a|] == c;
  }

  /** A slice of a text without `c` has no `c` either. */
  lemma SliceAvoids(s: string, c: char, i: nat, j: nat)
    requires !Contains(s, c) && i <= j <= |s|
    ensures !Contains(s[i..j], c)
  {
    forall k | 0 <= k < j - i ensures s[i..j][k] != c {
      assert s[i..j][k] == s[i + k];
    }
  }

  /** Without the separator, all of the text comes before it. */
  lemma BeforeAbsent(s: string, c: char)
    requires !Contains(s, c)
    ensures Before(s, c) == s
  {
  }

  /** `s.split(c)`: the pieces between occurrences of `c` (always at least one). */
  function Split(s: string, c: char): (r: seq<string>)
    ensures |r| >= 1
    ensures forall i :: 0 <= i < |r| ==> !Contains(r[i], c)
  {
    if |s| == 0 then [""]
    else if s[0] == c then [""] + Split(s[1..], c)
    else
      var t := Split(s[1..], c);
      var h := [s[0]] + t[0];
      assert !Contains(h, c) by {
        assert !Contains(t[0], c);
        forall i | 0 <= i < |h| ensures h[i] != c {
          if i > 0 { assert h[i] == t[0][i - 1]; }
        }
      }
      [h] + t[1..]
  }

  /** `parts.join(sep)` (itertools' `join` on an iterator of strings behaves the same). */
  function Join(parts: seq<string>, sep: string): string
  {
    if |parts| == 0 then ""
    else if |parts| == 1 then parts[0]
    else parts[0] + sep + Join(parts[1..], sep)
  }

  /** Joining the pieces of a split with the separator restores the string. */
  lemma {:induction false} JoinSplit(s: string, c: char)
    ensures Join(Split(s, c), [c]) == s
  {
    if |s| == 0 {
    } else if s[0] == c {
      JoinSplit(s[1..], c);
      assert s == [c] + s[1..];
    } else {
      var t := Split(s[1..], c);
      var r := Split(s, c);
      assert r == [[s[0]] + t[0]] + t[1..];
      JoinSplit(s[1..], c);
      assert s == [s[0]] + s[1..];
      if |t| == 1 {
        assert r == [[s[0]] + t[0]];
      } else {
        assert Join(t, [c]) == t[0] + [c] + Join(t[1..], [c]);
        assert r[1..] == t[1..];
        assert Join(r, [c]) == r[0] + [c] + Join(t[1..], [c]);
      }
    }
  }

  /** A piece free of the separator, followed by the separator, splits off first. */
  lemma {:induction false} SplitPiece(a: string, b: string, c: char)
    requires !Contains(a, c)
    ensures Split(a + [c] + b, c) == [a] + Split(b, c)
  {
    if |a| == 0 {
      assert a + [c] + b == [c] + b;
      assert ([c] + b)[1..] == b;
    } else {
      assert (a + [c] + b)[1..] == a[1..] + [c] + b;
      assert !Contains(a[1..], c) by {
        forall i | 0 <= i < |a[1..]| ensures a[1..][i] != c { assert a[1..][i] == a[i + 1]; }
      }
      SplitPiece(a[1..], b, c);
      assert a == [a[0]] + a[1..];
    }
  }

  lemma {:induction false} SplitSingle(a: string, c: char)
    requires !Contains(a, c)
    ensures Split(a, c) == [a]
  {
    if |a| > 0 {
      assert !Contains(a[1..], c) by {
        forall i | 0 <= i < |a[1..]| ensures a[1..][i] != c { assert a[1..][i] == a[i + 1]; }
      }
      SplitSingle(a[1..], c);
      assert a == [a[0]] + a[1..];
    }
  }

  /** The first piece of a split is the text before the first separator. */
  lemma SplitFirst(s: string, c: char)
    ensures Split(s, c)[0] == Before(s, c)
  {
    var b := Before(s, c);
    if |b| == |s| {
      assert b == s;
      SplitSingle(s, c);
    } else {
      assert s == b + [c] + s[|b| + 1..];
      SplitPiece(b, s[|b| + 1..], c);
    }
  }

  /** Splitting a join of separator-free pieces gives the pieces back. */
  lemma {:induction false} SplitJoin(parts: seq<string>, c: char)
    requires |parts| >= 1
    requires forall i :: 0 <= i < |parts| ==> !Contains(parts[i], c)
    ensures Split(Join(parts, [c]), c) == parts
  {
    if |parts| == 1 {
      SplitSingle(parts[0], c);
    } else {
      SplitJoin(parts[1..], c);
      SplitPiece(parts[0], Join(parts[1..], [c]), c);
      assert [parts[0]] + parts[1..] == parts;
    }
  }

  /** One line of `str::lines`: a `\n` and a `\r` immediately before it are removed. */
  function StripCarriageReturn(line: string): string
  {
    if |line| > 0 && line[|line| - 1] == '\r' then line[..|line| - 1] else line
  }

  /** `str::lines`: split at `\n`; a line ended by `\n` loses one `\r` before it; a final
      line ending is optional, so text ending in `\n` (or empty text) has no empty last line. */
  function Lines(text: string): (r: seq<string>)
    ensures forall i :: 0 <= i < |r| ==> !Contains(r[i], '\n')
  {
    LinesOf(Split(text, '\n'))
  }

  /** The lines of the pieces of a split at `\n`: all but the last piece were ended by `\n`. */
  function LinesOf(pieces: seq<string>): (r: seq<string>)
    requires |pieces| >= 1
    requires forall i :: 0 <= i < |pieces| ==> !Contains(pieces[i], '\n')
    ensures forall i :: 0 <= i < |r| ==> !Contains(r[i], '\n')
  {
    if |pieces| == 1 then (if |pieces[0]| == 0 then [] else [pieces[0]])
    else
      var head := StripCarriageReturn(pieces[0]);
      assert !Contains(head, '\n') by {
        assert !Contains(pieces[0], '\n');
        forall i | 0 <= i < |head| ensures head[i] != '\n' { assert head[i] == pieces[0][i]; }
      }
      [head] + LinesOf(pieces[1..])
  }

  /** The text of lines each ended by `\n`. */
  function Unlines(lines: seq<string>): string
  {
    if |lines| == 0 then "" else lines[0] + "\n" + Unlines(lines[1..])
  }

  predicate IsLine(l: string) { !Contains(l, '\n') && (|l| == 0 || l[|l| - 1] != '\r') }

  lemma {:induction false} UnlinesJoin(lines: seq<string>)
    ensures Unlines(lines) == Join(lines + [""], "\n")
  {
    if |lines| > 0 {
      UnlinesJoin(lines[1..]);
      assert (lines + [""])[1..] == lines[1..] + [""];
    }
  }

  /** `str::lines` reads back exactly the lines of a newline-terminated text. */
  lemma LinesUnlines(lines: seq<string>)
    requires forall i :: 0 <= i < |lines| ==> IsLine(lines[i])
    ensures Lines(Unlines(lines)) == lines
  {
    UnlinesJoin(lines);
    var parts := lines + [""];
    assert forall i :: 0 <= i < |parts| ==> !Contains(parts[i], '\n') by {
      forall i | 0 <= i < |parts| ensures !Contains(parts[i], '\n') {
        if i < |lines| { assert parts[i] == lines[i]; } else { assert parts[i] == ""; }
      }
    }
    SplitJoin(parts, '\n');
    LinesOfTerminated(lines);
  }

  lemma {:induction false} LinesOfTerminated(lines: seq<string>)
    requires forall i :: 0 <= i < |lines| ==> IsLine(lines[i])
    ensures forall i :: 0 <= i < |lines + [""]| ==> !Contains((lines + [""])[i], '\n')
    ensures LinesOf(lines + [""]) == lines
  {
    assert forall i :: 0 <= i < |lines + [""]| ==> !Contains((lines + [""])[i], '\n') by {
      forall i | 0 <= i < |lines + [""]| ensures !Contains((lines + [""])[i], '\n') {
        if i < |lines| { assert (lines + [""])[i] == lines[i]; }
      }
    }
    if |lines| > 0 {
      assert (lines + [""])[1..] == lines[1..] + [""];
      LinesOfTerminated(lines[1..]);
    }
  }
}
