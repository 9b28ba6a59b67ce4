/**
 * The Kotlin string operations the networking library relies on:
 * `lowercase`, `indexOf`, `replaceFirst`, `replace`, `lastIndexOf` and
 * `substringAfterLast`, with the properties the library needs of them.
 */
module Text {

  /** Lower-cases one ASCII letter; every other character is kept. */
  function LowerChar(c: char): char {
    if 'A' <= c <= 'Z' then (c as int + 32) as char else c
  }

  /** `String.lowercase()`, restricted to ASCII letters. */
  function Lower(s: string): (r: string)
    ensures |r| == |s|
    ensures forall i :: 0 <= i < |s| ==> r[i] == LowerChar(s[i])
  {
    seq(|s|, i requires 0 <= i < |s| => LowerChar(s[i]))
  }

  lemma LowerIdempotent(s: string)
    ensures Lower(Lower(s)) == Lower(s)
  {
    assert forall i :: 0 <= i < |s| ==> LowerChar(LowerChar(s[i])) == LowerChar(s[i]);
  }

  /** `pat` occurs in `s` starting at index `i`. */
  predicate IsAt(s: string, pat: string, i: int) {
    0 <= i && i + |pat| <= |s| && s[i..i + |pat|] == pat
  }

  /** `pat` occurs nowhere in `s`. */
  ghost predicate Free(s: string, pat: string) {
    forall j :: !IsAt(s, pat, j)
  }

  /** What the recursive step of `IndexOf` needs: occurrences in `s[1..]` are those in `s` moved left by one. */
  lemma IndexOfStep(s: string, pat: string, k: int)
    requires |pat| > 0 && |s| >= |pat| && s[..|pat|] != pat
    requires k == -1 || 0 <= k <= |s| - 1 - |pat|
    requires k == -1 <==> Free(s[1..], pat)
    requires k >= 0 ==> IsAt(s[1..], pat, k) && forall j :: 0 <= j < k ==> !IsAt(s[1..], pat, j)
    ensures k == -1 <==> Free(s, pat)
    ensures k >= 0 ==> IsAt(s, pat, k + 1) && forall j :: 0 <= j < k + 1 ==> !IsAt(s, pat, j)
  {
    forall j | 1 <= j
      ensures IsAt(s, pat, j) <==> IsAt(s[1..], pat, j - 1)
    {
      if j + |pat| <= |s| {
        assert s[1..][j - 1..j - 1 + |pat|] == s[j..j + |pat|];
      }
    }
    assert !IsAt(s, pat, 0);
    if k == -1 {
      forall j ensures !IsAt(s, pat, j) {
        if j >= 1 { assert !IsAt(s[1..], pat, j - 1); }
      }
    } else {
      assert IsAt(s, pat, k + 1);
    }
  }

  /**
   * `s.indexOf(pat)`: the first index at which `pat` occurs, or -1 when it
   * occurs nowhere.
   */
  function IndexOf(s: string, pat: string): (r: int)
    requires |pat| > 0
    ensures r == -1 || 0 <= r <= |s| - |pat|
    ensures r == -1 <==> Free(s, pat)
    ensures r >= 0 ==> IsAt(s, pat, r) && forall j :: 0 <= j < r ==> !IsAt(s, pat, j)
    decreases |s|
  {
    if |s| < |pat| then -1
    else if s[..|pat|] == pat then
      assert IsAt(s, pat, 0);
      0
    else
      var k := IndexOf(s[1..], pat);
      IndexOfStep(s, pat, k);
      if k < 0 then -1 else k + 1
  }

  /** If `pat` starts with a character absent from `a`, its first occurrence in `a + pat + b` is right after `a`. */
  lemma IndexOfAfterFree(a: string, pat: string, b: string)
    requires |pat| > 0 && pat[0] !in a
    ensures IndexOf(a + pat + b, pat) == |a|
  {
    var s := a + pat + b;
    assert s[|a|..|a| + |pat|] == pat;
    assert IsAt(s, pat, |a|);
  }

  /** A text without the first character of `pat` holds no occurrence of it. */
  lemma FreeOfFirstChar(s: string, pat: string)
    requires |pat| > 0 && pat[0] !in s
    ensures Free(s, pat)
  {
    forall j
      ensures !IsAt(s, pat, j)
    {
      if 0 <= j && j + |pat| <= |s| {
        assert s[j..j + |pat|][0] == s[j];
      }
    }
  }

  /** `s.replaceFirst(pat, v)`: the first occurrence of `pat`, if any, becomes `v`. */
  function ReplaceFirst(s: string, pat: string, v: string): (r: string)
    requires |pat| > 0
  {
    var i := IndexOf(s, pat);
    if i < 0 then s else s[..i] + v + s[i + |pat|..]
  }

  /**
   * `s.replace(pat, v)`: scans `s` from the left, replacing each occurrence
   * of `pat` by `v` and resuming the scan after it (replacements are never
   * scanned again).
   */
  function ReplaceAll(s: string, pat: string, v: string): string
    requires |pat| > 0
    decreases |s|
  {
    var i := IndexOf(s, pat);
    if i < 0 then s else s[..i] + v + ReplaceAll(s[i + |pat|..], pat, v)
  }

  /**
   * The pieces of `s` between the occurrences of `pat` that the same
   * left-to-right scan finds; none of them contains `pat`.
   */
  function Split(s: string, pat: string): (parts: seq<string>)
    requires |pat| > 0
    ensures |parts| >= 1
    ensures forall k :: 0 <= k < |parts| ==> Free(parts[k], pat)
    decreases |s|
  {
    var i := IndexOf(s, pat);
    if i < 0 then [s]
    else
      var rest := Split(s[i + |pat|..], pat);
      FreeBeforeFirst(s, pat, i);
      [s[..i]] + rest
  }

  /** The text before the first occurrence holds no occurrence. */
  lemma FreeBeforeFirst(s: string, pat: string, i: int)
    requires |pat| > 0 && 0 <= i <= |s|
    requires forall j :: 0 <= j < i ==> !IsAt(s, pat, j)
    ensures Free(s[..i], pat)
  {
    forall j | IsAt(s[..i], pat, j)
      ensures false
    {
      assert s[..i][j..j + |pat|] == s[j..j + |pat|];
      assert IsAt(s, pat, j);
    }
  }

  /** The pieces glued together with `sep` between neighbours. */
  function Join(parts: seq<string>, sep: string): string
    decreases |parts|
  {
    if |parts| == 0 then ""
    else if |parts| == 1 then parts[0]
    else parts[0] + sep + Join(parts[1..], sep)
  }

  /** Joining a piece in front of at least one other puts one separator after it. */
  lemma JoinCons(p: string, parts: seq<string>, sep: string)
    requires |parts| >= 1
    ensures Join([p] + parts, sep) == p + sep + Join(parts, sep)
  {
    assert ([p] + parts)[1..] == parts;
  }

  /** Splitting at `pat` and joining with `pat` gives back the original text. */
  lemma {:induction false} JoinSplit(s: string, pat: string)
    requires |pat| > 0
    ensures Join(Split(s, pat), pat) == s
    decreases |s|
  {
    var i := IndexOf(s, pat);
    if i >= 0 {
      var tail := s[i + |pat|..];
      var parts := Split(tail, pat);
      JoinSplit(tail, pat);
      assert Split(s, pat) == [s[..i]] + parts;
      JoinCons(s[..i], parts, pat);
      assert s[i..i + |pat|] == pat;
      assert s == s[..i] + s[i..i + |pat|] + tail;
    }
  }

  /** `replace` is splitting at `pat` and joining with `v`. */
  lemma {:induction false} ReplaceAllIsJoinSplit(s: string, pat: string, v: string)
    requires |pat| > 0
    ensures ReplaceAll(s, pat, v) == Join(Split(s, pat), v)
    decreases |s|
  {
    var i := IndexOf(s, pat);
    if i >= 0 {
      var tail := s[i + |pat|..];
      var parts := Split(tail, pat);
      ReplaceAllIsJoinSplit(tail, pat, v);
      assert Split(s, pat) == [s[..i]] + parts;
      JoinCons(s[..i], parts, v);
    }
  }

  /** Replacing a pattern by itself changes nothing. */
  lemma ReplaceAllBySelf(s: string, pat: string)
    requires |pat| > 0
    ensures ReplaceAll(s, pat, pat) == s
  {
    ReplaceAllIsJoinSplit(s, pat, pat);
    JoinSplit(s, pat);
  }

  /** Text that does not contain `pat` is left as it is. */
  lemma ReplaceAllFree(s: string, pat: string, v: string)
    requires |pat| > 0 && Free(s, pat)
    ensures ReplaceAll(s, pat, v) == s
  {
  }

  /**
   * The first occurrence of `pat` in `a + pat + b` is replaced by `v` when
   * the first character of `pat` is absent from `a`; the scan goes on in `b`.
   */
  lemma ReplaceAllAfterFree(a: string, pat: string, b: string, v: string)
    requires |pat| > 0 && pat[0] !in a
    ensures ReplaceAll(a + pat + b, pat, v) == a + v + ReplaceAll(b, pat, v)
  {
    var s := a + pat + b;
    IndexOfAfterFree(a, pat, b);
    assert s[..|a|] == a;
    assert s[|a| + |pat|..] == b;
  }

  /** `s.lastIndexOf(c)`: the last index holding `c`, or -1. */
  function LastIndexOf(s: string, c: char): (r: int)
    ensures -1 <= r < |s|
    ensures r == -1 <==> c !in s
    ensures r >= 0 ==> s[r] == c && c !in s[r + 1..]
    decreases |s|
  {
    if |s| == 0 then -1
    else if s[|s| - 1] == c then |s| - 1
    else
      var r := LastIndexOf(s[..|s| - 1], c);
      assert s == s[..|s| - 1] + [s[|s| - 1]];
      assert r >= 0 ==> s[r + 1..] == s[..|s| - 1][r + 1..] + [s[|s| - 1]];
      r
  }

  /** `s.substringAfterLast(c)`: the text after the last `c`, or all of `s` when there is none. */
  function SubstringAfterLast(s: string, c: char): (r: string)
    ensures c !in r
    ensures c !in s ==> r == s
  {
    var i := LastIndexOf(s, c);
    if i < 0 then s else s[i + 1..]
  }

  /** Only what follows the last `c` is kept. */
  lemma AfterLastOfSuffix(a: string, c: char, b: string)
    requires c !in b
    ensures SubstringAfterLast(a + [c] + b, c) == b
  {
    var s := a + [c] + b;
    assert s[|a|] == c;
    assert s[|a| + 1..] == b;
  }

  /** Lower-casing never moves a '.' (or creates one), so it commutes with taking the last extension. */
  lemma {:induction false} LastIndexOfLower(s: string)
    ensures LastIndexOf(Lower(s), '.') == LastIndexOf(s, '.')
    decreases |s|
  {
    if |s| > 0 {
      var init := s[..|s| - 1];
      LastIndexOfLower(init);
      assert Lower(s)[..|s| - 1] == Lower(init);
    }
  }

  lemma AfterLastLower(s: string)
    ensures SubstringAfterLast(Lower(s), '.') == Lower(SubstringAfterLast(s, '.'))
  {
    LastIndexOfLower(s);
  }
}
