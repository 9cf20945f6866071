/**
  The few `java.lang.String` operations the view-name dispatch relies on:
  `startsWith`, `indexOf` of a character, and `split` on a one-character
  separator with the default limit 0, which discards trailing empty pieces.
 */
module JavaStrings {

  /** `s.startsWith(prefix)`. */
  predicate StartsWith(s: string, prefix: string) {
    |prefix| <= |s| && s[..|prefix|] == prefix
  }

  /** `k` copies of `x`. */
  function Repeat<T>(x: T, k: nat): (r: seq<T>)
    ensures |r| == k
    ensures forall i :: 0 <= i < k ==> r[i] == x
  {
    seq(k, _ => x)
  }

  /** `s.indexOf(c)` when `c` occurs in `s`: the first position holding `c`. */
  function IndexOf(s: string, c: char): (i: nat)
    requires c in s
    ensures i < |s| && s[i] == c
    ensures c !in s[..i]
  {
    if s[0] == c then 0
    else
      assert c in s[1..] by {
        var j :| 0 <= j < |s| && s[j] == c;
        assert s[1..][j - 1] == c;
      }
      var j := IndexOf(s[1..], c);
      assert s[..j + 1] == [s[0]] + s[1..][..j];
      j + 1
  }

  /**
    The pieces of `s` between the occurrences of `c`, empty pieces kept:
    `n` occurrences give `n + 1` pieces. This is the list that
    `String.split` builds before it drops the trailing empty pieces.
   */
  function SplitOn(s: string, c: char): (parts: seq<string>)
    ensures |parts| >= 1
    ensures forall i :: 0 <= i < |parts| ==> c !in parts[i]
    decreases |s|
  {
    if c !in s then [s]
    else
      var i := IndexOf(s, c);
      [s[..i]] + SplitOn(s[i + 1..], c)
  }

  /** The pieces put back together with `c` between neighbours. */
  function Join(parts: seq<string>, c: char): (s: string)
    requires |parts| >= 1
  {
    if |parts| == 1 then parts[0] else parts[0] + [c] + Join(parts[1..], c)
  }

  /** Splitting loses nothing: joining the pieces gives back the string. */
  lemma {:induction false} JoinSplitOn(s: string, c: char)
    ensures Join(SplitOn(s, c), c) == s
    decreases |s|
  {
    if c in s {
      var i := IndexOf(s, c);
      JoinSplitOn(s[i + 1..], c);
      assert s == s[..i] + [c] + s[i + 1..];
    }
  }

  /** Pieces free of `c` are recovered exactly by splitting their join. */
  lemma {:induction false} SplitOnJoin(parts: seq<string>, c: char)
    requires |parts| >= 1
    requires forall i :: 0 <= i < |parts| ==> c !in parts[i]
    ensures SplitOn(Join(parts, c), c) == parts
    decreases |parts|
  {
    if |parts| > 1 {
      var head, tail := parts[0], Join(parts[1..], c);
      var s := head + [c] + tail;
      assert s[|head|] == c;
      var i := IndexOf(s, c);
      assert s[..i] == head;
      assert s[i + 1..] == tail;
      SplitOnJoin(parts[1..], c);
    }
  }

  /**
    `parts` without its trailing empty strings: a prefix of `parts` that is
    empty or ends in a non-empty piece, and everything cut off is empty.
   */
  function StripTrailingEmpty(parts: seq<string>): (r: seq<string>)
    ensures |r| <= |parts| && r == parts[..|r|]
    ensures r == [] || r[|r| - 1] != ""
    ensures forall i :: |r| <= i < |parts| ==> parts[i] == ""
  {
    if |parts| > 0 && parts[|parts| - 1] == "" then StripTrailingEmpty(parts[..|parts| - 1])
    else parts
  }

  /** Those three facts determine the result: it is the longest prefix ending in a non-empty piece. */
  lemma StripTrailingEmptyUnique(parts: seq<string>, n: nat)
    requires n <= |parts|
    requires n == 0 || parts[n - 1] != ""
    requires forall i :: n <= i < |parts| ==> parts[i] == ""
    ensures StripTrailingEmpty(parts) == parts[..n]
  {
  }

  /**
    `s.split(String.valueOf(c))` with the default limit 0: when `c` does not
    occur the result is `[s]` as it is (even for the empty string);
    otherwise the pieces between occurrences, trailing empty pieces removed.
   */
  function Split(s: string, c: char): (r: seq<string>)
    ensures forall i :: 0 <= i < |r| ==> c !in r[i]
    ensures c !in s ==> r == [s]
  {
    if c !in s then [s] else StripTrailingEmpty(SplitOn(s, c))
  }

  /** Joining a piece with `k` empty pieces after it appends `k` separators. */
  lemma {:induction false} JoinTrailingEmpty(p: string, k: nat, c: char)
    ensures Join([p] + Repeat("", k), c) == p + Repeat(c, k)
    decreases k
  {
    if k > 0 {
      var parts := [p] + Repeat("", k);
      assert parts[1..] == [""] + Repeat("", k - 1);
      JoinTrailingEmpty("", k - 1, c);
      assert Repeat(c, k) == [c] + Repeat(c, k - 1);
    }
  }

  /** A string of the shape `a c b c...c`, `b` non-empty, splits into exactly `[a, b]`. */
  lemma SplitIntoTwo(a: string, b: string, k: nat, c: char)
    requires c !in a && c !in b && b != ""
    ensures Split(a + [c] + b + Repeat(c, k), c) == [a, b]
  {
    var s := a + [c] + b + Repeat(c, k);
    var parts := [a, b] + Repeat("", k);
    assert parts[1..] == [b] + Repeat("", k);
    JoinTrailingEmpty(b, k, c);
    assert Join(parts, c) == s;
    SplitOnJoin(parts, c);
    assert s[|a|] == c;
    StripTrailingEmptyUnique(parts, 2);
  }

  /** Conversely, a two-piece split is of that shape: no other string splits into two. */
  lemma TwoPiecesShape(s: string, c: char) returns (k: nat)
    requires |Split(s, c)| == 2
    ensures c !in Split(s, c)[0] && c !in Split(s, c)[1] && Split(s, c)[1] != ""
    ensures s == Split(s, c)[0] + [c] + Split(s, c)[1] + Repeat(c, k)
  {
    var r := Split(s, c);
    assert c in s;
    var parts := SplitOn(s, c);
    k := |parts| - 2;
    assert parts == [r[0]] + ([r[1]] + Repeat("", k));
    JoinSplitOn(s, c);
    JoinTrailingEmpty(r[1], k, c);
  }
}
