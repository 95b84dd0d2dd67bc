/** `indexOf`, `split` and `join` for a one-character separator, as the shell's completion uses them. */
module Split {

  /** The index of the first occurrence of `c` in `s`, or `|s|`. */
  function IndexOf(s: string, c: char): (i: nat)
    ensures i <= |s| && forall j :: 0 <= j < i ==> s[j] != c
    ensures i < |s| ==> s[i] == c
  {
    IndexFrom(s, c, 0)
  }

  /** The index of the first occurrence of `c` in `s` at or after `k`, or `|s|`. */
  function IndexFrom(s: string, c: char, k: nat): (i: nat)
    requires k <= |s|
    ensures k <= i <= |s| && forall j :: k <= j < i ==> s[j] != c
    ensures i < |s| ==> s[i] == c
    decreases |s| - k
  {
    if k == |s| || s[k] == c then k else IndexFrom(s, c, k + 1)
  }

  /** `c` occurs in `s` exactly when `IndexOf` stops before the end, and never before that index. */
  lemma IndexOfFinds(s: string, c: char)
    ensures c in s <==> IndexOf(s, c) < |s|
    ensures c !in s[..IndexOf(s, c)]
  {
    var i := IndexOf(s, c);
    if c in s {
      var j :| 0 <= j < |s| && s[j] == c;
      assert i <= j;
    }
    assert forall j :: 0 <= j < i ==> s[..i][j] == s[j];
  }

  /** `s.split(c)` for a one-character separator. */
  function SplitOn(s: string, c: char): (r: seq<string>)
    ensures |r| >= 1 && r[0] == s[..IndexOf(s, c)]
    ensures |r| > 1 <==> IndexOf(s, c) < |s|
    decreases |s|
  {
    var i := IndexOf(s, c);
    if i == |s| then
      assert s[..i] == s;
      [s]
    else
      [s[..i]] + SplitOn(s[i + 1..], c)
  }

  /** There is more than one part exactly when the separator occurs, and no part contains it. */
  lemma {:induction false} SplitOnParts(s: string, c: char)
    ensures |SplitOn(s, c)| > 1 <==> c in s
    ensures forall k :: 0 <= k < |SplitOn(s, c)| ==> c !in SplitOn(s, c)[k]
    decreases |s|
  {
    var i := IndexOf(s, c);
    IndexOfFinds(s, c);
    if i < |s| {
      SplitOnStep(s, c, i);
      SplitOnParts(s[i + 1..], c);
      var rest := SplitOn(s[i + 1..], c);
      assert forall k :: 1 <= k < |SplitOn(s, c)| ==> SplitOn(s, c)[k] == rest[k - 1];
    }
  }

  /** `parts.join(sep)` */
  function Join(parts: seq<string>, sep: string): string
  {
    if |parts| == 0 then ""
    else if |parts| == 1 then parts[0]
    else parts[0] + sep + Join(parts[1..], sep)
  }

  /** Joining the pieces of a split with the separator gives back the string. */
  lemma {:induction false} JoinSplitOn(s: string, c: char)
    ensures Join(SplitOn(s, c), [c]) == s
    decreases |s|
  {
    var i := IndexOf(s, c);
    if i < |s| {
      var rest := SplitOn(s[i + 1..], c);
      calc {
        Join(SplitOn(s, c), [c]);
      == { SplitOnStep(s, c, i); }
        Join([s[..i]] + rest, [c]);
      == { JoinCons(s[..i], rest, [c]); }
        s[..i] + [c] + Join(rest, [c]);
      == { JoinSplitOn(s[i + 1..], c); }
        s[..i] + [c] + s[i + 1..];
      == { assert s[i] == c; }
        s;
      }
    } else {
      assert s[..i] == s;
    }
  }

  lemma SplitOnStep(s: string, c: char, i: nat)
    requires i == IndexOf(s, c) && i < |s|
    ensures SplitOn(s, c) == [s[..i]] + SplitOn(s[i + 1..], c)
  {
  }

  lemma JoinCons(p: string, rest: seq<string>, sep: string)
    requires |rest| >= 1
    ensures Join([p] + rest, sep) == p + sep + Join(rest, sep)
  {
    assert ([p] + rest)[1..] == rest;
  }

  /** What `split(c)`/`slice(1)`/`join(c)` leaves: the text after the first `c`. */
  lemma AfterFirst(s: string, c: char)
    requires c in s
    ensures Join(SplitOn(s, c)[1..], [c]) == s[IndexOf(s, c) + 1..]
  {
    var i := IndexOf(s, c);
    var rest := SplitOn(s[i + 1..], c);
    SplitOnStep(s, c, i);
    assert ([s[..i]] + rest)[1..] == rest;
    JoinSplitOn(s[i + 1..], c);
  }
}
