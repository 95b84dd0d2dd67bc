/**
 * The JavaScript string primitives the shell relies on: `trim`, `split(/\s+/)`,
 * `startsWith` and `toLowerCase` (for Latin and Greek letters).
 */
module Text {

  /**
   * The characters ECMAScript classes as white space or line terminators:
   * exactly what `String.prototype.trim` strips and what the regular
   * expression class `\s` matches. These are tab, line feed, vertical tab,
   * form feed and carriage return (U+0009 to U+000D), space, no-break space,
   * the Ogham space mark, the spaces U+2000 to U+200A, the line and
   * paragraph separators, the narrow no-break space, the medium mathematical
   * space, the ideographic space and the byte order mark.
   */
  predicate IsSpace(c: char) {
    ('\t' <= c <= '\r') || c == ' ' || c == '\U{00A0}' || c == '\U{1680}' ||
    ('\U{2000}' <= c <= '\U{200A}') || c == '\U{2028}' || c == '\U{2029}' ||
    c == '\U{202F}' || c == '\U{205F}' || c == '\U{3000}' || c == '\U{FEFF}'
  }

  predicate AllSpace(s: string) {
    forall i :: 0 <= i < |s| ==> IsSpace(s[i])
  }

  predicate NoSpace(s: string) {
    forall i :: 0 <= i < |s| ==> !IsSpace(s[i])
  }

  /** `s.startsWith(p)` */
  predicate StartsWith(s: string, p: string) {
    |p| <= |s| && s[..|p|] == p
  }

  /** The number of white-space characters at the start of `s`. */
  function Lead(s: string): (k: nat)
    ensures k <= |s| && AllSpace(s[..k])
    ensures k < |s| ==> !IsSpace(s[k])
  {
    LeadFrom(s, 0)
  }

  /** The end of the white-space run of `s` that starts at `k`. */
  function LeadFrom(s: string, k: nat): (i: nat)
    requires k <= |s|
    ensures k <= i <= |s| && forall j :: k <= j < i ==> IsSpace(s[j])
    ensures i < |s| ==> !IsSpace(s[i])
    decreases |s| - k
  {
    if k == |s| || !IsSpace(s[k]) then k else LeadFrom(s, k + 1)
  }

  /** The number of white-space characters at the end of `s`. */
  function Trail(s: string): (k: nat)
    ensures k <= |s| && AllSpace(s[|s| - k..])
    ensures k < |s| ==> !IsSpace(s[|s| - k - 1])
  {
    var i := TrailFrom(s, |s|);
    assert forall j :: 0 <= j < |s| - i ==> s[i..][j] == s[i + j];
    |s| - i
  }

  /** The start of the white-space run of `s` that ends just before `k`. */
  function TrailFrom(s: string, k: nat): (i: nat)
    requires k <= |s|
    ensures i <= k && forall j :: i <= j < k ==> IsSpace(s[j])
    ensures i > 0 ==> !IsSpace(s[i - 1])
    decreases k
  {
    if k == 0 || !IsSpace(s[k - 1]) then k else TrailFrom(s, k - 1)
  }

  /** `s.trim()`: `s` without its leading and trailing white space. */
  function Trim(s: string): (r: string)
    ensures r == [] <==> AllSpace(s)
    ensures r != [] ==> !IsSpace(r[0]) && !IsSpace(r[|r| - 1])
  {
    var a := Lead(s);
    var rest := s[a..];
    var b := Trail(rest);
    var r := rest[..|rest| - b];
    TrimParts(s, a, rest, b, r);
    r
  }

  /** The line is its leading white space, then the trimmed text, then its trailing white space. */
  lemma TrimShape(s: string)
    ensures Lead(s) + |Trim(s)| <= |s| && Trim(s) == s[Lead(s)..Lead(s) + |Trim(s)|]
    ensures AllSpace(s[..Lead(s)]) && AllSpace(s[Lead(s) + |Trim(s)|..])
  {
    var a := Lead(s);
    var rest := s[a..];
    var b := Trail(rest);
    TrimParts(s, a, rest, b, rest[..|rest| - b]);
  }

  /**
   * The facts `Trim` promises, for its parts: a leading white-space run of
   * length `a` ending before a non-space, and a trailing run of length `b`
   * of the rest starting after a non-space.
   */
  lemma TrimParts(s: string, a: nat, rest: string, b: nat, r: string)
    requires a <= |s| && AllSpace(s[..a]) && (a < |s| ==> !IsSpace(s[a])) && rest == s[a..]
    requires b <= |rest| && AllSpace(rest[|rest| - b..]) && (b < |rest| ==> !IsSpace(rest[|rest| - b - 1]))
    requires r == rest[..|rest| - b]
    ensures r == [] <==> AllSpace(s)
    ensures r != [] ==> !IsSpace(r[0]) && !IsSpace(r[|r| - 1])
    ensures a + |r| <= |s| && r == s[a..a + |r|]
    ensures AllSpace(s[a + |r|..])
  {
    assert s[a + |r|..] == rest[|rest| - b..];
    if r == [] {
      assert s == s[..a] + rest[|rest| - b..];
      AllSpaceAppend(s[..a], rest[|rest| - b..]);
    } else {
      assert r[0] == s[a];
      assert r[|r| - 1] == rest[|rest| - b - 1];
    }
  }

  lemma AllSpaceAppend(x: string, y: string)
    requires AllSpace(x) && AllSpace(y)
    ensures AllSpace(x + y)
  {
    assert forall i :: 0 <= i < |x + y| ==> (x + y)[i] == if i < |x| then x[i] else y[i - |x|];
  }

  /** Trimming a string that already starts and ends with a non-space is the identity. */
  lemma TrimNoEdges(s: string)
    requires s != [] && !IsSpace(s[0]) && !IsSpace(s[|s| - 1])
    ensures Trim(s) == s
  {
    assert Lead(s) == 0;
    assert s[0..] == s;
    assert Trail(s) == 0;
  }

  /** The index of the first white-space character of `s`, or `|s|`. */
  function FirstSpace(s: string): (i: nat)
    ensures i <= |s| && NoSpace(s[..i])
    ensures i < |s| ==> IsSpace(s[i])
  {
    FirstSpaceFrom(s, 0)
  }

  /** The index of the first white-space character of `s` at or after `k`, or `|s|`. */
  function FirstSpaceFrom(s: string, k: nat): (i: nat)
    requires k <= |s|
    ensures k <= i <= |s| && forall j :: k <= j < i ==> !IsSpace(s[j])
    ensures i < |s| ==> IsSpace(s[i])
    decreases |s| - k
  {
    if k == |s| || IsSpace(s[k]) then k else FirstSpaceFrom(s, k + 1)
  }

  /**
   * `s.split(/\s+/)`: the pieces of `s` between maximal runs of white space.
   * A leading run gives an empty first piece and a trailing run an empty
   * last piece, as in JavaScript; no piece contains white space.
   */
  function SplitWs(s: string): (r: seq<string>)
    ensures |r| >= 1 && r[0] == s[..FirstSpace(s)]
    ensures forall k :: 0 <= k < |r| ==> NoSpace(r[k])
    ensures s != [] && !IsSpace(s[0]) && !IsSpace(s[|s| - 1]) ==> forall k :: 0 <= k < |r| ==> r[k] != []
    decreases |s|
  {
    var i := FirstSpace(s);
    if i == |s| then
      assert s[..i] == s;
      [s]
    else
      var j := i + Lead(s[i..]);
      assert Lead(s[i..]) >= 1;
      assert j < |s| ==> s[j..][0] == s[i..][j - i];
      LeadAll(s[i..]);
      assert s[i..][|s| - 1 - i] == s[|s| - 1];
      [s[..i]] + SplitWs(s[j..])
  }

  lemma LeadAll(x: string)
    ensures Lead(x) == |x| ==> AllSpace(x)
  {
    assert x[..|x|] == x;
  }

  /**
   * A word, a white-space run and a rest that does not start with white
   * space split into the word followed by the pieces of the rest. With
   * `SplitWsWord` this fixes `SplitWs` on every string, since every string
   * is a space-free word, optionally followed by such a run and rest.
   */
  lemma SplitWsStep(w: string, ws: string, rest: string)
    requires NoSpace(w) && ws != [] && AllSpace(ws) && (rest != [] ==> !IsSpace(rest[0]))
    ensures SplitWs(w + ws + rest) == [w] + SplitWs(rest)
  {
    var s := w + ws + rest;
    assert s[..|w|] == w;
    assert s[|w|] == ws[0];
    FirstSpaceIs(s, |w|);
    var t := s[|w|..];
    assert t == ws + rest;
    assert t[..|ws|] == ws;
    assert |ws| < |t| ==> t[|ws|] == rest[0];
    LeadIs(t, |ws|);
    assert s[|w| + |ws|..] == rest;
  }

  /** A string without white space is a single piece. */
  lemma SplitWsWord(w: string)
    requires NoSpace(w)
    ensures SplitWs(w) == [w]
  {
    assert w[..|w|] == w;
    FirstSpaceIs(w, |w|);
  }

  /** `Lead` is the one index with white space before it and a non-space (or the end) at it. */
  lemma LeadIs(s: string, k: nat)
    requires k <= |s| && AllSpace(s[..k]) && (k < |s| ==> !IsSpace(s[k]))
    ensures Lead(s) == k
  {
    assert forall j :: 0 <= j < k ==> s[j] == s[..k][j];
    LeadFromIs(s, 0, k);
  }

  lemma {:induction false} LeadFromIs(s: string, k: nat, i: nat)
    requires k <= i <= |s| && (forall j :: k <= j < i ==> IsSpace(s[j])) && (i < |s| ==> !IsSpace(s[i]))
    ensures LeadFrom(s, k) == i
    decreases i - k
  {
    if k < i {
      LeadFromIs(s, k + 1, i);
    }
  }

  /** Splitting `w + " " + v` for two non-empty words gives the two words. */
  lemma SplitTwoWords(w: string, v: string)
    requires w != [] && v != [] && NoSpace(w) && NoSpace(v)
    ensures SplitWs(w + " " + v) == [w, v]
  {
    var s := w + " " + v;
    assert NoSpace(s[..|w|]) by { assert s[..|w|] == w; }
    assert IsSpace(s[|w|]);
    FirstSpaceIs(s, |w|);
    assert s[|w|..][1] == v[0];
    assert Lead(s[|w|..]) == 1;
    var rest := s[|w| + 1..];
    assert rest == v;
    FirstSpaceIs(v, |v|);
    assert v[..|v|] == v;
    assert s[..|w|] == w;
  }

  /** `FirstSpace` is the one index with no white space before it and white space (or the end) at it. */
  lemma FirstSpaceIs(s: string, i: nat)
    requires i <= |s| && NoSpace(s[..i]) && (i < |s| ==> IsSpace(s[i]))
    ensures FirstSpace(s) == i
  {
    assert forall j :: 0 <= j < i ==> s[j] == s[..i][j];
    FirstSpaceFromIs(s, 0, i);
  }

  lemma {:induction false} FirstSpaceFromIs(s: string, k: nat, i: nat)
    requires k <= i <= |s| && (forall j :: k <= j < i ==> !IsSpace(s[j])) && (i < |s| ==> IsSpace(s[i]))
    ensures FirstSpaceFrom(s, k) == i
    decreases i - k
  {
    if k < i {
      FirstSpaceFromIs(s, k + 1, i);
    }
  }

  /**
   * `toLowerCase` for the basic Latin and Greek capitals (so `Ω` becomes `ω`);
   * every other character is left as it is.
   */
  function LowerChar(c: char): char {
    if 'A' <= c <= 'Z' then (c as int + 32) as char
    else if '\U{0391}' <= c <= '\U{03A9}' && c != '\U{03A2}' then (c as int + 32) as char
    else c
  }

  function Lower(s: string): string {
    seq(|s|, i requires 0 <= i < |s| => LowerChar(s[i]))
  }

  /** Case mapping never touches white space, so it keeps a string trimmed or blank. */
  lemma LowerKeepsSpaces(s: string)
    ensures |Lower(s)| == |s|
    ensures forall i :: 0 <= i < |s| ==> (IsSpace(Lower(s)[i]) <==> IsSpace(s[i]))
  {
  }

  lemma LowerAppend(a: string, b: string)
    ensures Lower(a + b) == Lower(a) + Lower(b)
  {
    assert forall i :: 0 <= i < |a + b| ==> Lower(a + b)[i] == (Lower(a) + Lower(b))[i];
  }
}
