/**
 * The flattened file list of the AI core's database view: every file of a
 * directory tree as a record of its name, its slash-separated path and its
 * content, in depth-first pre-order over the listing order of the keys.
 */
module Database {
  import opened Wrappers
  import opened Text
  import opened FileSystem

  datatype FileRecord = FileRecord(name: string, path: string, content: string)

  /** The records of the entries `cs` of a directory whose path is `path`. */
  function AllFiles(cs: seq<Entry>, path: string): seq<FileRecord>
    decreases cs
  {
    if cs == [] then []
    else
      var p := path + "/" + cs[0].key;
      var own := match cs[0].node
        case File(n, c, _) => [FileRecord(n, p, c)]
        case Dir(_, sub) => AllFiles(sub, p);
      own + AllFiles(cs[1..], path)
  }

  /** `getAllFiles(node, path)`: the records of the directory `node`. */
  method GetAllFiles(node: Node, path: string) returns (files: seq<FileRecord>)
    requires node.Dir?
    ensures files == AllFiles(node.children, path)
    decreases node
  {
    files := [];
    var cs := node.children;
    var i := 0;
    while i < |cs|
      invariant 0 <= i <= |cs|
      invariant files + AllFiles(cs[i..], path) == AllFiles(cs, path)
    {
      var key := cs[i].key;
      var child := cs[i].node;
      AllFilesUnfold(cs, i, path);
      var before := files;
      if child.File? {
        files := files + [FileRecord(child.name, path + "/" + key, child.content)];
      } else {
        var sub := GetAllFiles(child, path + "/" + key);
        files := files + sub;
      }
      Reassociate(before, files[|before|..], AllFiles(cs[i + 1..], path), AllFiles(cs[i..], path));
      i := i + 1;
    }
    assert cs[|cs|..] == [];
  }

  /** The records from entry `i` on are entry `i`'s own records, then the rest. */
  lemma AllFilesUnfold(cs: seq<Entry>, i: nat, path: string)
    requires i < |cs|
    ensures AllFiles(cs[i..], path) == AllFiles([cs[i]], path) + AllFiles(cs[i + 1..], path)
    ensures AllFiles([cs[i]], path) ==
              match cs[i].node
              case File(n, c, _) => [FileRecord(n, path + "/" + cs[i].key, c)]
              case Dir(_, sub) => AllFiles(sub, path + "/" + cs[i].key)
  {
    assert cs[i..][0] == cs[i];
    assert cs[i..][1..] == cs[i + 1..];
    assert [cs[i]][1..] == [];
  }

  lemma Reassociate<T>(a: seq<T>, own: seq<T>, rest: seq<T>, whole: seq<T>)
    requires whole == own + rest
    ensures (a + own) + rest == a + whole
  {
  }

  // ---------------------------------------------------------------------
  // Order and count

  /** Pre-order: the records of a concatenation are the records of each part, in order. */
  lemma {:induction false} AllFilesAppend(a: seq<Entry>, b: seq<Entry>, path: string)
    ensures AllFiles(a + b, path) == AllFiles(a, path) + AllFiles(b, path)
    decreases a
  {
    if a == [] {
      assert a + b == b;
    } else {
      assert (a + b)[0] == a[0];
      assert (a + b)[1..] == a[1..] + b;
      AllFilesAppend(a[1..], b, path);
    }
  }

  /** The number of file nodes below the entries `cs`. */
  function FileCount(cs: seq<Entry>): nat
    decreases cs
  {
    if cs == [] then 0
    else
      (match cs[0].node case File(_, _, _) => 1 case Dir(_, sub) => FileCount(sub)) + FileCount(cs[1..])
  }

  /** One record per file node, none for directories. */
  lemma {:induction false} AllFilesCount(cs: seq<Entry>, path: string)
    ensures |AllFiles(cs, path)| == FileCount(cs)
    decreases cs
  {
    if cs != [] {
      match cs[0].node {
        case File(_, _, _) =>
        case Dir(_, sub) => AllFilesCount(sub, path + "/" + cs[0].key);
      }
      AllFilesCount(cs[1..], path);
    }
  }

  // ---------------------------------------------------------------------
  // Paths

  /** Every path is the starting path followed by `/` and more. */
  lemma {:induction false} AllFilesUnder(cs: seq<Entry>, path: string)
    ensures forall r :: r in AllFiles(cs, path) ==> StartsWith(r.path, path + "/")
    decreases cs
  {
    if cs != [] {
      var p := path + "/" + cs[0].key;
      assert StartsWith(p, path + "/") by {
        assert p[..|path| + 1] == path + "/";
      }
      match cs[0].node {
        case File(_, _, _) =>
        case Dir(_, sub) =>
          AllFilesUnder(sub, p);
          forall r | r in AllFiles(sub, p) ensures StartsWith(r.path, path + "/") {
            assert r.path[..|path| + 1] == p[..|path| + 1];
          }
      }
      AllFilesUnder(cs[1..], path);
    }
  }

  /** From the empty starting path every path begins with `/`. */
  lemma PathsAreAbsolute(root: Node)
    requires root.Dir?
    ensures forall r :: r in AllFiles(root.children, "") ==> StartsWith(r.path, "/")
  {
    AllFilesUnder(root.children, "");
    assert "" + "/" == "/";
  }

  /** The `/key` segments of a walk. */
  function Slashed(segs: seq<string>): string
    decreases |segs|
  {
    if segs == [] then "" else "/" + segs[0] + Slashed(segs[1..])
  }

  /** `r` is the record of the file that the walk `segs` from `n` reaches. */
  predicate FileAt(n: Node, segs: seq<string>, path: string, r: FileRecord) {
    var w := Walk(n, segs);
    w.Some? && w.value.File? && r == FileRecord(w.value.name, path + Slashed(segs), w.value.content)
  }

  /** The records of one entry occur among the records of a list holding it. */
  lemma {:induction false} EntryListed(cs: seq<Entry>, i: nat, path: string)
    requires i < |cs|
    ensures forall r :: r in AllFiles([cs[i]], path) ==> r in AllFiles(cs, path)
  {
    assert cs == cs[..i] + cs[i..];
    AllFilesAppend(cs[..i], cs[i..], path);
    AllFilesUnfold(cs, i, path);
  }

  /** Coverage: every file reachable from the directory has its record, with the walk as its path. */
  lemma {:induction false} ReachableFilesListed(n: Node, segs: seq<string>, path: string, r: FileRecord)
    requires n.Dir? && FileAt(n, segs, path, r)
    ensures r in AllFiles(n.children, path)
    decreases n
  {
    var cs := n.children;
    var c := Lookup(cs, segs[0]).value;
    var i :| 0 <= i < |cs| && cs[i] == Entry(segs[0], c);
    WalkStep(n, segs[0], c, segs[1..], path);
    assert [segs[0]] + segs[1..] == segs;
    if c.Dir? {
      ReachableFilesListed(c, segs[1..], path + "/" + segs[0], r);
      EntryListed(cs, i, path);
      AllFilesUnfold(cs, i, path);
    } else {
      assert Slashed(segs[1..]) == "";
      FileListed(cs, i, path);
    }
  }

  /** The record of the file entry `i` is listed. */
  lemma FileListed(cs: seq<Entry>, i: nat, path: string)
    requires i < |cs| && cs[i].node.File?
    ensures FileRecord(cs[i].node.name, path + "/" + cs[i].key + "", cs[i].node.content) in AllFiles(cs, path)
  {
    EntryListed(cs, i, path);
    AllFilesUnfold(cs, i, path);
    assert path + "/" + cs[i].key + "" == path + "/" + cs[i].key;
  }

  /** A walk through the child `c` stored under `k`, and its path. */
  lemma WalkStep(n: Node, k: string, c: Node, segs: seq<string>, path: string)
    requires n.Dir? && Lookup(n.children, k) == Some(c)
    ensures Walk(n, [k] + segs) == Walk(c, segs)
    ensures path + Slashed([k] + segs) == path + "/" + k + Slashed(segs)
  {
    var all := [k] + segs;
    assert all[0] == k && all[1..] == segs;
  }

  /** A record of the list comes from one of its entries. */
  lemma {:induction false} ListedFromEntry(cs: seq<Entry>, path: string, r: FileRecord)
    requires r in AllFiles(cs, path)
    ensures exists i :: 0 <= i < |cs| && r in AllFiles([cs[i]], path)
    decreases cs
  {
    AllFilesUnfold(cs, 0, path);
    assert cs[0..] == cs;
    if r !in AllFiles([cs[0]], path) {
      ListedFromEntry(cs[1..], path, r);
      var j :| 0 <= j < |cs[1..]| && r in AllFiles([cs[1..][j]], path);
      assert cs[1..][j] == cs[j + 1];
    }
  }

  /** Soundness: in a well-formed tree every record is the record of a reachable file. */
  lemma {:induction false} ListedFilesReachable(n: Node, path: string, r: FileRecord)
    requires n.Dir? && WellFormed(n) && r in AllFiles(n.children, path)
    ensures exists segs :: FileAt(n, segs, path, r)
    decreases n
  {
    var cs := n.children;
    ListedFromEntry(cs, path, r);
    var i :| 0 <= i < |cs| && r in AllFiles([cs[i]], path);
    assert Lookup(cs, cs[i].key) == Some(cs[i].node);
    AllFilesUnfold(cs, i, path);
    if cs[i].node.File? {
      FileReached(n, cs[i].key, cs[i].node, path);
    } else {
      var p := path + "/" + cs[i].key;
      ListedFilesReachable(cs[i].node, p, r);
      var segs :| FileAt(cs[i].node, segs, p, r);
      DeeperReached(n, cs[i].key, cs[i].node, segs, path, r);
    }
  }

  /** A file stored under `k` is reached by the walk `[k]`. */
  lemma FileReached(n: Node, k: string, c: Node, path: string)
    requires n.Dir? && c.File? && Lookup(n.children, k) == Some(c)
    ensures FileAt(n, [k], path, FileRecord(c.name, path + "/" + k, c.content))
  {
    WalkStep(n, k, c, [], path);
    assert [k] + [] == [k];
  }

  /** A file reached from the child stored under `k` is reached from its parent. */
  lemma DeeperReached(n: Node, k: string, c: Node, segs: seq<string>, path: string, r: FileRecord)
    requires n.Dir? && Lookup(n.children, k) == Some(c) && FileAt(c, segs, path + "/" + k, r)
    ensures FileAt(n, [k] + segs, path, r)
  {
    WalkStep(n, k, c, segs, path);
  }

  // ---------------------------------------------------------------------
  // Distinct paths

  /** No key anywhere in the tree contains `/`. */
  predicate SlashFree(cs: seq<Entry>)
    decreases cs
  {
    forall i :: 0 <= i < |cs| ==>
      '/' !in cs[i].key && (cs[i].node.Dir? ==> SlashFree(cs[i].node.children))
  }

  predicate Distinct(rs: seq<FileRecord>) {
    forall i, j :: 0 <= i < j < |rs| ==> rs[i].path != rs[j].path
  }

  /** `s` is `p` or lies below `p`: it continues `p` with nothing or with `/`. */
  predicate Below(s: string, p: string) {
    StartsWith(s, p) && (|s| == |p| || s[|p|] == '/')
  }

  /** Every record of an entry lies below that entry's own path. */
  lemma EntryBelow(e: Entry, path: string)
    ensures forall r :: r in AllFiles([e], path) ==> Below(r.path, path + "/" + e.key)
  {
    var p := path + "/" + e.key;
    AllFilesUnfold([e], 0, path);
    assert [e][0..] == [e] && [e][1..] == [];
    match e.node
    case File(_, _, _) =>
    case Dir(_, sub) =>
      AllFilesUnder(sub, p);
      forall r | r in AllFiles(sub, p) ensures Below(r.path, p) {
        assert r.path[..|p| + 1] == p + "/";
        assert r.path[..|p|] == p;
      }
  }

  /** Paths below two different slash-free keys of one directory differ. */
  lemma BelowDistinct(pre: string, k1: string, k2: string, s1: string, s2: string)
    requires '/' !in k1 && '/' !in k2 && k1 != k2
    requires Below(s1, pre + k1) && Below(s2, pre + k2)
    ensures s1 != s2
  {
    if |k1| == |k2| {
      var m :| 0 <= m < |k1| && k1[m] != k2[m];
      Spell(pre, k1, s1, m);
      Spell(pre, k2, s2, m);
    } else if |k1| < |k2| {
      BelowShorter(pre, k1, k2, s1, s2);
    } else {
      BelowShorter(pre, k2, k1, s2, s1);
    }
  }

  /** Below a shorter key and a longer slash-free key the paths differ. */
  lemma BelowShorter(pre: string, k1: string, k2: string, s1: string, s2: string)
    requires '/' !in k2 && |k1| < |k2|
    requires Below(s1, pre + k1) && Below(s2, pre + k2)
    ensures s1 != s2
  {
    var n := |pre| + |k1|;
    if k1 == k2[..|k1|] {
      Spell(pre, k2, s2, |k1|);
      assert k2[|k1|] in k2;
      if |s1| > n {
        assert s1[n] == '/';
      }
    } else {
      var m :| 0 <= m < |k1| && k1[m] != k2[m];
      Spell(pre, k1, s1, m);
      Spell(pre, k2, s2, m);
    }
  }

  /** The character `m` of the key sits at position `|pre| + m` of a path below it. */
  lemma Spell(pre: string, k: string, s: string, m: nat)
    requires StartsWith(s, pre + k) && m < |k|
    ensures s[|pre| + m] == k[m]
  {
    assert s[..|pre + k|][|pre| + m] == (pre + k)[|pre| + m];
  }

  lemma DistinctConcat(a: seq<FileRecord>, b: seq<FileRecord>)
    requires Distinct(a) && Distinct(b)
    requires forall x, y :: x in a && y in b ==> x.path != y.path
    ensures Distinct(a + b)
  {
    var ab := a + b;
    forall i, j | 0 <= i < j < |ab| ensures ab[i].path != ab[j].path {
      if j < |a| {
        assert ab[i] == a[i] && ab[j] == a[j];
      } else if i >= |a| {
        assert ab[i] == b[i - |a|] && ab[j] == b[j - |a|];
      } else {
        assert ab[i] in a && ab[j] in b;
      }
    }
  }

  /**
   * In a tree with distinct keys in every directory and no `/` in any key,
   * distinct records have distinct paths.
   */
  lemma {:induction false} DistinctPaths(cs: seq<Entry>, path: string)
    requires WellFormed(Dir("", cs)) && SlashFree(cs)
    ensures Distinct(AllFiles(cs, path))
    decreases cs
  {
    if cs != [] {
      var e := cs[0];
      var own := AllFiles([e], path);
      var rest := AllFiles(cs[1..], path);
      AllFilesUnfold(cs, 0, path);
      assert cs[0..] == cs;
      match e.node {
        case File(_, _, _) =>
        case Dir(nm, sub) =>
          assert WellFormed(e.node);
          DistinctPaths(sub, path + "/" + e.key);
      }
      assert WellFormed(Dir("", cs[1..])) && SlashFree(cs[1..]) by {
        forall i | 0 <= i < |cs[1..]| ensures cs[1..][i] == cs[i + 1] { }
      }
      DistinctPaths(cs[1..], path);
      EntryBelow(e, path);
      forall x, y | x in own && y in rest ensures x.path != y.path {
        ListedFromEntry(cs[1..], path, y);
        var j :| 0 <= j < |cs[1..]| && y in AllFiles([cs[1..][j]], path);
        var f := cs[1..][j];
        assert f == cs[j + 1];
        EntryBelow(f, path);
        BelowDistinct(path + "/", e.key, f.key, x.path, y.path);
      }
      DistinctConcat(own, rest);
    }
  }

  /**
   * Without the slash condition paths can collide: a file `a/b` at the root
   * (`touch a/b` creates one) and the file `b` of the directory `a` both
   * get the path `/a/b`.
   */
  lemma PathCollision()
    ensures var cs := [Entry("a", Dir("a", [FileEntry("b", "x")])), FileEntry("a/b", "y")];
            var rs := AllFiles(cs, "");
            WellFormed(Dir("", cs)) && |rs| == 2 && rs[0].path == rs[1].path == "/a/b"
  {
    var inner := [FileEntry("b", "x")];
    var cs := [Entry("a", Dir("a", inner)), FileEntry("a/b", "y")];
    AllFilesUnfold(cs, 0, "");
    AllFilesUnfold(cs, 1, "");
    AllFilesUnfold(inner, 0, "/a");
    assert cs[2..] == [] && inner[1..] == [];
  }
}
