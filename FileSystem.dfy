/**
 * The virtual directory tree of the shell: the node types, resolution of a
 * cursor path, the insertion that `addFile` performs, and the seed tree the
 * session starts from.
 *
 * A directory's `children` object is an association list in the order in
 * which JavaScript enumerates its keys: assigning to an existing key keeps
 * its place, a new key goes last.
 */
module FileSystem {
  import opened Wrappers

  datatype Node =
    | File(name: string, content: string, readOnly: bool)
    | Dir(name: string, children: seq<Entry>)

  datatype Entry = Entry(key: string, node: Node)

  predicate HasKey(cs: seq<Entry>, k: string) {
    exists i :: 0 <= i < |cs| && cs[i].key == k
  }

  predicate UniqueKeys(cs: seq<Entry>) {
    forall i, j :: 0 <= i < j < |cs| ==> cs[i].key != cs[j].key
  }

  /**
   * Every directory has unique keys, and every node's `name` is the key it
   * is stored under (the seed is written that way and `addFile` keeps it).
   */
  predicate WellFormed(n: Node) {
    match n
    case File(_, _, _) => true
    case Dir(_, cs) =>
      UniqueKeys(cs) &&
      forall i :: 0 <= i < |cs| ==> cs[i].node.name == cs[i].key && WellFormed(cs[i].node)
  }

  /** `children[k]`, for a key that is present as an own property. */
  function Lookup(cs: seq<Entry>, k: string): (r: Option<Node>)
    ensures r.Some? <==> HasKey(cs, k)
    ensures r.Some? ==> exists i :: 0 <= i < |cs| && cs[i] == Entry(k, r.value)
    ensures UniqueKeys(cs) ==> forall i :: 0 <= i < |cs| && cs[i].key == k ==> r == Some(cs[i].node)
  {
    if cs == [] then None
    else if cs[0].key == k then Some(cs[0].node)
    else
      var r := Lookup(cs[1..], k);
      assert HasKey(cs, k) ==> HasKey(cs[1..], k) by {
        if HasKey(cs, k) {
          var i :| 0 <= i < |cs| && cs[i].key == k;
          assert cs[1..][i - 1].key == k;
        }
      }
      r
  }

  /**
   * `children[k] = n`: an existing entry for `k` is replaced where it stands,
   * otherwise the entry is appended; no other key or value changes.
   */
  function Put(cs: seq<Entry>, k: string, n: Node): (r: seq<Entry>)
    ensures Lookup(r, k) == Some(n)
    ensures forall k' :: k' != k ==> Lookup(r, k') == Lookup(cs, k')
    ensures |r| == if HasKey(cs, k) then |cs| else |cs| + 1
    ensures forall i :: 0 <= i < |cs| ==> r[i].key == cs[i].key
    ensures !HasKey(cs, k) ==> r[|cs|] == Entry(k, n)
    ensures forall i :: 0 <= i < |r| ==> r[i] == Entry(k, n) || r[i] in cs
    ensures UniqueKeys(cs) ==> UniqueKeys(r)
  {
    if HasKey(cs, k) then
      ReplaceFacts(cs, k, n);
      Replace(cs, k, n)
    else
      AppendFacts(cs, k, n);
      cs + [Entry(k, n)]
  }

  /** Every entry with key `k` replaced by `Entry(k, n)`. */
  function Replace(cs: seq<Entry>, k: string, n: Node): seq<Entry> {
    seq(|cs|, i requires 0 <= i < |cs| => if cs[i].key == k then Entry(k, n) else cs[i])
  }

  lemma ReplaceFacts(cs: seq<Entry>, k: string, n: Node)
    requires HasKey(cs, k)
    ensures var r := Replace(cs, k, n);
      && Lookup(r, k) == Some(n)
      && (forall k' :: k' != k ==> Lookup(r, k') == Lookup(cs, k'))
      && (UniqueKeys(cs) ==> UniqueKeys(r))
  {
    var r := Replace(cs, k, n);
    forall k' | k' != k ensures Lookup(r, k') == Lookup(cs, k') {
      LookupAgree(r, cs, k');
    }
    var j :| 0 <= j < |cs| && cs[j].key == k;
    assert r[j].key == k;
    if UniqueKeys(cs) {
      forall i, i' | 0 <= i < i' < |r| ensures r[i].key != r[i'].key {
        assert r[i].key == cs[i].key && r[i'].key == cs[i'].key;
      }
    }
  }

  lemma AppendFacts(cs: seq<Entry>, k: string, n: Node)
    requires !HasKey(cs, k)
    ensures var r := cs + [Entry(k, n)];
      && Lookup(r, k) == Some(n)
      && (forall k' :: k' != k ==> Lookup(r, k') == Lookup(cs, k'))
      && (UniqueKeys(cs) ==> UniqueKeys(r))
  {
    var r := cs + [Entry(k, n)];
    forall k' | k' != k ensures Lookup(r, k') == Lookup(cs, k') {
      LookupAppend(cs, Entry(k, n), k');
    }
    LookupAppend(cs, Entry(k, n), k);
    if UniqueKeys(cs) {
      forall i, i' | 0 <= i < i' < |r| ensures r[i].key != r[i'].key {
        if i' == |cs| { assert r[i] == cs[i]; }
      }
    }
  }

  /** Two lists with the same keys in the same places agree on every key whose entries agree. */
  lemma {:induction false} LookupAgree(a: seq<Entry>, b: seq<Entry>, k: string)
    requires |a| == |b| && forall i :: 0 <= i < |a| ==> a[i].key == b[i].key
    requires forall i :: 0 <= i < |a| && a[i].key == k ==> a[i] == b[i]
    ensures Lookup(a, k) == Lookup(b, k)
  {
    if a != [] && a[0].key != k {
      LookupAgree(a[1..], b[1..], k);
    }
  }

  lemma {:induction false} LookupAppend(cs: seq<Entry>, e: Entry, k: string)
    ensures Lookup(cs + [e], k) ==
      if HasKey(cs, k) then Lookup(cs, k) else if e.key == k then Some(e.node) else None
  {
    if cs == [] {
      assert cs + [e] == [e];
    } else {
      assert (cs + [e])[1..] == cs[1..] + [e];
      LookupAppend(cs[1..], e, k);
    }
  }

  /** `path.slice(1)`: the cursor without its leading `root` segment. */
  function Tail(path: seq<string>): seq<string> {
    if |path| == 0 then [] else path[1..]
  }

  /** The walk of `getCurrentNode`: follow each segment through `children`. */
  function Walk(n: Node, segs: seq<string>): Option<Node>
    decreases |segs|
  {
    if segs == [] then Some(n)
    else
      match n
      case File(_, _, _) => None
      case Dir(_, cs) =>
        match Lookup(cs, segs[0])
        case None => None
        case Some(c) => Walk(c, segs[1..])
  }

  /** `getCurrentNode(path)`: the first segment (the root's name) is skipped. */
  function Resolve(root: Node, path: seq<string>): Option<Node> {
    Walk(root, Tail(path))
  }

  /** One more step of a walk: the child `s` of a directory, if any. */
  function Child(o: Option<Node>, s: string): Option<Node> {
    match o
    case Some(Dir(_, cs)) => Lookup(cs, s)
    case _ => None
  }

  predicate IsDir(o: Option<Node>) {
    o.Some? && o.value.Dir?
  }

  /** The cursor invariant: the path starts at `root` and ends at a directory. */
  predicate PathOk(root: Node, path: seq<string>) {
    |path| >= 1 && path[0] == "root" && IsDir(Resolve(root, path))
  }

  lemma {:induction false} WalkAppend(n: Node, a: seq<string>, s: string)
    ensures Walk(n, a + [s]) == Child(Walk(n, a), s)
    decreases |a|
  {
    if a == [] {
      assert [s][1..] == [];
    } else {
      assert (a + [s])[0] == a[0];
      assert (a + [s])[1..] == a[1..] + [s];
      match n
      case File(_, _, _) =>
      case Dir(_, cs) =>
        match Lookup(cs, a[0])
        case None =>
        case Some(c) => WalkAppend(c, a[1..], s);
    }
  }

  /** Every non-empty prefix of a valid cursor resolves to a directory. */
  lemma {:induction false} PrefixesResolve(root: Node, path: seq<string>)
    requires PathOk(root, path)
    ensures forall k :: 1 <= k <= |path| ==> IsDir(Resolve(root, path[..k]))
    decreases |path|
  {
    assert path[..|path|] == path;
    if |path| > 1 {
      var p := path[..|path| - 1];
      assert Tail(path) == Tail(p) + [path[|path| - 1]];
      WalkAppend(root, Tail(p), path[|path| - 1]);
      assert PathOk(root, p);
      PrefixesResolve(root, p);
      forall k | 1 <= k < |path| ensures IsDir(Resolve(root, path[..k])) {
        assert p[..k] == path[..k];
      }
    }
  }

  /** A valid cursor extended by a directory child is again a valid cursor. */
  lemma PathOkExtend(root: Node, path: seq<string>, s: string)
    requires PathOk(root, path) && IsDir(Child(Resolve(root, path), s))
    ensures PathOk(root, path + [s])
  {
    assert Tail(path + [s]) == Tail(path) + [s];
    WalkAppend(root, Tail(path), s);
  }

  /** A valid cursor with its last segment dropped is again a valid cursor. */
  lemma PathOkPop(root: Node, path: seq<string>)
    requires PathOk(root, path) && |path| > 1
    ensures PathOk(root, path[..|path| - 1])
  {
    PrefixesResolve(root, path);
  }

  /**
   * The segments `addFile`'s loop actually descends: a segment whose child
   * is missing, or that is met below a file, is skipped and the walk goes on
   * from the same node.
   */
  function EffectivePath(n: Node, segs: seq<string>): seq<string>
    decreases |segs|
  {
    if segs == [] then []
    else
      match n
      case File(_, _, _) => []
      case Dir(_, cs) =>
        match Lookup(cs, segs[0])
        case Some(c) => [segs[0]] + EffectivePath(c, segs[1..])
        case None => EffectivePath(n, segs[1..])
  }

  /** A path that resolves is descended in full. */
  lemma {:induction false} EffectiveOfResolved(n: Node, segs: seq<string>)
    requires Walk(n, segs).Some?
    ensures EffectivePath(n, segs) == segs
    decreases |segs|
  {
    if segs != [] {
      var c := Lookup(n.children, segs[0]).value;
      EffectiveOfResolved(c, segs[1..]);
    }
  }

  /**
   * The tree after the directory reached by `p` gets `children[k] = f`; the
   * directories on the way are rebuilt around the changed child.
   */
  function PutAt(n: Node, p: seq<string>, k: string, f: Node): Node
    decreases |p|
  {
    match n
    case File(_, _, _) => n
    case Dir(nm, cs) =>
      if p == [] then Dir(nm, Put(cs, k, f))
      else
        match Lookup(cs, p[0])
        case None => n
        case Some(c) => Dir(nm, Put(cs, p[0], PutAt(c, p[1..], k, f)))
  }

  /** `addFile(name, content)` with the cursor `path`, on a deep copy of `root`. */
  function InsertFile(root: Node, path: seq<string>, name: string, content: string): Node {
    PutAt(root, EffectivePath(root, Tail(path)), name, File(name, content, false))
  }

  predicate IsPrefix(a: seq<string>, b: seq<string>) {
    |a| <= |b| && b[..|a|] == a
  }

  /** Two paths with the same first segment are prefix-related exactly when their tails are. */
  lemma PrefixCons(a: seq<string>, b: seq<string>)
    requires a != [] && b != [] && a[0] == b[0]
    ensures IsPrefix(a, b) <==> IsPrefix(a[1..], b[1..])
  {
    if IsPrefix(a[1..], b[1..]) {
      assert b[..|a|] == [b[0]] + b[1..][..|a| - 1];
      assert a == [a[0]] + a[1..];
    }
  }

  /** After the insertion the target directory holds `f` under `k`. */
  lemma {:induction false} PutAtTarget(n: Node, p: seq<string>, k: string, f: Node)
    requires IsDir(Walk(n, p))
    ensures var d := Walk(n, p).value;
            Walk(PutAt(n, p, k, f), p) == Some(Dir(d.name, Put(d.children, k, f)))
    decreases |p|
  {
    if p != [] {
      var c := Lookup(n.children, p[0]).value;
      PutAtTarget(c, p[1..], k, f);
    }
  }

  /**
   * Copy-on-write isolation: every path that neither leads to the target
   * directory nor passes through the new entry resolves exactly as before.
   */
  lemma {:induction false} PutAtFrame(n: Node, p: seq<string>, k: string, f: Node, q: seq<string>)
    requires IsDir(Walk(n, p))
    requires !IsPrefix(q, p) && !IsPrefix(p + [k], q)
    ensures Walk(PutAt(n, p, k, f), q) == Walk(n, q)
    decreases |p|
  {
    var cs := n.children;
    assert q != [];
    if p == [] {
      assert q[..1] == [q[0]];
      assert q[0] != k;
    } else {
      var c := Lookup(cs, p[0]).value;
      if q[0] == p[0] {
        PrefixCons(q, p);
        PrefixCons(p + [k], q);
        assert (p + [k])[1..] == p[1..] + [k];
        PutAtFrame(c, p[1..], k, f, q[1..]);
      }
    }
  }

  /** The insertion keeps the tree well formed when the new node is named by its key. */
  lemma {:induction false} PutAtWellFormed(n: Node, p: seq<string>, k: string, f: Node)
    requires WellFormed(n) && WellFormed(f) && f.name == k
    ensures WellFormed(PutAt(n, p, k, f))
    ensures PutAt(n, p, k, f).name == n.name && PutAt(n, p, k, f).Dir? == n.Dir?
    decreases |p|
  {
    match n
    case File(_, _, _) =>
    case Dir(nm, cs) =>
      if p == [] {
        var r := Put(cs, k, f);
        forall i | 0 <= i < |r| ensures r[i].node.name == r[i].key && WellFormed(r[i].node) {
          if r[i] != Entry(k, f) {
            var j :| 0 <= j < |cs| && cs[j] == r[i];
          }
        }
      } else {
        match Lookup(cs, p[0])
        case None =>
        case Some(c) =>
          var j :| 0 <= j < |cs| && cs[j] == Entry(p[0], c);
          PutAtWellFormed(c, p[1..], k, f);
          var c' := PutAt(c, p[1..], k, f);
          var r := Put(cs, p[0], c');
          forall i | 0 <= i < |r| ensures r[i].node.name == r[i].key && WellFormed(r[i].node) {
            if r[i] != Entry(p[0], c') {
              var j :| 0 <= j < |cs| && cs[j] == r[i];
            }
          }
      }
  }

  /** `addFile` at a valid cursor sets the current directory's entry `name` and keeps the invariants. */
  lemma InsertFileAtCursor(root: Node, path: seq<string>, name: string, content: string)
    requires WellFormed(root) && PathOk(root, path)
    ensures var d := Resolve(root, path).value;
            var root' := InsertFile(root, path, name, content);
            Resolve(root', path) == Some(Dir(d.name, Put(d.children, name, File(name, content, false))))
            && WellFormed(root') && PathOk(root', path)
  {
    EffectiveOfResolved(root, Tail(path));
    PutAtTarget(root, Tail(path), name, File(name, content, false));
    PutAtWellFormed(root, Tail(path), name, File(name, content, false));
  }

  /** Setting the same entry twice is setting it once. */
  lemma PutIdempotent(cs: seq<Entry>, k: string, n: Node)
    ensures Put(Put(cs, k, n), k, n) == Put(cs, k, n)
  {
    var r := Put(cs, k, n);
    assert HasKey(r, k);
    if HasKey(cs, k) {
      assert Replace(r, k, n) == r;
    } else {
      assert forall i :: 0 <= i < |cs| ==> cs[i].key != k;
      assert Replace(r, k, n) == r;
    }
  }

  /** Inserting the same node twice along a resolved path is inserting it once. */
  lemma {:induction false} PutAtIdempotent(n: Node, p: seq<string>, k: string, f: Node)
    requires IsDir(Walk(n, p))
    ensures PutAt(PutAt(n, p, k, f), p, k, f) == PutAt(n, p, k, f)
    decreases |p|
  {
    match n
    case Dir(nm, cs) =>
      if p == [] {
        PutIdempotent(cs, k, f);
      } else {
        var c := Lookup(cs, p[0]).value;
        var c' := PutAt(c, p[1..], k, f);
        PutAtIdempotent(c, p[1..], k, f);
        PutIdempotent(cs, p[0], c');
      }
  }

  /** `addFile` twice with the same name and content leaves the tree as once. */
  lemma InsertFileIdempotent(root: Node, path: seq<string>, name: string, content: string)
    requires WellFormed(root) && PathOk(root, path)
    ensures var once := InsertFile(root, path, name, content);
            InsertFile(once, path, name, content) == once
  {
    var f := File(name, content, false);
    InsertFileAtCursor(root, path, name, content);
    var once := InsertFile(root, path, name, content);
    EffectiveOfResolved(root, Tail(path));
    EffectiveOfResolved(once, Tail(path));
    PutAtIdempotent(root, Tail(path), name, f);
  }

  function FileEntry(name: string, content: string): Entry {
    Entry(name, File(name, content, false))
  }

  /**
   * The tree every session starts from (data.ts). File contents are
   * abbreviated to their first line.
   */
  function Seed(): Node {
    Dir("root", [
      FileEntry("readme.txt", "IMCU 终端使用手册 v4.3"),
      Entry("documents", SeedDocuments()),
      Entry("theories", SeedTheories()),
      Entry("anomalies", SeedAnomalies())
    ])
  }

  function SeedDocuments(): Node {
    Dir("documents", [
      FileEntry("omega_protocol.txt", "IMCU核心机密档案：奥米伽协议 - “归途”")
    ])
  }

  function SeedTheories(): Node {
    Dir("theories", [
      FileEntry("origins.txt", "异常（anomaly）是指自世界第二次工业革命起便日益增加的超自然、超科学特殊事物。"),
      FileEntry("mysterial.txt", "•  Mysterial 神秘质"),
      FileEntry("creatimatter.txt", "•  Creatimatter 创造质")
    ])
  }

  function SeedAnomalies(): Node {
    Dir("anomalies", [
      FileEntry("IMCU-867.txt", "•  编号名称：IMCU-867 山川之肉、太岁"),
      FileEntry("IMCU-004.txt", "•  编号名称：IMCU-004 血肉活化异变剂"),
      FileEntry("WAMA-009.txt", "•  编号名称：WAMA-009 疫鼠"),
      FileEntry("IMCU-086.txt", "•  编号名称：IMCU-086 游戏附魔台"),
      FileEntry("IMCU-198.txt", "•  编号名称：IMCU-198 大发明家手套"),
      FileEntry("IMCU-987.txt", "•  编号名称：IMCU-987 伊甸园的生态箱")
    ])
  }

  /** A directory of files, each stored under its own name, with distinct names. */
  lemma FilesWellFormed(n: Node)
    requires n.Dir? && UniqueKeys(n.children)
    requires forall i :: 0 <= i < |n.children| ==>
               n.children[i].node.File? && n.children[i].node.name == n.children[i].key
    ensures WellFormed(n)
  {
  }

  /** The seed tree is well formed. */
  lemma SeedWellFormed()
    ensures WellFormed(Seed())
  {
    FilesWellFormed(SeedDocuments());
    TheoriesWellFormed();
    AnomaliesWellFormed();
    assert UniqueKeys(Seed().children);
  }

  lemma TheoriesWellFormed()
    ensures WellFormed(SeedTheories())
  {
    FilesWellFormed(SeedTheories());
  }

  lemma AnomaliesWellFormed()
    ensures WellFormed(SeedAnomalies())
  {
    var cs := SeedAnomalies().children;
    var ids := ["867", "004", "009", "086", "198", "987"];
    assert forall i :: 0 <= i < |cs| ==> cs[i].key[5..8] == ids[i];
    FilesWellFormed(SeedAnomalies());
  }
}
