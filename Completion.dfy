/**
 * Tab completion of the shell: the suggestions and the greyed-out "ghost"
 * continuation recomputed whenever the input, the cursor or the tree
 * changes, what Tab/ArrowRight and a click on a suggestion do to the input.
 *
 * The input is split on single spaces: the first piece, lower-cased, is the
 * command; everything after the first space is the argument being typed.
 */
module Completion {
  import opened Wrappers
  import opened Text
  import opened Split
  import opened FileSystem

  /** The command names completion offers, in this order. */
  const Commands: seq<string> := [
    "help", "ls", "cd", "cat", "clear", "sys", "map", "scan",
    "ai", "cam", "pwd", "whoami", "import", "touch", "comms",
    "tree", "logout"
  ]

  predicate LowerWord(w: string) {
    forall i :: 0 <= i < |w| ==> 'a' <= w[i] <= 'z'
  }

  /** `xs.filter(x => x.startsWith(p))`: order kept, nothing else dropped. */
  function Filter(xs: seq<string>, p: string): (r: seq<string>)
    ensures forall x :: x in r <==> x in xs && StartsWith(x, p)
    ensures |r| <= |xs|
    ensures |r| > 0 ==> (exists i :: 0 <= i < |xs| && xs[i] == r[0] && StartsWith(xs[i], p) &&
                          forall j :: 0 <= j < i ==> !StartsWith(xs[j], p))
  {
    if xs == [] then []
    else
      var rest := Filter(xs[1..], p);
      if StartsWith(xs[0], p) then [xs[0]] + rest
      else
        assert |rest| > 0 ==> (exists i :: 0 <= i < |xs| && xs[i] == rest[0] && StartsWith(xs[i], p) &&
                                forall j :: 0 <= j < i ==> !StartsWith(xs[j], p)) by {
          if |rest| > 0 {
            var i :| 0 <= i < |xs[1..]| && xs[1..][i] == rest[0] && StartsWith(xs[1..][i], p) &&
                     forall j :: 0 <= j < i ==> !StartsWith(xs[1..][j], p);
            assert xs[i + 1] == rest[0];
            forall j | 0 <= j < i + 1 ensures !StartsWith(xs[j], p) {
              if j > 0 { assert xs[j] == xs[1..][j - 1]; }
            }
          }
        }
        rest
  }

  /** The keys of the sub-directories among `cs`, in order. */
  function DirNames(cs: seq<Entry>): (r: seq<string>)
    ensures forall x :: x in r <==> exists i :: 0 <= i < |cs| && cs[i].key == x && cs[i].node.Dir?
  {
    if cs == [] then []
    else
      var rest := DirNames(cs[1..]);
      assert forall i :: 1 <= i < |cs| ==> cs[1..][i - 1] == cs[i];
      if cs[0].node.Dir? then [cs[0].key] + rest else rest
  }

  /** The keys of the files among `cs`, in order. */
  function FileNames(cs: seq<Entry>): (r: seq<string>)
    ensures forall x :: x in r <==> exists i :: 0 <= i < |cs| && cs[i].key == x && cs[i].node.File?
  {
    if cs == [] then []
    else
      var rest := FileNames(cs[1..]);
      assert forall i :: 1 <= i < |cs| ==> cs[1..][i - 1] == cs[i];
      if cs[0].node.File? then [cs[0].key] + rest else rest
  }

  /** `parts[0].toLowerCase()` */
  function CommandPart(input: string): string {
    Lower(SplitOn(input, ' ')[0])
  }

  /** `parts.slice(1).join(' ')` */
  function ArgPart(input: string): string {
    Join(SplitOn(input, ' ')[1..], " ")
  }

  /** `parts.length > 1`: an argument is being typed. */
  predicate InArg(input: string) {
    |SplitOn(input, ' ')| > 1
  }

  /** What the user is currently completing: the argument, or else the command. */
  function Fragment(input: string): string {
    if InArg(input) then ArgPart(input) else CommandPart(input)
  }

  /** The argument is exactly the text after the first space. */
  lemma ArgIsAfterFirstSpace(input: string)
    requires ' ' in input
    ensures InArg(input) && ArgPart(input) == input[IndexOf(input, ' ') + 1..]
  {
    AfterFirst(input, ' ');
  }

  /** Filtering keeps the order of the list: it distributes over concatenation. */
  lemma {:induction false} FilterAppend(a: seq<string>, b: seq<string>, p: string)
    ensures Filter(a + b, p) == Filter(a, p) + Filter(b, p)
    decreases |a|
  {
    if a != [] {
      assert (a + b)[1..] == a[1..] + b;
      FilterAppend(a[1..], b, p);
    } else {
      assert a + b == b;
    }
  }

  /** A single name survives the filter exactly when it continues the prefix. */
  lemma FilterOne(x: string, p: string)
    ensures Filter([x], p) == if StartsWith(x, p) then [x] else []
  {
    assert [x][1..] == [];
  }

  /** The directory names keep the order of the entries: they distribute over concatenation. */
  lemma {:induction false} DirNamesAppend(a: seq<Entry>, b: seq<Entry>)
    ensures DirNames(a + b) == DirNames(a) + DirNames(b)
    decreases |a|
  {
    if a != [] {
      assert (a + b)[1..] == a[1..] + b;
      DirNamesAppend(a[1..], b);
    } else {
      assert a + b == b;
    }
  }

  lemma DirNamesOne(e: Entry)
    ensures DirNames([e]) == if e.node.Dir? then [e.key] else []
  {
    assert [e][1..] == [];
  }

  /** The file names keep the order of the entries: they distribute over concatenation. */
  lemma {:induction false} FileNamesAppend(a: seq<Entry>, b: seq<Entry>)
    ensures FileNames(a + b) == FileNames(a) + FileNames(b)
    decreases |a|
  {
    if a != [] {
      assert (a + b)[1..] == a[1..] + b;
      FileNamesAppend(a[1..], b);
    } else {
      assert a + b == b;
    }
  }

  lemma FileNamesOne(e: Entry)
    ensures FileNames([e]) == if e.node.File? then [e.key] else []
  {
    assert [e][1..] == [];
  }

  /** The suggestion list of the effect for this input, tree and cursor. */
  function Suggest(input: string, fs: Node, path: seq<string>): seq<string> {
    if input == "" then []
    else if !InArg(input) then Filter(Commands, CommandPart(input))
    else
      var node := Resolve(fs, path);
      if !IsDir(node) then []
      else
        var cs := node.value.children;
        var cmd := CommandPart(input);
        var arg := ArgPart(input);
        if cmd == "cd" then Filter([".."] + DirNames(cs), arg)
        else if cmd == "cat" then Filter(FileNames(cs), arg)
        else if cmd == "ai" then (if StartsWith("-flash", arg) then ["-flash"] else [])
        else if cmd == "cam" then (if StartsWith("-pro", arg) then ["-pro"] else [])
        else []
  }

  /** The ghost text: the part of the first suggestion not yet typed. */
  function Ghost(input: string, fs: Node, path: seq<string>): (g: string)
    ensures g != "" ==> Suggest(input, fs, path) != [] &&
                        Suggest(input, fs, path)[0] == Fragment(input) + g
    ensures Suggest(input, fs, path) != [] && |Suggest(input, fs, path)[0]| > |Fragment(input)| ==> g != ""
  {
    var matches := Suggest(input, fs, path);
    if matches == [] then ""
    else
      var best := matches[0];
      var typed := Fragment(input);
      SuggestionsExtend(input, fs, path);
      if StartsWith(best, typed) && |best| > |typed| then
        assert best == typed + best[|typed|..];
        best[|typed|..]
      else ""
  }

  /** Every suggestion continues what is being completed. */
  lemma SuggestionsExtend(input: string, fs: Node, path: seq<string>)
    ensures forall s :: s in Suggest(input, fs, path) ==> StartsWith(s, Fragment(input))
  {
  }

  /** Outside `cd`, `cat`, `ai` and `cam` an argument gets no suggestions. */
  lemma NoArgumentSuggestions(input: string, fs: Node, path: seq<string>)
    requires InArg(input) && CommandPart(input) !in ["cd", "cat", "ai", "cam"]
    ensures Suggest(input, fs, path) == []
  {
  }

  /**
   * `cd` offers `..` and the sub-directories of the current directory, and
   * nothing else; `..` comes first, then the directories in entry order.
   */
  lemma CdCandidates(input: string, fs: Node, path: seq<string>, s: string)
    requires InArg(input) && CommandPart(input) == "cd" && IsDir(Resolve(fs, path))
    ensures var cs := Resolve(fs, path).value.children;
            s in Suggest(input, fs, path) <==>
              StartsWith(s, ArgPart(input)) &&
              (s == ".." || exists i :: 0 <= i < |cs| && cs[i].key == s && cs[i].node.Dir?)
    ensures var cs := Resolve(fs, path).value.children;
            Suggest(input, fs, path) ==
              (if StartsWith("..", ArgPart(input)) then [".."] else []) + Filter(DirNames(cs), ArgPart(input))
  {
    var cs := Resolve(fs, path).value.children;
    assert input != "";
    assert s in [".."] + DirNames(cs) <==> s == ".." || s in DirNames(cs);
    FilterAppend([".."], DirNames(cs), ArgPart(input));
    FilterOne("..", ArgPart(input));
  }

  /** While the `cd` argument is a prefix of `..`, `..` is the first suggestion. */
  lemma CdDotDotFirst(input: string, fs: Node, path: seq<string>)
    requires InArg(input) && CommandPart(input) == "cd" && IsDir(Resolve(fs, path))
    requires StartsWith("..", ArgPart(input))
    ensures Suggest(input, fs, path) != [] && Suggest(input, fs, path)[0] == ".."
  {
    CdCandidates(input, fs, path, "..");
  }

  /** With nothing typed after `cd `, the ghost text is `..`. */
  lemma CdGhost(input: string, fs: Node, path: seq<string>)
    requires InArg(input) && CommandPart(input) == "cd" && IsDir(Resolve(fs, path))
    requires ArgPart(input) == ""
    ensures Ghost(input, fs, path) == ".."
  {
    assert StartsWith("..", "");
    CdDotDotFirst(input, fs, path);
    assert ".."[0..] == "..";
  }

  /** `cd ` in the home directory of the seed tree shows the ghost `..`. */
  lemma CdSpaceGhost()
    ensures Ghost("cd ", Seed(), ["root"]) == ".."
  {
    var input := "cd ";
    IndexOfIs(input, ' ', 2);
    ArgIsAfterFirstSpace(input);
    assert input[3..] == "";
    assert input[..2] == "cd";
    assert CommandPart(input) == Lower("cd");
    LowerOfLowerWord("cd");
    CdGhost(input, Seed(), ["root"]);
  }

  /** `ca` completes to `cat`, the first command name with that prefix (before `cam`). */
  lemma CommandGhostExample(fs: Node, path: seq<string>)
    ensures Ghost("ca", fs, path) == "t"
  {
    CommandIsWhole("ca");
    LowerOfLowerWord("ca");
    FirstCaCommand();
    assert StartsWith("cat", "ca");
    assert "cat"[2..] == "t";
  }

  lemma FirstCaCommand()
    ensures Filter(Commands, "ca") != [] && Filter(Commands, "ca")[0] == "cat"
  {
    var early := ["help", "ls", "cd"];
    assert Commands == early + ["cat"] + Commands[4..];
    DiffersAt("help", "ca", 0);
    DiffersAt("ls", "ca", 0);
    DiffersAt("cd", "ca", 1);
    FilterFirst(early, "cat", Commands[4..], "ca");
  }

  /** The first name that continues the prefix heads the filtered list. */
  lemma FilterFirst(a: seq<string>, x: string, b: seq<string>, p: string)
    requires forall i :: 0 <= i < |a| ==> !StartsWith(a[i], p)
    requires StartsWith(x, p)
    ensures Filter(a + [x] + b, p) != [] && Filter(a + [x] + b, p)[0] == x
  {
    FilterAppend(a, [x] + b, p);
    FilterAppend([x], b, p);
    FilterNone(a, p);
    FilterOne(x, p);
    assert a + [x] + b == a + ([x] + b);
  }

  lemma {:induction false} FilterNone(xs: seq<string>, p: string)
    requires forall i :: 0 <= i < |xs| ==> !StartsWith(xs[i], p)
    ensures Filter(xs, p) == []
    decreases |xs|
  {
    if xs != [] {
      assert forall i :: 0 <= i < |xs[1..]| ==> xs[1..][i] == xs[i + 1];
      FilterNone(xs[1..], p);
    }
  }

  /** A name that differs from the prefix at position `k` does not continue it. */
  lemma DiffersAt(x: string, p: string, k: nat)
    requires k < |p| && (k < |x| ==> x[k] != p[k])
    ensures !StartsWith(x, p)
  {
    if |p| <= |x| {
      assert x[..|p|][k] == x[k];
    }
  }

  /** No input, no suggestions and no ghost. */
  lemma EmptyInputQuiet(fs: Node, path: seq<string>)
    ensures Suggest("", fs, path) == [] && Ghost("", fs, path) == ""
  {
  }

  /** `cat` offers exactly the files of the current directory that continue the argument. */
  lemma CatCandidates(input: string, fs: Node, path: seq<string>, s: string)
    requires InArg(input) && CommandPart(input) == "cat" && IsDir(Resolve(fs, path))
    ensures var cs := Resolve(fs, path).value.children;
            s in Suggest(input, fs, path) <==>
              StartsWith(s, ArgPart(input)) && exists i :: 0 <= i < |cs| && cs[i].key == s && cs[i].node.File?
  {
    assert input != "";
  }

  /** In command position the suggestions are the command names that continue the typed word. */
  lemma CommandCandidates(input: string, fs: Node, path: seq<string>, s: string)
    requires input != "" && ' ' !in input
    ensures s in Suggest(input, fs, path) <==> s in Commands && StartsWith(s, Lower(input))
  {
    CommandIsWhole(input);
  }

  /** Tab (or ArrowRight) with ghost text appends it to the input. */
  function AcceptGhost(input: string, g: string): string {
    input + g
  }

  lemma CommandsAreLowerWords()
    ensures forall c :: c in Commands ==> LowerWord(c)
  {
  }

  lemma LowerOfLowerWord(w: string)
    requires LowerWord(w)
    ensures Lower(w) == w && ' ' !in w
  {
  }

  /**
   * Accepting the ghost text completes what was being typed to exactly the
   * first suggestion.
   */
  lemma AcceptCompletes(input: string, fs: Node, path: seq<string>)
    requires Ghost(input, fs, path) != ""
    ensures Fragment(AcceptGhost(input, Ghost(input, fs, path))) == Suggest(input, fs, path)[0]
  {
    var g := Ghost(input, fs, path);
    var best := Suggest(input, fs, path)[0];
    if InArg(input) {
      ExtendArgument(input, g);
    } else {
      CommandSuggestions(input, fs, path);
      ExtendCommand(input, g, best);
    }
  }

  /** Without a space the command part is the whole input, lower-cased. */
  lemma CommandIsWhole(input: string)
    requires ' ' !in input
    ensures !InArg(input) && CommandPart(input) == Lower(input)
  {
    assert input[..IndexOf(input, ' ')] == input;
  }

  lemma CommandSuggestions(input: string, fs: Node, path: seq<string>)
    requires !InArg(input)
    ensures forall s :: s in Suggest(input, fs, path) ==> s in Commands && LowerWord(s)
  {
    CommandsAreLowerWords();
  }

  /** Typing more text after an argument extends the argument by that text. */
  lemma ExtendArgument(input: string, g: string)
    requires InArg(input)
    ensures InArg(input + g) && ArgPart(input + g) == ArgPart(input) + g
  {
    var next := input + g;
    var i := IndexOf(input, ' ');
    assert next[..i] == input[..i];
    IndexOfIs(next, ' ', i);
    ArgIsAfterFirstSpace(input);
    ArgIsAfterFirstSpace(next);
    assert next[i + 1..] == input[i + 1..] + g;
  }

  /** Completing a command word to a lower-case command name gives that name. */
  lemma ExtendCommand(input: string, g: string, best: string)
    requires !InArg(input) && LowerWord(best) && best == CommandPart(input) + g
    ensures !InArg(input + g) && CommandPart(input + g) == best
  {
    var c := CommandPart(input);
    CommandIsWhole(input);
    assert g == best[|c|..];
    assert LowerWord(g);
    LowerOfLowerWord(g);
    assert ' ' !in input + g;
    CommandIsWhole(input + g);
    LowerAppend(input, g);
  }

  lemma IndexOfIs(s: string, c: char, i: nat)
    requires i < |s| && s[i] == c && c !in s[..i]
    ensures IndexOf(s, c) == i
  {
  }

  /** A click on suggestion `s`: the command word is kept in argument context, otherwise replaced. */
  function Picked(input: string, s: string): string {
    if ' ' in input then SplitOn(input, ' ')[0] + " " + s else s
  }

  /** Clicking any suggestion makes it exactly the thing being completed. */
  lemma PickCompletes(input: string, fs: Node, path: seq<string>, s: string)
    requires s in Suggest(input, fs, path)
    ensures Fragment(Picked(input, s)) == s
  {
    var next := Picked(input, s);
    if ' ' in input {
      var w := SplitOn(input, ' ')[0];
      assert ' ' !in w;
      assert next[..|w|] == w;
      IndexOfIs(next, ' ', |w|);
      ArgIsAfterFirstSpace(next);
      assert next[|w| + 1..] == s;
    } else {
      CommandIsWhole(input);
      CommandSuggestions(input, fs, path);
      LowerOfLowerWord(s);
      CommandIsWhole(s);
    }
  }
}
