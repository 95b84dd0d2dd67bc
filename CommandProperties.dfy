/**
 * Properties of the shell's command step: blank lines are ignored, every
 * other line is recorded, the cursor always names a directory, and each
 * command touches only what it is meant to.
 *
 * Laws about one command are proved first about `Exec` with the command
 * fixed, then carried over to `Step` on a concrete line.
 */
module CommandProperties {
  import opened Wrappers
  import opened Text
  import opened Split
  import opened FileSystem
  import opened Contacts
  import opened Completion
  import opened Commands

  /**
   * What holds of every reachable shell state: the cursor starts at `root`
   * and names a directory of a well-formed tree, and the history index is
   * -1 or a position in the history.
   */
  predicate Consistent(s: State) {
    s.fs.Dir? && WellFormed(s.fs) && PathOk(s.fs, s.path) &&
    -1 <= s.historyIndex < |s.history|
  }

  // ---------------------------------------------------------------------
  // Every line

  /** A line of white space does nothing at all. */
  lemma BlankIsIgnored(s: State, raw: string, user: string)
    requires AllSpace(raw)
    ensures Step(s, raw, user) == s
  {
  }

  /** Every other line is pushed, trimmed, on the front of the history, and browsing restarts. */
  lemma LineIsRecorded(s: State, raw: string, user: string)
    requires !AllSpace(raw)
    ensures Step(s, raw, user).history == [Trim(raw)] + s.history
    ensures Step(s, raw, user).historyIndex == -1
  {
  }

  /** Several submitted lines in turn. */
  function Run(s: State, raws: seq<string>, user: string): State
    decreases |raws|
  {
    if raws == [] then s else Run(Step(s, raws[0], user), raws[1..], user)
  }

  function NonBlank(raws: seq<string>): nat
    decreases |raws|
  {
    if raws == [] then 0 else (if AllSpace(raws[0]) then 0 else 1) + NonBlank(raws[1..])
  }

  /** The history grows by exactly the number of non-blank lines submitted. */
  lemma {:induction false} HistoryCountsLines(s: State, raws: seq<string>, user: string)
    ensures |Run(s, raws, user).history| == |s.history| + NonBlank(raws)
    decreases |raws|
  {
    if raws != [] {
      HistoryCountsLines(Step(s, raws[0], user), raws[1..], user);
    }
  }

  /** A non-blank line is executed as its command word and arguments. */
  lemma StepIsExec(s: State, raw: string, user: string)
    requires Trim(raw) != ""
    ensures var t := Trim(raw);
            Step(s, raw, user) == Exec(s, t, Parse(CommandWord(t)), CommandWord(t), Arguments(t), user)
  {
  }

  /** The fields every command other than `clear` and `logout` sets. */
  lemma ExecFields(s: State, t: string, c: Command, w: string, args: seq<string>, user: string)
    requires c != Clear && c != Logout
    ensures var s' := Exec(s, t, c, w, args, user);
            s'.lines == s.lines + [Echo(t, s.path)] + Respond(c, w, args, s, user) &&
            s'.path == NextPath(c, args, s) && s'.fs == NextFs(c, args, s) &&
            s'.active == NextApp(c, s) && s'.options == NextOptions(c, args, s) &&
            s'.history == [t] + s.history && s'.historyIndex == -1 &&
            s'.suggestions == [] && s'.ghostText == "" &&
            s'.input == s.input && s'.contacts == s.contacts
  {
  }

  /** `clear` empties the transcript and changes nothing else but the history. */
  lemma ClearEmptiesTranscript(s: State, raw: string, user: string)
    requires Trim(raw) != "" && Parse(CommandWord(Trim(raw))) == Clear
    ensures Step(s, raw, user) == s.(lines := [], history := [Trim(raw)] + s.history, historyIndex := -1)
  {
    StepIsExec(s, raw, user);
  }

  /** `logout` records the line and otherwise leaves the shell as it was. */
  lemma LogoutChangesNothingElse(s: State, raw: string, user: string)
    requires IsLogout(raw)
    ensures Step(s, raw, user) == s.(history := [Trim(raw)] + s.history, historyIndex := -1)
  {
    StepIsExec(s, raw, user);
  }

  /**
   * Every other command appends the echo of the trimmed line, with the prompt
   * path it was typed at, followed by its response, and clears completion.
   */
  lemma EchoPrecedesResponse(s: State, raw: string, user: string)
    requires Trim(raw) != ""
    requires Parse(CommandWord(Trim(raw))) != Clear && Parse(CommandWord(Trim(raw))) != Logout
    ensures var s' := Step(s, raw, user);
            |s'.lines| > |s.lines| && s'.lines[..|s.lines|] == s.lines &&
            s'.lines[|s.lines|] == Echo(Trim(raw), s.path) &&
            s'.suggestions == [] && s'.ghostText == ""
  {
    var t := Trim(raw);
    var w := CommandWord(t);
    StepIsExec(s, raw, user);
    ExecFields(s, t, Parse(w), w, Arguments(t), user);
    var s' := Step(s, raw, user);
    assert s'.lines[..|s.lines|] == s.lines;
  }

  /** A word no command answers to is reported back with exactly one error line. */
  lemma UnknownWordReported(s: State, raw: string, user: string)
    requires Trim(raw) != "" && Parse(CommandWord(Trim(raw))) == Unknown
    ensures var s' := Step(s, raw, user);
            s'.lines == s.lines + [Echo(Trim(raw), s.path), Out(ErrorLine, UnknownCommand(CommandWord(Trim(raw))))] &&
            s'.path == s.path && s'.fs == s.fs && s'.active == s.active && s'.options == s.options
  {
    var t := Trim(raw);
    StepIsExec(s, raw, user);
    ExecUnknown(s, t, CommandWord(t), Arguments(t), user);
  }

  lemma ExecUnknown(s: State, t: string, w: string, args: seq<string>, user: string)
    ensures var s' := Exec(s, t, Unknown, w, args, user);
            s'.lines == s.lines + [Echo(t, s.path), Out(ErrorLine, UnknownCommand(w))] &&
            s'.path == s.path && s'.fs == s.fs && s'.active == s.active && s'.options == s.options
  {
    ExecFields(s, t, Unknown, w, args, user);
  }

  lemma ExecFrame(s: State, t: string, c: Command, w: string, args: seq<string>, user: string)
    ensures var s' := Exec(s, t, c, w, args, user);
            (c != Cd ==> s'.path == s.path) &&
            (c != Touch ==> s'.fs == s.fs) &&
            (c !in {Sys, Map, Scan, Ai, Cam} ==> s'.active == s.active && s'.options == s.options) &&
            s'.contacts == s.contacts && s'.input == s.input
  {
    if c != Clear && c != Logout {
      ExecFields(s, t, c, w, args, user);
    }
  }

  /**
   * Only `cd` moves the cursor, only `touch` changes the tree, only the five
   * program commands change the program or its options.
   */
  lemma Frame(s: State, raw: string, user: string)
    requires Trim(raw) != ""
    ensures var c := Parse(CommandWord(Trim(raw)));
            var s' := Step(s, raw, user);
            (c != Cd ==> s'.path == s.path) &&
            (c != Touch ==> s'.fs == s.fs) &&
            (c !in {Sys, Map, Scan, Ai, Cam} ==> s'.active == s.active && s'.options == s.options) &&
            s'.contacts == s.contacts && s'.input == s.input
  {
    var t := Trim(raw);
    StepIsExec(s, raw, user);
    ExecFrame(s, t, Parse(CommandWord(t)), CommandWord(t), Arguments(t), user);
  }

  /** The root cursor is valid in any tree whose root is a directory. */
  lemma RootIsValid(fs: Node)
    requires fs.Dir?
    ensures PathOk(fs, ["root"])
  {
    assert Tail(["root"]) == [];
  }

  /** The new cursor of `cd` is valid whenever the old one was. */
  lemma NextPathOk(c: Command, args: seq<string>, s: State)
    requires s.fs.Dir? && PathOk(s.fs, s.path)
    ensures PathOk(s.fs, NextPath(c, args, s))
  {
    if c == Cd {
      if args == [] || args[0] == "/" {
        RootIsValid(s.fs);
      } else if args[0] == ".." {
        if |s.path| > 1 { PathOkPop(s.fs, s.path); }
      } else if IsDir(Child(Resolve(s.fs, s.path), args[0])) {
        PathOkExtend(s.fs, s.path, args[0]);
      }
    }
  }

  /** The tree after `touch` is well formed, its root a directory, and the cursor still valid. */
  lemma NextFsOk(c: Command, args: seq<string>, s: State)
    requires Consistent(s)
    ensures var fs := NextFs(c, args, s);
            fs.Dir? && WellFormed(fs) && PathOk(fs, s.path)
  {
    if c == Touch && args != [] {
      InsertFileAtCursor(s.fs, s.path, args[0], NewFileContent);
      PutAtWellFormed(s.fs, EffectivePath(s.fs, Tail(s.path)), args[0], File(args[0], NewFileContent, false));
    }
  }

  lemma ExecKeepsConsistent(s: State, t: string, c: Command, w: string, args: seq<string>, user: string)
    requires Consistent(s)
    ensures Consistent(Exec(s, t, c, w, args, user))
  {
    if c != Clear && c != Logout {
      ExecFields(s, t, c, w, args, user);
      NextPathOk(c, args, s);
      NextFsOk(c, args, s);
      if c == Touch && args != [] {
        assert NextPath(c, args, s) == s.path;
      }
    }
  }

  /** Every command keeps the shell consistent. */
  lemma StepKeepsConsistent(s: State, raw: string, user: string)
    requires Consistent(s)
    ensures Consistent(Step(s, raw, user))
  {
    var t := Trim(raw);
    if t != "" {
      StepIsExec(s, raw, user);
      ExecKeepsConsistent(s, t, Parse(CommandWord(t)), CommandWord(t), Arguments(t), user);
    }
  }

  // ---------------------------------------------------------------------
  // Concrete command lines

  lemma ParseNavigation()
    ensures Parse("cd") == Cd && Parse("ls") == Ls && Parse("cat") == Cat
    ensures Parse("touch") == Touch && Parse("pwd") == Pwd && Parse("tree") == Tree
  {
  }

  lemma ParsePrograms()
    ensures Parse("sys") == Sys && Parse("map") == Map && Parse("scan") == Scan
    ensures Parse("ai") == Ai && Parse("cam") == Cam
  {
  }

  /**
   * `raw` is a line whose trimmed words are the command word `cmd` (already
   * lower-cased) and the arguments `args`.
   */
  predicate Names(raw: string, cmd: string, args: seq<string>) {
    Trim(raw) != "" && CommandWord(Trim(raw)) == cmd && Arguments(Trim(raw)) == args
  }

  /** A line that names `cmd` with `args` runs exactly that command. */
  lemma StepNames(s: State, raw: string, cmd: string, args: seq<string>, user: string)
    requires Names(raw, cmd, args)
    ensures Step(s, raw, user) == Exec(s, Trim(raw), Parse(cmd), cmd, args, user)
  {
    StepIsExec(s, raw, user);
  }

  /** A lower-case word has no white space in it. */
  lemma LowerWordNoSpace(w: string)
    requires LowerWord(w)
    ensures NoSpace(w) && Lower(w) == w
  {
    LowerOfLowerWord(w);
  }

  /** A one-word line names its command and has no arguments. */
  lemma OneWord(w: string)
    requires w != [] && LowerWord(w)
    ensures Names(w, w, [])
  {
    LowerWordNoSpace(w);
    TrimNoEdges(w);
    FirstSpaceIs(w, |w|);
    assert w[..|w|] == w;
  }

  function Word(cmd: string, arg: string): string {
    cmd + " " + arg
  }

  /** `cmd arg` names its command and has the one argument. */
  lemma TwoWords(w: string, v: string)
    requires w != [] && v != [] && LowerWord(w) && NoSpace(v)
    ensures Names(Word(w, v), w, [v])
  {
    LowerWordNoSpace(w);
    var t := w + " " + v;
    assert t[0] == w[0] && t[|t| - 1] == v[|v| - 1];
    TrimNoEdges(t);
    SplitTwoWords(w, v);
  }

  // ---------------------------------------------------------------------
  // One command at a time.  `Exec(s, t, C, w, args, user)` is the step for a
  // trimmed line `t` whose command word `w` selects `C`; `StepNames` and the
  // parse lemmas above connect it to a typed line.

  /** `cd d` into a sub-directory appends it to the cursor and prints nothing. */
  lemma CdIntoDirectory(s: State, t: string, d: string, user: string)
    requires d != ".." && d != "/" && IsDir(Child(Resolve(s.fs, s.path), d))
    ensures var s' := Exec(s, t, Cd, "cd", [d], user);
            s'.path == s.path + [d] && s'.lines == s.lines + [Echo(t, s.path)] && s'.fs == s.fs
  {
    ExecFields(s, t, Cd, "cd", [d], user);
  }

  /** `cd d` on a file reports that it is not a directory and stays put. */
  lemma CdIntoFile(s: State, t: string, d: string, user: string)
    requires d != ".." && d != "/"
    requires Child(Resolve(s.fs, s.path), d).Some? && Child(Resolve(s.fs, s.path), d).value.File?
    ensures var s' := Exec(s, t, Cd, "cd", [d], user);
            s'.path == s.path &&
            s'.lines == s.lines + [Echo(t, s.path), Out(ErrorLine, NotADirectory(d))]
  {
    ExecFields(s, t, Cd, "cd", [d], user);
  }

  /** `cd d` for a name the current directory lacks reports it missing and stays put. */
  lemma CdMissing(s: State, t: string, d: string, user: string)
    requires d != ".." && d != "/" && Child(Resolve(s.fs, s.path), d).None?
    ensures var s' := Exec(s, t, Cd, "cd", [d], user);
            s'.path == s.path &&
            s'.lines == s.lines + [Echo(t, s.path), Out(ErrorLine, NoSuchDirectory(d))]
  {
    ExecFields(s, t, Cd, "cd", [d], user);
  }

  /** `cd ..` drops the last segment, and is a no-op at the root. */
  lemma CdUp(s: State, t: string, user: string)
    ensures var s' := Exec(s, t, Cd, "cd", [".."], user);
            s'.path == (if |s.path| > 1 then s.path[..|s.path| - 1] else s.path) &&
            s'.lines == s.lines + [Echo(t, s.path)]
  {
    ExecFields(s, t, Cd, "cd", [".."], user);
  }

  /** From a non-empty cursor, `cd d` then `cd ..` comes back to where it started. */
  lemma CdUpUndoesCdInto(s: State, into: string, up: string, d: string, user: string)
    requires s.path != [] && d != ".." && d != "/" && IsDir(Child(Resolve(s.fs, s.path), d))
    ensures Exec(Exec(s, into, Cd, "cd", [d], user), up, Cd, "cd", [".."], user).path == s.path
  {
    var p := s.path + [d];
    assert p[..|p| - 1] == s.path;
    var s1 := Exec(s, into, Cd, "cd", [d], user);
    assert s1.path == p by { CdIntoDirectory(s, into, d, user); }
    CdUp(s1, up, user);
  }

  /** `cd` alone and `cd /` go to the root. */
  lemma CdHome(s: State, t: string, args: seq<string>, user: string)
    requires args == [] || args == ["/"]
    ensures Exec(s, t, Cd, "cd", args, user).path == ["root"]
  {
    ExecFields(s, t, Cd, "cd", args, user);
  }

  /** `cat f` prints the content of a file of the current directory. */
  lemma CatFile(s: State, t: string, f: string, user: string)
    requires Child(Resolve(s.fs, s.path), f).Some? && Child(Resolve(s.fs, s.path), f).value.File?
    ensures var s' := Exec(s, t, Cat, "cat", [f], user);
            s'.lines == s.lines + [Echo(t, s.path),
                                  Out(OutputLine, Raw(Child(Resolve(s.fs, s.path), f).value.content))] &&
            s'.path == s.path && s'.fs == s.fs
  {
    ExecFields(s, t, Cat, "cat", [f], user);
  }

  /** `cat d` on a directory, or on a missing name, reports one error. */
  lemma CatErrors(s: State, t: string, f: string, user: string)
    ensures var c := Child(Resolve(s.fs, s.path), f);
            var s' := Exec(s, t, Cat, "cat", [f], user);
            (c.Some? && c.value.Dir? ==>
               s'.lines == s.lines + [Echo(t, s.path), Out(ErrorLine, IsADirectory(f))]) &&
            (c.None? ==>
               s'.lines == s.lines + [Echo(t, s.path), Out(ErrorLine, NoSuchFile(f))])
  {
    ExecFields(s, t, Cat, "cat", [f], user);
  }

  /** `touch` and `cat` without a name print their usage lines and change no file. */
  lemma UsageErrors(s: State, t: string, user: string)
    ensures var s' := Exec(s, t, Touch, "touch", [], user);
            s'.fs == s.fs && s'.lines == s.lines + [Echo(t, s.path), Out(ErrorLine, TouchUsage)]
    ensures var s' := Exec(s, t, Cat, "cat", [], user);
            s'.fs == s.fs && s'.lines == s.lines + [Echo(t, s.path), Out(ErrorLine, CatUsage)]
  {
    ExecFields(s, t, Touch, "touch", [], user);
    ExecFields(s, t, Cat, "cat", [], user);
  }

  /**
   * `touch f` sets the entry `f` of the current directory to a new file with
   * the placeholder content, keeps every other entry, and reports it.
   */
  lemma TouchCreatesFile(s: State, t: string, f: string, user: string)
    requires Consistent(s)
    ensures var s' := Exec(s, t, Touch, "touch", [f], user);
            var d := Resolve(s.fs, s.path).value;
            Resolve(s'.fs, s.path) == Some(Dir(d.name, Put(d.children, f, File(f, NewFileContent, false)))) &&
            s'.path == s.path && Consistent(s') &&
            s'.lines == s.lines + [Echo(t, s.path), Out(SuccessLine, Created(f))]
  {
    ExecFields(s, t, Touch, "touch", [f], user);
    InsertFileAtCursor(s.fs, s.path, f, NewFileContent);
    ExecKeepsConsistent(s, t, Touch, "touch", [f], user);
  }

  /** A file just created with `touch` is read back by `cat` with the placeholder content. */
  lemma TouchThenCat(s: State, t1: string, t2: string, f: string, user: string)
    requires Consistent(s)
    ensures var s2 := Exec(Exec(s, t1, Touch, "touch", [f], user), t2, Cat, "cat", [f], user);
            |s2.lines| > 0 && s2.lines[|s2.lines| - 1] == Out(OutputLine, Raw(NewFileContent))
  {
    var s1 := Exec(s, t1, Touch, "touch", [f], user);
    TouchCreatesFile(s, t1, f, user);
    PutFinds(Resolve(s.fs, s.path).value.children, f, File(f, NewFileContent, false));
    CatFile(s1, t2, f, user);
  }

  lemma PutFinds(cs: seq<Entry>, k: string, n: Node)
    ensures Child(Some(Dir("", Put(cs, k, n))), k) == Some(n)
  {
  }

  /** `touch f` twice leaves the same tree as once. */
  lemma TouchTwice(s: State, t: string, f: string, user: string)
    requires Consistent(s)
    ensures var s1 := Exec(s, t, Touch, "touch", [f], user);
            Exec(s1, t, Touch, "touch", [f], user).fs == s1.fs
  {
    var s1 := Exec(s, t, Touch, "touch", [f], user);
    ExecFields(s, t, Touch, "touch", [f], user);
    ExecFields(s1, t, Touch, "touch", [f], user);
    InsertFileIdempotent(s.fs, s.path, f, NewFileContent);
  }

  /** `pwd` prints the cursor as an absolute path starting at `/root`. */
  lemma PwdPrintsPath(s: State, t: string, user: string)
    requires Consistent(s)
    ensures var s' := Exec(s, t, Pwd, "pwd", [], user);
            s'.lines == s.lines + [Echo(t, s.path), Out(OutputLine, WorkingDir(s.path))] &&
            StartsWith(Render(WorkingDir(s.path)), "/root")
  {
    ExecFields(s, t, Pwd, "pwd", [], user);
    WorkingDirStartsAtRoot(s.path);
  }

  lemma WorkingDirStartsAtRoot(path: seq<string>)
    requires |path| >= 1 && path[0] == "root"
    ensures StartsWith(Render(WorkingDir(path)), "/root")
  {
    var j := Join(path, "/");
    JoinStartsWithFirst(path, "/");
    assert Render(WorkingDir(path)) == "/" + j;
    assert ("/" + j)[..5] == "/" + j[..4];
  }

  lemma JoinStartsWithFirst(parts: seq<string>, sep: string)
    requires parts != []
    ensures StartsWith(Join(parts, sep), parts[0])
  {
    if |parts| > 1 {
      assert (parts[0] + sep + Join(parts[1..], sep))[..|parts[0]|] == parts[0];
    }
  }

  /** `ls` lists the entries of the current directory in order, directories marked with `/`. */
  lemma LsListsEntries(s: State, t: string, user: string)
    requires Consistent(s)
    ensures var cs := Resolve(s.fs, s.path).value.children;
            var s' := Exec(s, t, Ls, "ls", [], user);
            s'.lines == s.lines + [Echo(t, s.path)] + LsLines(cs) &&
            (cs == [] ==> LsLines(cs) == [Out(OutputLine, EmptyDir)]) &&
            (cs != [] ==> |LsLines(cs)| == |cs| &&
                          forall i :: 0 <= i < |cs| ==>
                            LsLines(cs)[i] == Out(OutputLine, Raw(cs[i].key + (if cs[i].node.Dir? then "/" else ""))))
  {
    ExecFields(s, t, Ls, "ls", [], user);
  }

  /** Every line of a tree listing begins with the prefix it was drawn under. */
  lemma {:induction false} TreeLinesPrefixed(cs: seq<Entry>, prefix: string)
    ensures forall i :: 0 <= i < |TreeLines(cs, prefix)| ==> StartsWith(TreeLines(cs, prefix)[i], prefix)
    decreases cs
  {
    if cs != [] {
      var last := |cs| == 1;
      var e := cs[0];
      var line := TreeLine(prefix, last, e);
      var p2 := ChildPrefix(prefix, last);
      var sub := if e.node.Dir? then TreeLines(e.node.children, p2) else [];
      var rest := TreeLines(cs[1..], prefix);
      assert line[..|prefix|] == prefix;
      if e.node.Dir? {
        TreeLinesPrefixed(e.node.children, p2);
        forall i | 0 <= i < |sub| ensures StartsWith(sub[i], prefix) {
          assert sub[i][..|prefix|] == p2[..|prefix|];
        }
      }
      TreeLinesPrefixed(cs[1..], prefix);
      var all := [line] + sub + rest;
      forall i | 0 <= i < |all| ensures StartsWith(all[i], prefix) {
        if i == 0 {
        } else if i <= |sub| {
          assert all[i] == sub[i - 1];
        } else {
          assert all[i] == rest[i - 1 - |sub|];
        }
      }
    }
  }

  /** A tree listing has one line per node below the directory. */
  lemma {:induction false} TreeLinesCount(cs: seq<Entry>, prefix: string)
    ensures |TreeLines(cs, prefix)| == Count(cs)
    decreases cs
  {
    if cs != [] {
      var last := |cs| == 1;
      if cs[0].node.Dir? {
        TreeLinesCount(cs[0].node.children, ChildPrefix(prefix, last));
      }
      TreeLinesCount(cs[1..], prefix);
    }
  }

  /**
   * In a directory holding only files, the listing is one line per entry:
   * `├── ` before every name but the last, `└── ` before the last.
   */
  lemma {:induction false} TreeOfFiles(cs: seq<Entry>, prefix: string)
    requires forall i :: 0 <= i < |cs| ==> cs[i].node.File?
    ensures |TreeLines(cs, prefix)| == |cs|
    ensures forall i :: 0 <= i < |cs| ==>
              TreeLines(cs, prefix)[i] == prefix + Connector(i == |cs| - 1) + cs[i].key
    decreases cs
  {
    if cs != [] {
      TreeOfFiles(cs[1..], prefix);
      var r := TreeLines(cs, prefix);
      forall i | 1 <= i < |cs|
        ensures r[i] == prefix + Connector(i == |cs| - 1) + cs[i].key
      {
        assert r[i] == TreeLines(cs[1..], prefix)[i - 1];
        assert cs[1..][i - 1] == cs[i];
      }
    }
  }

  /** `tree` prints `.` and then one line per node below the current directory. */
  lemma TreeListsNodes(s: State, t: string, user: string)
    requires Consistent(s)
    ensures var cs := Resolve(s.fs, s.path).value.children;
            var s' := Exec(s, t, Tree, "tree", [], user);
            |s'.lines| == |s.lines| + 2 + Count(cs) &&
            s'.lines[|s.lines| + 1] == Out(OutputLine, Raw("."))
  {
    ExecFields(s, t, Tree, "tree", [], user);
    var cs := Resolve(s.fs, s.path).value.children;
    TreeLinesCount(cs, "");
  }

  /** `sys`, `map` and `scan` open their program and add nothing but the echo. */
  lemma LaunchPrograms(s: State, t: string, c: Command, w: string, user: string)
    requires c == Sys || c == Map || c == Scan
    ensures var s' := Exec(s, t, c, w, [], user);
            s'.active == (if c == Sys then SystemMonitor else if c == Map then WorldMap else BioScan) &&
            s'.lines == s.lines + [Echo(t, s.path)] && s'.options == s.options
  {
    ExecFields(s, t, c, w, [], user);
  }

  /** `ai -flash` (or `--flash`) opens the AI core on the fast model; without a flag the options stay. */
  lemma AiModel(s: State, t: string, args: seq<string>, user: string)
    ensures var s' := Exec(s, t, Ai, "ai", args, user);
            s'.active == AiCore &&
            s'.options == (if "-flash" in args || "--flash" in args then InitialModel(Flash) else s.options)
  {
    ExecFields(s, t, Ai, "ai", args, user);
  }

  /** `cam -pro` (or `--pro`) opens the camera view on the high-resolution model. */
  lemma CamModel(s: State, t: string, args: seq<string>, user: string)
    ensures var s' := Exec(s, t, Cam, "cam", args, user);
            s'.active == Surveillance &&
            s'.options == (if "-pro" in args || "--pro" in args then InitialModel(Pro) else s.options)
  {
    ExecFields(s, t, Cam, "cam", args, user);
  }

  /** Typing `touch f` and then `cat f` at the prompt shows the placeholder content. */
  lemma TypedTouchThenCat(s: State, touch: string, cat: string, f: string, user: string)
    requires Consistent(s) && Names(touch, "touch", [f]) && Names(cat, "cat", [f])
    ensures var s2 := Step(Step(s, touch, user), cat, user);
            |s2.lines| > 0 && s2.lines[|s2.lines| - 1] == Out(OutputLine, Raw(NewFileContent))
  {
    ParseNavigation();
    var s1 := Step(s, touch, user);
    StepNames(s, touch, "touch", [f], user);
    StepNames(s1, cat, "cat", [f], user);
    TouchThenCat(s, Trim(touch), Trim(cat), f, user);
  }

  // ---------------------------------------------------------------------
  // Clearance

  /** The high names, lower-cased. */
  const LowHighNames: seq<string> := ["ω", "omega", "observer", "观察者", "observation"]

  lemma LowerHighNames()
    ensures |LowHighNames| == |HighNames|
    ensures forall i :: 0 <= i < |HighNames| ==> Lower(HighNames[i]) == LowHighNames[i]
  {
    assert Lower("Ω") == "ω";
    assert Lower("Omega") == "omega";
    assert Lower("Observer") == "observer";
    assert Lower("观察者") == "观察者";
    assert Lower("Observation") == "observation";
  }

  /**
   * A user has high clearance exactly when the name, as typed or trimmed,
   * lower-cases to one of the lower-cased high names.
   */
  lemma ClearanceByName(u: string)
    ensures CheckClearance(u) <==> Lower(u) in LowHighNames || Lower(Trim(u)) in LowHighNames
  {
    LowerHighNames();
    if Lower(u) in LowHighNames || Lower(Trim(u)) in LowHighNames {
      var i :| 0 <= i < |LowHighNames| && (LowHighNames[i] == Lower(u) || LowHighNames[i] == Lower(Trim(u)));
      assert Lower(HighNames[i]) == LowHighNames[i];
    }
  }

  /** `whoami` prints the user, then either the high-clearance lines or the restricted ones. */
  lemma WhoamiReportsClearance(user: string)
    ensures var ls := WhoamiLines(user);
            ls[0] == Out(OutputLine, CurrentUser(user)) &&
            (CheckClearance(user) ==> ls[1] == Out(OutputLine, HighClearance) &&
                                      (|ls| == 3 <==> user == "Ω")) &&
            (!CheckClearance(user) ==> ls[1..] == [Out(OutputLine, LowClearance), Out(SystemLine, RestrictedWarning)])
  {
  }

  /**
   * The command word never holds a space, so the aliases `repeater cow cat`
   * and `round little black ball` are never selected.
   */
  lemma SpacedAliasesUnreachable(t: string)
    ensures CommandWord(t) != "repeater cow cat" && CommandWord(t) != "round little black ball"
  {
    var w := SplitWs(t)[0];
    LowerKeepsSpaces(w);
    assert IsSpace("repeater cow cat"[8]);
    assert IsSpace("round little black ball"[5]);
    assert NoSpace(w);
  }
}
