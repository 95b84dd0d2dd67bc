/**
 * The terminal component as an object: its state variables are fields, each
 * handler is a method that updates them, and the loops of the component
 * (walking the cursor, listing a directory, printing the tree, listing the
 * contacts) are methods proved equal to the functions of `Commands`.
 *
 * `Valid` is the invariant every handler keeps; `Synced` says the completion
 * state is what the suggestion effect computes from the input, the cursor
 * and the tree. The effect runs whenever one of those three changes, so
 * every handler that changes one ends with `Refresh`.
 */
module Shell {
  import opened Wrappers
  import opened Text
  import opened Split
  import opened FileSystem
  import opened Contacts
  import opened Completion
  import opened Commands
  import opened CommandProperties

  /** The three lines a new terminal starts with. */
  function BannerLines(): seq<Line> {
    [Out(SystemLine, Banner(0)), Out(SystemLine, Banner(1)), Out(SuccessLine, Banner(2))]
  }

  /** The seed tree is well formed and the root cursor is valid in it. */
  lemma SeedIsConsistent()
    ensures Seed().Dir? && WellFormed(Seed()) && PathOk(Seed(), ["root"])
  {
    SeedWellFormed();
    RootIsValid(Seed());
  }

  // ---------------------------------------------------------------------
  // History browsing with ArrowUp and ArrowDown

  /** `Math.min(historyIndex + 1, history.length - 1)` */
  function HistoryUp(i: int, n: nat): int {
    if i + 1 < n - 1 then i + 1 else n - 1
  }

  /** The index after ArrowDown: one step back towards -1, which means "not browsing". */
  function HistoryDown(i: int): int {
    if i > 0 then i - 1 else -1
  }

  /** Both keys keep a valid index valid. */
  lemma BrowsingStaysInRange(i: int, n: nat)
    requires -1 <= i < n
    ensures n > 0 ==> 0 <= HistoryUp(i, n) < n
    ensures -1 <= HistoryDown(i) < n
  {
  }

  function Ups(k: nat, n: nat): int
    decreases k
  {
    if k == 0 then -1 else HistoryUp(Ups(k - 1, n), n)
  }

  /** `k` presses of ArrowUp from a fresh prompt reach the `k`-th most recent line, or the oldest. */
  lemma {:induction false} UpsReach(k: nat, n: nat)
    requires n > 0
    ensures Ups(k, n) == (if k < n then k else n) - 1
    decreases k
  {
    if k > 0 {
      UpsReach(k - 1, n);
    }
  }

  /** ArrowDown undoes ArrowUp until the oldest line is reached. */
  lemma DownUndoesUp(i: int, n: nat)
    requires -1 <= i && i + 1 < n
    ensures HistoryDown(HistoryUp(i, n)) == i
  {
  }

  // ---------------------------------------------------------------------
  // The loops of the component

  /** The `children.forEach` of `ls`. */
  method ListChildren(cs: seq<Entry>) returns (out: seq<Line>)
    ensures out == LsLines(cs)
  {
    if |cs| == 0 {
      return [Out(OutputLine, EmptyDir)];
    }
    out := [];
    var i := 0;
    while i < |cs|
      invariant 0 <= i <= |cs|
      invariant |out| == i
      invariant forall j :: 0 <= j < i ==> out[j] == Out(OutputLine, Raw(cs[j].key + Suffix(cs[j].node)))
    {
      out := out + [Out(OutputLine, Raw(cs[i].key + Suffix(cs[i].node)))];
      i := i + 1;
    }
  }

  /** The `contacts.forEach` of `comms`, between its header and its tip. */
  method ListContacts(cs: seq<Contact>) returns (out: seq<Line>)
    ensures out == CommsLines(cs)
  {
    var rows: seq<Line> := [];
    var i := 0;
    while i < |cs|
      invariant 0 <= i <= |cs|
      invariant |rows| == i
      invariant forall j :: 0 <= j < i ==> rows[j] == Out(OutputLine, ContactRow(cs[j]))
    {
      rows := rows + [Out(OutputLine, ContactRow(cs[i]))];
      i := i + 1;
    }
    out := [Out(SystemLine, CommsHeader)] + rows + [Out(SystemLine, CommsTip)];
  }

  /**
   * `getTreeOutput(node, prefix, result)`: push one line per entry, and
   * recurse into sub-directories with the prefix extended.
   */
  method GetTreeOutput(cs: seq<Entry>, prefix: string, result: seq<string>) returns (r: seq<string>)
    ensures r == result + TreeLines(cs, prefix)
    decreases cs
  {
    r := result;
    var i := 0;
    while i < |cs|
      invariant 0 <= i <= |cs|
      invariant r + TreeLines(cs[i..], prefix) == result + TreeLines(cs, prefix)
    {
      var isLast := i == |cs| - 1;
      var e := cs[i];
      var before := r;
      r := r + [TreeLine(prefix, isLast, e)];
      if e.node.Dir? {
        r := GetTreeOutput(e.node.children, ChildPrefix(prefix, isLast), r);
      }
      TreeStep(cs, i, prefix, result, before, r);
      i := i + 1;
    }
    assert cs[|cs|..] == [];
  }

  /** One turn of `getTreeOutput`'s loop: entry `i`'s lines pushed, the rest still to come. */
  lemma TreeStep(cs: seq<Entry>, i: nat, prefix: string, result: seq<string>, before: seq<string>, r: seq<string>)
    requires i < |cs|
    requires before + TreeLines(cs[i..], prefix) == result + TreeLines(cs, prefix)
    requires var last := i == |cs| - 1;
             r == before + [TreeLine(prefix, last, cs[i])] +
                  (if cs[i].node.Dir? then TreeLines(cs[i].node.children, ChildPrefix(prefix, last)) else [])
    ensures r + TreeLines(cs[i + 1..], prefix) == result + TreeLines(cs, prefix)
  {
    var last := i == |cs| - 1;
    var sub := if cs[i].node.Dir? then TreeLines(cs[i].node.children, ChildPrefix(prefix, last)) else [];
    TreeLinesUnfold(cs, i, prefix);
    Regroup(before, TreeLine(prefix, last, cs[i]), sub, TreeLines(cs[i + 1..], prefix), TreeLines(cs[i..], prefix));
  }

  lemma Regroup<T>(a: seq<T>, x: T, sub: seq<T>, rest: seq<T>, whole: seq<T>)
    requires whole == [x] + sub + rest
    ensures a + [x] + sub + rest == a + whole
  {
  }

  /** The listing from entry `i` on is entry `i`'s own lines, then the rest. */
  lemma TreeLinesUnfold(cs: seq<Entry>, i: nat, prefix: string)
    requires i < |cs|
    ensures var last := i == |cs| - 1;
            var e := cs[i];
            TreeLines(cs[i..], prefix) ==
              [TreeLine(prefix, last, e)] +
              (if e.node.Dir? then TreeLines(e.node.children, ChildPrefix(prefix, last)) else []) +
              TreeLines(cs[i + 1..], prefix)
  {
    assert cs[i..][0] == cs[i];
    assert cs[i..][1..] == cs[i + 1..];
  }

  /** The lines of `tree`: `.`, then one output line per line of `getTreeOutput`. */
  method TreeReport(fs: Node, path: seq<string>) returns (out: seq<Line>)
    ensures out == TreeOutput(fs, path)
  {
    out := [Out(OutputLine, Raw("."))];
    var n := GetCurrentNode(fs, path);
    if n.Some? && n.value.Dir? {
      var t := GetTreeOutput(n.value.children, "", []);
      var i := 0;
      while i < |t|
        invariant 0 <= i <= |t|
        invariant |out| == 1 + i && out[0] == Out(OutputLine, Raw("."))
        invariant forall j :: 0 <= j < i ==> out[1 + j] == Out(OutputLine, Raw(t[j]))
      {
        out := out + [Out(OutputLine, Raw(t[i]))];
        i := i + 1;
      }
      assert out == [Out(OutputLine, Raw("."))] + seq(|t|, j requires 0 <= j < |t| => Out(OutputLine, Raw(t[j])));
    }
  }

  /** `getCurrentNode(path)`: follow each segment after the first, or give up. */
  method GetCurrentNode(fs: Node, path: seq<string>) returns (r: Option<Node>)
    ensures r == Resolve(fs, path)
  {
    var segs := Tail(path);
    var node := fs;
    var i := 0;
    while i < |segs|
      invariant 0 <= i <= |segs|
      invariant Walk(node, segs[i..]) == Walk(fs, segs)
    {
      assert segs[i..][0] == segs[i] && segs[i..][1..] == segs[i + 1..];
      if !node.Dir? {
        return None;
      }
      var c := Lookup(node.children, segs[i]);
      if c.None? {
        return None;
      }
      node := c.value;
      i := i + 1;
    }
    assert segs[|segs|..] == [];
    return Some(node);
  }

  /**
   * The directory `addFile`'s loop stops at: segments whose child exists are
   * descended, the others are skipped.
   */
  method AddFileTarget(fs: Node, path: seq<string>) returns (eff: seq<string>)
    ensures eff == EffectivePath(fs, Tail(path))
  {
    var segs := Tail(path);
    var node := fs;
    eff := [];
    var i := 0;
    while i < |segs|
      invariant 0 <= i <= |segs|
      invariant eff + EffectivePath(node, segs[i..]) == EffectivePath(fs, segs)
    {
      assert segs[i..][0] == segs[i] && segs[i..][1..] == segs[i + 1..];
      if node.Dir? {
        var c := Lookup(node.children, segs[i]);
        if c.Some? {
          eff := eff + [segs[i]];
          node := c.value;
        }
      } else {
        assert EffectivePath(node, segs[i..]) == [] == EffectivePath(node, segs[i + 1..]);
      }
      i := i + 1;
    }
    assert segs[|segs|..] == [];
  }

  class Terminal {
    var lines: seq<Line>
    var input: string
    var path: seq<string>
    var history: seq<string>
    var historyIndex: int
    var fs: Node
    var active: App
    var options: Options
    var suggestions: seq<string>
    var ghostText: string
    var contacts: seq<Contact>
    /** The signed-in user, fixed for the terminal's lifetime. */
    const user: string

    function Snapshot(): State
      reads this
    {
      State(lines, input, path, history, historyIndex, fs, active, options, suggestions, ghostText, contacts)
    }

    predicate Valid()
      reads this
    {
      Consistent(Snapshot())
    }

    /** The completion state is what the suggestion effect computes now. */
    predicate Synced()
      reads this
    {
      suggestions == Suggest(input, fs, path) && ghostText == Ghost(input, fs, path)
    }

    constructor (u: string)
      ensures user == u && lines == BannerLines() && input == "" && path == ["root"]
      ensures history == [] && historyIndex == -1 && fs == Seed()
      ensures active == NoApp && options == NoOptions && contacts == SeedContacts()
      ensures Valid() && Synced()
    {
      user := u;
      lines := BannerLines();
      input := "";
      path := ["root"];
      history := [];
      historyIndex := -1;
      fs := Seed();
      active := NoApp;
      options := NoOptions;
      suggestions := [];
      ghostText := "";
      contacts := SeedContacts();
      SeedIsConsistent();
    }

    /** The suggestion effect. */
    method Refresh()
      modifies this
      ensures Snapshot() == old(Snapshot()).(suggestions := Suggest(input, fs, path), ghostText := Ghost(input, fs, path))
      ensures Synced()
    {
      suggestions := Suggest(input, fs, path);
      ghostText := Ghost(input, fs, path);
    }

    /** `addFile(name, content)`: the current directory gets `children[name]`. */
    method AddFile(name: string, content: string)
      modifies this
      ensures Snapshot() == old(Snapshot()).(fs := InsertFile(old(fs), path, name, content))
    {
      var eff := AddFileTarget(fs, path);
      fs := PutAt(fs, eff, name, File(name, content, false));
    }

    /** The lines `executeCommand` pushes after the echo, read from the current state. */
    method Reply(c: Command, w: string, args: seq<string>) returns (out: seq<Line>)
      ensures out == Respond(c, w, args, Snapshot(), user)
    {
      match c
      case Help => out := HelpLines();
      case Pwd => out := [Out(OutputLine, WorkingDir(path))];
      case Import => out := [Out(SystemLine, TapeReader)];
      case Touch =>
        if |args| == 0 {
          out := [Out(ErrorLine, TouchUsage)];
        } else {
          out := [Out(SuccessLine, Created(args[0]))];
        }
      case Comms => out := ListContacts(contacts);
      case Whoami => out := WhoamiLines(user);
      case CowCat =>
        if user == "Ω" {
          out := [Out(SuccessLine, CowCatWelcome)];
        } else {
          out := [Out(ErrorLine, CowCatDenied)];
        }
      case Observer => out := [Out(SystemLine, CallingObserver)];
      case Tree => out := TreeReport(fs, path);
      case Ls =>
        var n := GetCurrentNode(fs, path);
        if n.Some? && n.value.Dir? {
          out := ListChildren(n.value.children);
        } else {
          out := [];
        }
      case Cd => out := CdReply(args);
      case Cat => out := CatReply(args);
      case Unknown => out := [Out(ErrorLine, UnknownCommand(w))];
      case _ => out := [];
    }

    method CdReply(args: seq<string>) returns (out: seq<Line>)
      ensures out == CdLines(Snapshot(), args)
    {
      out := [];
      if |args| > 0 && args[0] != ".." && args[0] != "/" {
        var n := GetCurrentNode(fs, path);
        var c := Child(n, args[0]);
        if c.None? {
          out := [Out(ErrorLine, NoSuchDirectory(args[0]))];
        } else if !c.value.Dir? {
          out := [Out(ErrorLine, NotADirectory(args[0]))];
        }
      }
    }

    method CatReply(args: seq<string>) returns (out: seq<Line>)
      ensures out == CatLines(Snapshot(), args)
    {
      if |args| == 0 {
        return [Out(ErrorLine, CatUsage)];
      }
      var n := GetCurrentNode(fs, path);
      var c := Child(n, args[0]);
      if c.None? {
        out := [Out(ErrorLine, NoSuchFile(args[0]))];
      } else if c.value.File? {
        out := [Out(OutputLine, Raw(c.value.content))];
      } else {
        out := [Out(ErrorLine, IsADirectory(args[0]))];
      }
    }

    /** The `cd` branch's updates of the cursor. */
    method ChangeDirectory(args: seq<string>)
      modifies this
      ensures Snapshot() == old(Snapshot()).(path := NextPath(Cd, args, old(Snapshot())))
    {
      if |args| == 0 || args[0] == "/" {
        path := ["root"];
      } else if args[0] == ".." {
        if |path| > 1 {
          path := path[..|path| - 1];
        }
      } else {
        var n := GetCurrentNode(fs, path);
        if IsDir(Child(n, args[0])) {
          path := path + [args[0]];
        }
      }
    }

    /** The program commands' updates of the running program and its options. */
    method Launch(c: Command, args: seq<string>)
      modifies this
      ensures Snapshot() == old(Snapshot()).(active := NextApp(c, old(Snapshot())), options := NextOptions(c, args, old(Snapshot())))
    {
      if c == Ai && ("-flash" in args || "--flash" in args) {
        options := InitialModel(Flash);
      } else if c == Cam && ("-pro" in args || "--pro" in args) {
        options := InitialModel(Pro);
      }
      match c
      case Sys => active := SystemMonitor;
      case Map => active := WorldMap;
      case Scan => active := BioScan;
      case Ai => active := AiCore;
      case Cam => active := Surveillance;
      case _ =>
    }

    /**
     * `executeCommand(cmdStr)`: the new state is `Step` of the old one, and
     * the result says whether the session is to end (`onLogout`).
     */
    method Execute(cmdStr: string) returns (logout: bool)
      modifies this
      requires Valid()
      ensures Snapshot() == Step(old(Snapshot()), cmdStr, user)
      ensures logout == IsLogout(cmdStr)
      ensures Valid()
    {
      StepKeepsConsistent(Snapshot(), cmdStr, user);
      var trimmed := Trim(cmdStr);
      if trimmed == "" {
        return false;
      }
      StepIsExec(Snapshot(), cmdStr, user);
      var parts := SplitWs(trimmed);
      var command := Lower(parts[0]);
      logout := Run(trimmed, Parse(command), command, parts[1..]);
    }

    /** The body of `executeCommand` once the line is trimmed and split. */
    method Run(t: string, c: Command, w: string, args: seq<string>) returns (logout: bool)
      modifies this
      ensures Snapshot() == Exec(old(Snapshot()), t, c, w, args, user)
      ensures logout == (c == Logout)
    {
      if c == Clear {
        history := [t] + history;
        historyIndex := -1;
        lines := [];
        return false;
      }
      if c == Logout {
        history := [t] + history;
        historyIndex := -1;
        return true;
      }
      logout := false;
      RunCommand(t, c, w, args);
    }

    /** Every command but `clear` and `logout`: echo, respond, update, clear the completion. */
    method RunCommand(t: string, c: Command, w: string, args: seq<string>)
      modifies this
      requires c != Clear && c != Logout
      ensures Snapshot() == Exec(old(Snapshot()), t, c, w, args, user)
    {
      ExecFields(Snapshot(), t, c, w, args, user);
      var echo := Echo(t, path);
      var out := Reply(c, w, args);
      Update(c, args);
      history := [t] + history;
      historyIndex := -1;
      lines := lines + [echo] + out;
      suggestions := [];
      ghostText := "";
    }

    /** The cursor, tree, program and options after command `c`. */
    method Update(c: Command, args: seq<string>)
      modifies this
      ensures Snapshot() == old(Snapshot()).(path := NextPath(c, args, old(Snapshot())),
                                             fs := NextFs(c, args, old(Snapshot())),
                                             active := NextApp(c, old(Snapshot())),
                                             options := NextOptions(c, args, old(Snapshot())))
    {
      if c == Cd {
        ChangeDirectory(args);
      }
      if c == Touch && |args| > 0 {
        AddFile(args[0], NewFileContent);
      }
      Launch(c, args);
    }

    /** Enter: run the input, then clear it. */
    method PressEnter() returns (logout: bool)
      modifies this
      requires Valid()
      ensures Snapshot() == Step(old(Snapshot()), old(input), user).(input := "", suggestions := [], ghostText := "")
      ensures logout == IsLogout(old(input))
      ensures Valid() && Synced()
    {
      logout := Execute(input);
      input := "";
      Refresh();
    }

    /** The input's `onChange`. */
    method SetInput(v: string)
      modifies this
      requires Valid()
      ensures Snapshot() == old(Snapshot()).(input := v, suggestions := Suggest(v, fs, path), ghostText := Ghost(v, fs, path))
      ensures Valid() && Synced()
    {
      input := v;
      Refresh();
    }

    /**
     * Tab or ArrowRight: with ghost text, append it; the command word or the
     * argument then reads as the first suggestion.
     */
    method AcceptSuggestion()
      modifies this
      requires Valid() && Synced()
      ensures old(ghostText) == "" ==> Snapshot() == old(Snapshot())
      ensures old(ghostText) != "" ==>
                Snapshot() == old(Snapshot()).(input := AcceptGhost(old(input), old(ghostText)),
                                               suggestions := Suggest(input, fs, path),
                                               ghostText := Ghost(input, fs, path))
      ensures old(ghostText) != "" ==> Fragment(input) == old(suggestions)[0]
      ensures Valid() && Synced()
    {
      if ghostText != "" {
        AcceptCompletes(input, fs, path);
        input := input + ghostText;
        Refresh();
      }
    }

    /** ArrowUp: step back through the history, stopping at the oldest line. */
    method HistoryBack()
      modifies this
      requires Valid() && Synced()
      ensures history == [] ==> Snapshot() == old(Snapshot())
      ensures history != [] ==>
                historyIndex == HistoryUp(old(historyIndex), |history|) && input == history[historyIndex]
      ensures history != [] ==>
                Snapshot() == old(Snapshot()).(historyIndex := historyIndex, input := input,
                                               suggestions := Suggest(input, fs, path),
                                               ghostText := Ghost(input, fs, path))
      ensures Valid() && Synced()
    {
      if |history| > 0 {
        var next := if historyIndex + 1 < |history| - 1 then historyIndex + 1 else |history| - 1;
        historyIndex := next;
        input := history[next];
        Refresh();
      }
    }

    /** ArrowDown: step forward again; past the newest line the input is emptied. */
    method HistoryForward()
      modifies this
      requires Valid() && Synced()
      ensures old(historyIndex) >= 0 ==>
                Snapshot() == old(Snapshot()).(historyIndex := historyIndex, input := input,
                                               suggestions := Suggest(input, fs, path),
                                               ghostText := Ghost(input, fs, path))
      ensures historyIndex == HistoryDown(old(historyIndex))
      ensures old(historyIndex) > 0 ==> input == history[historyIndex]
      ensures old(historyIndex) == 0 ==> input == ""
      ensures old(historyIndex) < 0 ==> Snapshot() == old(Snapshot())
      ensures Valid() && Synced()
    {
      if historyIndex > 0 {
        historyIndex := historyIndex - 1;
        input := history[historyIndex];
        Refresh();
      } else if historyIndex == 0 {
        historyIndex := -1;
        input := "";
        Refresh();
      }
    }

    /** A click on a shown suggestion puts it in place of what is being completed. */
    method ClickSuggestion(s: string)
      modifies this
      requires Valid() && Synced() && s in suggestions
      ensures Snapshot() == old(Snapshot()).(input := Picked(old(input), s),
                                             suggestions := Suggest(input, fs, path),
                                             ghostText := Ghost(input, fs, path))
      ensures Fragment(input) == s
      ensures Valid() && Synced()
    {
      PickCompletes(input, fs, path, s);
      if ' ' in input {
        var parts := SplitOn(input, ' ');
        input := parts[0] + " " + s;
      } else {
        input := s;
      }
      Refresh();
    }

    /** The upload's `onload`: the file goes into the current directory and is reported. */
    method ImportFile(name: string, content: string)
      modifies this
      requires Valid() && Synced()
      ensures Snapshot() == old(Snapshot()).(fs := InsertFile(old(fs), path, name, content),
                                             lines := old(lines) + [Out(SuccessLine, Uploaded(name))],
                                             suggestions := Suggest(input, fs, path),
                                             ghostText := Ghost(input, fs, path))
      ensures Valid() && Synced()
    {
      InsertFileAtCursor(fs, path, name, content);
      AddFile(name, content);
      lines := lines + [Out(SuccessLine, Uploaded(name))];
      Refresh();
    }

    /** The AI core's `onUpdateFile`. */
    method UpdateFile(name: string, content: string)
      modifies this
      requires Valid() && Synced()
      ensures Snapshot() == old(Snapshot()).(fs := InsertFile(old(fs), path, name, content),
                                       suggestions := Suggest(input, fs, path),
                                       ghostText := Ghost(input, fs, path))
      ensures Valid() && Synced()
    {
      InsertFileAtCursor(fs, path, name, content);
      AddFile(name, content);
      Refresh();
    }

    /** The reply a second after the black-ball alias, which depends on the clearance. */
    method ObserverReply()
      modifies this
      ensures Snapshot() == old(Snapshot()).(lines := old(lines) +
        [if CheckClearance(user) then Out(OutputLine, ObserverWatching) else Out(ErrorLine, ObserverJammed)])
    {
      if CheckClearance(user) {
        lines := lines + [Out(OutputLine, ObserverWatching)];
      } else {
        lines := lines + [Out(ErrorLine, ObserverJammed)];
      }
    }

    /** A program's `onClose`. */
    method CloseProgram()
      modifies this
      ensures Snapshot() == old(Snapshot()).(active := NoApp, options := NoOptions)
    {
      active := NoApp;
      options := NoOptions;
    }

    /** The AI core's `onNavigate`. */
    method NavigateFromAI(target: App)
      modifies this
      ensures Snapshot() == old(Snapshot()).(active := target)
    {
      active := target;
    }

    method AddContact(c: Contact)
      modifies this
      ensures Snapshot() == old(Snapshot()).(contacts := old(contacts) + [c])
    {
      contacts := contacts + [c];
    }

    method DeleteContact(id: string)
      modifies this
      ensures Snapshot() == old(Snapshot()).(contacts := RemoveById(old(contacts), id))
    {
      contacts := RemoveById(contacts, id);
    }
  }
}
