/**
 * What the shell does with one submitted line, as a function of the state
 * before it: the transcript lines it appends, and the new cursor, tree,
 * running program, program options, history and completion state.
 *
 * The line is trimmed and split on runs of white space; the first word,
 * lower-cased, selects the command and the remaining words are its
 * arguments.
 */
module Commands {
  import opened Wrappers
  import opened Text
  import opened Split
  import opened FileSystem
  import opened Contacts

  datatype LineType = InputLine | OutputLine | SystemLine | ErrorLine | SuccessLine

  /**
   * What a transcript line says. `Render` gives the exact text the shell
   * prints for each; `Raw` carries text taken from the data itself (the
   * echoed line, a file's content, a listing row).
   */
  datatype Msg =
    | Raw(text: string)
    | Banner(n: nat)
    | HelpLine(n: nat)
    | WorkingDir(segs: seq<string>)
    | TapeReader
    | TouchUsage
    | Created(name: string)
    | Uploaded(name: string)
    | CommsHeader
    | ContactRow(contact: Contact)
    | CommsTip
    | CurrentUser(user: string)
    | HighClearance
    | CowCatAlias
    | LowClearance
    | RestrictedWarning
    | CowCatWelcome
    | CowCatDenied
    | CallingObserver
    | ObserverWatching
    | ObserverJammed
    | EmptyDir
    | NotADirectory(name: string)
    | NoSuchDirectory(name: string)
    | IsADirectory(name: string)
    | NoSuchFile(name: string)
    | CatUsage
    | UnknownCommand(word: string)

  /** One transcript line; echoed commands carry the prompt path they were typed at. */
  datatype Line = Line(kind: LineType, msg: Msg, path: Option<string>)

  /** The full-screen program over the shell, if any. */
  datatype App = NoApp | SystemMonitor | WorldMap | BioScan | AiCore | Surveillance

  datatype Model = Flash | Pro

  /** The options object passed to the AI core and the camera view. */
  datatype Options = NoOptions | InitialModel(model: Model)

  datatype State = State(
    lines: seq<Line>,
    input: string,
    path: seq<string>,
    history: seq<string>,
    historyIndex: int,
    fs: Node,
    active: App,
    options: Options,
    suggestions: seq<string>,
    ghostText: string,
    contacts: seq<Contact>)

  datatype Command =
    | Help | Clear | Sys | Map | Scan | Ai | Cam | Pwd | Import | Touch | Comms
    | Whoami | CowCat | Observer | Tree | Ls | Cd | Cat | Logout | Unknown

  /** The command a lower-cased first word selects. */
  function Parse(w: string): Command {
    if w == "help" then Help
    else if w == "clear" then Clear
    else if w == "sys" then Sys
    else if w == "map" then Map
    else if w == "scan" then Scan
    else if w == "ai" then Ai
    else if w == "cam" then Cam
    else if w == "pwd" then Pwd
    else if w == "import" || w == "upload" then Import
    else if w == "touch" then Touch
    else if w == "comms" then Comms
    else if w == "whoami" then Whoami
    else if w == "复读奶牛猫" || w == "repeater cow cat" then CowCat
    else if w == "圆圆小黑球" || w == "round little black ball" then Observer
    else if w == "tree" then Tree
    else if w == "ls" then Ls
    else if w == "cd" then Cd
    else if w == "cat" then Cat
    else if w == "logout" then Logout
    else Unknown
  }

  function Out(k: LineType, m: Msg): Line {
    Line(k, m, None)
  }

  /** The names that grant the highest clearance, compared case-insensitively. */
  const HighNames: seq<string> := ["Ω", "Omega", "Observer", "观察者", "Observation"]

  /** `checkClearance(u)`: the name, or the name trimmed, is one of the high names. */
  predicate CheckClearance(u: string) {
    exists i :: 0 <= i < |HighNames| && (Lower(HighNames[i]) == Lower(u) || Lower(HighNames[i]) == Lower(Trim(u)))
  }

  /** The prompt path `~/a/b` of a cursor. */
  function PromptPath(path: seq<string>): string {
    "~/" + Join(Tail(path), "/")
  }

  /** The transcript echo of a submitted line, with the prompt path it was typed at. */
  function Echo(t: string, path: seq<string>): Line {
    Line(InputLine, Raw(t), Some(PromptPath(path)))
  }

  const HelpTexts: seq<string> := [
    "可用命令 (AVAILABLE COMMANDS):",
    "  ls            - 列出当前目录 (List Directory)",
    "  cd [目录]     - 切换目录 (Change Directory)",
    "  cat [文件]    - 读取文件 (Read File)",
    "  import        - 导入文件 (Import File)",
    "  touch [名称]   - 创建新文件 (New File)",
    "  comms         - 通讯录 (Contact List)",
    "  pwd           - 显示当前路径 (Print Path)",
    "  clear         - 清空屏幕 (Clear Screen)",
    "--- VISUAL SUBSYSTEMS ---",
    "  sys           - 系统监控 (System Monitor)",
    "  map           - 全球防御 (Global Defense)",
    "  scan          - 生物扫描 (Bio-Scanner)",
    "  ai [-flash]   - AI核心 (Use -flash for speed / 使用flash模型提速)",
    "  cam [-pro]    - 闭路监控 (Use -pro for HD / 使用pro模型高清)"
  ]

  const BannerTexts: seq<string> := [
    "IMCU SECURE TERMINAL v4.4",
    "输入 \"help\" 查看可用命令 (Type \"help\")",
    "连接已建立 (Connection Established)."
  ]

  /** The exact text of each message. */
  function Render(m: Msg): string {
    match m
    case Raw(t) => t
    case Banner(n) => if n < |BannerTexts| then BannerTexts[n] else ""
    case HelpLine(n) => if n < |HelpTexts| then HelpTexts[n] else ""
    case WorkingDir(segs) => "/" + Join(segs, "/")
    case TapeReader => "正在初始化磁带读取器... (INIT TAPE READER)"
    case TouchUsage => "用法: touch [文件名]"
    case Created(f) => "文件 '" + f + "' 已创建。"
    case Uploaded(f) => "文件 '" + f + "' 上传成功 (UPLOAD COMPLETE)."
    case CommsHeader => "--- IMCU SECURE CONTACTS ---"
    case ContactRow(c) => ContactLine(c)
    case CommsTip => "Tip: Access \"AI Core\" to send encrypted messages or add contacts."
    case CurrentUser(u) => "当前用户: " + u
    case HighClearance => "安全许可: Ω-IX (最高权限 / HIGHEST)"
    case CowCatAlias => "备注: 别名 \"复读奶牛猫\" (Alias: Repeater Cow Cat)"
    case LowClearance => "安全许可: Level-II (受限访问 / RESTRICTED)"
    case RestrictedWarning => "警报：您正在访问高级加密终端。部分功能可能被锁定。"
    case CowCatWelcome => ">> 检测到最高权限生物特征。欢迎您，复读奶牛猫阁下 (Ω)。"
    case CowCatDenied => ">> 访问被拒绝。你不是那只猫。"
    case CallingObserver => ">> 正在呼叫观察者 (The Observer)..."
    case ObserverWatching => "Observer: \"我在看着你... (I am watching you...)\""
    case ObserverJammed => "Observer: \"这不是你该看的东西。\" (System: Signal Jammed)"
    case EmptyDir => "(空目录 / EMPTY)"
    case NotADirectory(d) => "错误：'" + d + "' 不是目录"
    case NoSuchDirectory(d) => "错误：目录 '" + d + "' 不存在"
    case IsADirectory(f) => "错误：'" + f + "' 是目录"
    case NoSuchFile(f) => "错误：文件 '" + f + "' 不存在"
    case CatUsage => "用法: cat [文件名]"
    case UnknownCommand(w) => "未知命令: " + w
  }

  /** The fifteen help lines; the tenth is a section heading. */
  function HelpLines(): seq<Line> {
    seq(15, i requires 0 <= i < 15 => Out(if i == 9 then SystemLine else OutputLine, HelpLine(i)))
  }

  const NewFileContent := "New file content..."

  function Suffix(n: Node): string {
    if n.Dir? then "/" else ""
  }

  /** The `ls` listing of a directory's entries. */
  function LsLines(cs: seq<Entry>): seq<Line> {
    if cs == [] then [Out(OutputLine, EmptyDir)]
    else seq(|cs|, i requires 0 <= i < |cs| => Out(OutputLine, Raw(cs[i].key + Suffix(cs[i].node))))
  }

  /** The branch drawn before an entry: the last entry of a directory closes it. */
  function Connector(last: bool): string {
    if last then "└── " else "├── "
  }

  /** The prefix of the lines under an entry: a continued branch, unless it was the last. */
  function ChildPrefix(prefix: string, last: bool): string {
    prefix + (if last then "    " else "│   ")
  }

  function TreeLine(prefix: string, last: bool, e: Entry): string {
    prefix + Connector(last) + e.key + Suffix(e.node)
  }

  /** The lines `getTreeOutput` produces for the entries `cs` under `prefix`. */
  function TreeLines(cs: seq<Entry>, prefix: string): seq<string>
    decreases cs
  {
    if cs == [] then []
    else
      var last := |cs| == 1;
      var sub := if cs[0].node.Dir? then TreeLines(cs[0].node.children, ChildPrefix(prefix, last)) else [];
      [TreeLine(prefix, last, cs[0])] + sub + TreeLines(cs[1..], prefix)
  }

  /** The number of nodes below the entries `cs`, the entries included. */
  function Count(cs: seq<Entry>): nat
    decreases cs
  {
    if cs == [] then 0
    else 1 + (if cs[0].node.Dir? then Count(cs[0].node.children) else 0) + Count(cs[1..])
  }

  /** The `comms` listing. */
  function CommsLines(cs: seq<Contact>): seq<Line> {
    [Out(SystemLine, CommsHeader)] +
    seq(|cs|, i requires 0 <= i < |cs| => Out(OutputLine, ContactRow(cs[i]))) +
    [Out(SystemLine, CommsTip)]
  }

  function WhoamiLines(user: string): seq<Line> {
    [Out(OutputLine, CurrentUser(user))] +
    if CheckClearance(user) then
      [Out(OutputLine, HighClearance)] +
      (if user == "Ω" then [Out(SystemLine, CowCatAlias)] else [])
    else
      [Out(OutputLine, LowClearance), Out(SystemLine, RestrictedWarning)]
  }

  /** The lines `cd target` reports (none when it moves). */
  function CdLines(s: State, args: seq<string>): seq<Line> {
    if args == [] || args[0] == ".." || args[0] == "/" then []
    else
      var t := args[0];
      var c := Child(Resolve(s.fs, s.path), t);
      if c.Some? then
        if c.value.Dir? then [] else [Out(ErrorLine, NotADirectory(t))]
      else [Out(ErrorLine, NoSuchDirectory(t))]
  }

  function CatLines(s: State, args: seq<string>): seq<Line> {
    if args == [] then [Out(ErrorLine, CatUsage)]
    else
      var t := args[0];
      var c := Child(Resolve(s.fs, s.path), t);
      if c.Some? then
        if c.value.File? then [Out(OutputLine, Raw(c.value.content))] else [Out(ErrorLine, IsADirectory(t))]
      else [Out(ErrorLine, NoSuchFile(t))]
  }

  /** The lines of `tree`: `.`, then the listing of the current directory. */
  function TreeOutput(fs: Node, path: seq<string>): seq<Line> {
    var n := Resolve(fs, path);
    [Out(OutputLine, Raw("."))] +
    if IsDir(n) then
      var t := TreeLines(n.value.children, "");
      seq(|t|, i requires 0 <= i < |t| => Out(OutputLine, Raw(t[i])))
    else []
  }

  /** The lines a command appends after the echo. */
  function Respond(c: Command, w: string, args: seq<string>, s: State, user: string): seq<Line> {
    match c
    case Help => HelpLines()
    case Pwd => [Out(OutputLine, WorkingDir(s.path))]
    case Import => [Out(SystemLine, TapeReader)]
    case Touch =>
      if args == [] then [Out(ErrorLine, TouchUsage)]
      else [Out(SuccessLine, Created(args[0]))]
    case Comms => CommsLines(s.contacts)
    case Whoami => WhoamiLines(user)
    case CowCat => if user == "Ω" then [Out(SuccessLine, CowCatWelcome)] else [Out(ErrorLine, CowCatDenied)]
    case Observer => [Out(SystemLine, CallingObserver)]
    case Tree => TreeOutput(s.fs, s.path)
    case Ls =>
      var n := Resolve(s.fs, s.path);
      if IsDir(n) then LsLines(n.value.children) else []
    case Cd => CdLines(s, args)
    case Cat => CatLines(s, args)
    case Unknown => [Out(ErrorLine, UnknownCommand(w))]
    case _ => []
  }

  /** The cursor after the command. */
  function NextPath(c: Command, args: seq<string>, s: State): seq<string> {
    if c != Cd then s.path
    else if args == [] || args[0] == "/" then ["root"]
    else if args[0] == ".." then (if |s.path| > 1 then s.path[..|s.path| - 1] else s.path)
    else if IsDir(Child(Resolve(s.fs, s.path), args[0])) then s.path + [args[0]]
    else s.path
  }

  /** The tree after the command: only `touch name` changes it. */
  function NextFs(c: Command, args: seq<string>, s: State): Node {
    if c == Touch && args != [] then InsertFile(s.fs, s.path, args[0], NewFileContent) else s.fs
  }

  function NextApp(c: Command, s: State): App {
    match c
    case Sys => SystemMonitor
    case Map => WorldMap
    case Scan => BioScan
    case Ai => AiCore
    case Cam => Surveillance
    case _ => s.active
  }

  /** The program options after the command; without a model flag they are left as they were. */
  function NextOptions(c: Command, args: seq<string>, s: State): Options {
    if c == Ai && ("-flash" in args || "--flash" in args) then InitialModel(Flash)
    else if c == Cam && ("-pro" in args || "--pro" in args) then InitialModel(Pro)
    else s.options
  }

  /** The first word of a trimmed line, lower-cased. */
  function CommandWord(t: string): string {
    Lower(SplitWs(t)[0])
  }

  function Arguments(t: string): seq<string> {
    SplitWs(t)[1..]
  }

  /** Whether submitting `raw` ends the session. */
  predicate IsLogout(raw: string) {
    Trim(raw) != "" && Parse(CommandWord(Trim(raw))) == Logout
  }

  /** `executeCommand(raw)` for the signed-in `user`. */
  function Step(s: State, raw: string, user: string): State {
    var t := Trim(raw);
    if t == "" then s
    else Exec(s, t, Parse(CommandWord(t)), CommandWord(t), Arguments(t), user)
  }

  /**
   * The effect of the non-blank trimmed line `t`, whose command word `w`
   * selects `c` and whose remaining words are `args`.
   */
  function Exec(s: State, t: string, c: Command, w: string, args: seq<string>, user: string): State {
    var s1 := s.(history := [t] + s.history, historyIndex := -1);
    if c == Clear then s1.(lines := [])
    else if c == Logout then s1
    else
      s1.(lines := s.lines + [Echo(t, s.path)] + Respond(c, w, args, s, user),
          path := NextPath(c, args, s),
          fs := NextFs(c, args, s),
          active := NextApp(c, s),
          options := NextOptions(c, args, s),
          suggestions := [],
          ghostText := "")
  }
}
