# IMCU terminal: a verified model of the shell, its file database and the login gate

The application is a retro "cassette futurism" terminal running in a browser.
A power button boots it, and a two-step login form asks for an identity, a
role and an access code. A virtual shell then works over an in-memory
directory tree: `ls`, `cd`, `cat`, `touch`, `tree`, `pwd`, `whoami`, `comms`,
and launchers for full-screen programs. It has a command history that the
arrow keys walk through, and tab completion with a "ghost" suffix. The AI
core program reads the whole tree as a flat list of files.

This project models that core in Dafny and proves what it promises.

- **Text** (`Text.dfy`) holds the string operations of the shell:
  - `trim` over the JavaScript white-space set;
  - `split(/\s+/)`;
  - `startsWith`;
  - ASCII plus Greek `toLowerCase`.
- **Split** (`Split.dfy`) holds `indexOf`, `split(' ')` and `join`, with the round trip between them.
- **FileSystem** (`FileSystem.dfy`):
  - the file-tree types, with a directory's children as an association list in property order;
  - the seed tree;
  - `getCurrentNode` as a walk;
  - `addFile` as an insertion at the deepest directory the cursor really reaches.
- **Completion** (`Completion.dfy`) is the suggestion and ghost-text effect. It is pure.
- **Contacts** (`Contacts.dfy`) holds the contact list seed and the delete filter.
- **Commands** (`Commands.dfy`) is `executeCommand` as a pure function `Step` of the state.
  - `Step` trims the line, ignores it if blank, and records it in the history.
  - It then dispatches on the lower-cased first word (`Exec`).
  - Transcript lines are `Line(kind, Msg, path)`. `Render` spells every message exactly as the shell prints it.
- **CommandProperties** (`CommandProperties.dfy`) holds the laws of `Step` and `Exec`:
  - the state invariant (`Consistent`): the cursor always names a directory, and the tree stays well formed;
  - per-command laws, with both success and error cases;
  - the clearance rule.
- **Shell** (`Terminal.dfy`) is the `Terminal` component as a class whose fields are its state variables.
  - `Execute` runs a line, `PressEnter`, `AcceptSuggestion`, `HistoryBack` and `HistoryForward` are the key handler, and `ClickSuggestion` is the suggestion click.
  - `AddFile`, `ImportFile`, the contact and program handlers complete the component.
  - The loops of the source are imperative methods: `getCurrentNode`, the descent in `addFile`, `getTreeOutput` (a recursive accumulator), and the `ls` and `comms` listings. Each loop is proved equal to the corresponding function.
- **Database** (`Database.dfy`) is `getAllFiles`, as a recursive loop method proved equal to a pre-order function. Lemmas give:
  - coverage in both directions;
  - order and count;
  - that every path starts with the starting path and `/`;
  - that distinct files have distinct paths (for keys without `/`).
- **Login** (`Login.dfy`) is the power-on, login and logout state machine of `App.tsx`.
  - It is a class `App`, whose handlers are proved against a transition function `Next` over events.
  - Each event is enabled only while its control is on screen.
  - Lemmas prove the login guarantees at every reachable state, and that the shell is entered only by an accepted access code.

Where the model differs from what one might read into the code, it follows the code:
- When the cursor path names something that no longer resolves, `addFile` inserts into the deepest directory it actually reaches (`EffectivePath`).
- `Math.min(historyIndex + 1, history.length - 1)` is `HistoryUp`.
- The switch cases `'repeater cow cat'` and `'round little black ball'` can never match, because the command word never contains white space (`SpacedAliasesUnreachable`).

## Model

| member | source | states |
|---|---|---|
| Text.Trim | components/Terminal.tsx:232 | the trimmed string is empty exactly when the input is all white space, and otherwise it starts and ends with a non-space |
| Text.TrimShape | components/Terminal.tsx:232 | the line is a white-space run, then the trimmed text, then a white-space run: trimming removes exactly the leading and trailing white space |
| Text.SplitWs | components/Terminal.tsx:241 | splitting a trimmed line on white-space runs gives non-empty words without white space, the first being the text up to the first space |
| Text.SplitWsStep | components/Terminal.tsx:241 | a word, a white-space run and a rest not starting with white space split into the word followed by the pieces of the rest, so the later pieces are the later non-space runs in order |
| Text.SplitWsWord | components/Terminal.tsx:241 | a string with no white space is one piece; with `SplitWsStep` this determines the split of every string |
| Text.SplitTwoWords | components/Terminal.tsx:241-243 | `w v` with two space-free words splits into exactly `[w, v]` |
| Split.IndexOf | components/Terminal.tsx:101 | the index of the first separator: no separator occurs before it, and it is the end of the string or holds the separator |
| Split.IndexOfFinds | components/Terminal.tsx:101 | the separator occurs exactly when the index stops before the end |
| Split.SplitOn | components/Terminal.tsx:101 | `split(' ')` gives at least one part, more than one exactly when a separator is found, and the first part is the text before the first separator |
| Split.SplitOnParts | components/Terminal.tsx:101 | there is more than one part exactly when the separator occurs, and no part contains it |
| Split.JoinSplitOn | components/Terminal.tsx:101-103 | joining the parts of a split with the separator gives back the original string |
| Split.AfterFirst | components/Terminal.tsx:103 | `parts.slice(1).join(' ')` is exactly the text after the first space |
| Text.LowerKeepsSpaces | components/Terminal.tsx:242 | lower-casing keeps the length and never creates or removes white space |
| FileSystem.Lookup | components/Terminal.tsx:84 | `children[k]` is present exactly when some entry has key `k`, is then that entry's node, and with unique keys is the node of every entry with that key |
| FileSystem.Put | components/Terminal.tsx:170-172 | `children[name] = file` makes `name` map to the file, leaves every other key's lookup unchanged, replaces in place or appends at the end, and keeps keys unique |
| FileSystem.WalkAppend | components/Terminal.tsx:79-91 | walking one more segment is one more child lookup from where the shorter walk ends |
| FileSystem.PrefixesResolve | components/Terminal.tsx:382-404 | on a valid cursor every prefix of the path also names a directory |
| FileSystem.PathOkExtend | components/Terminal.tsx:393-395 | stepping into a child directory of the cursor keeps the cursor valid |
| FileSystem.PathOkPop | components/Terminal.tsx:388 | dropping the last segment of a cursor longer than `root` keeps it valid |
| FileSystem.EffectiveOfResolved | components/Terminal.tsx:161-168 | when the cursor resolves, the directory `addFile` descends to is exactly the cursor |
| FileSystem.PutAtTarget | components/Terminal.tsx:170-172 | inserting at a directory changes that directory by exactly `Put` of the new node |
| FileSystem.PutAtFrame | components/Terminal.tsx:154-179 | the insertion leaves every path that is neither above the target directory nor inside the new node resolving as before |
| FileSystem.PutAtWellFormed | components/Terminal.tsx:154-179 | inserting a well-formed node under its own name keeps the tree well formed, with the root's name and kind kept |
| FileSystem.InsertFileAtCursor | components/Terminal.tsx:154-179 | `addFile` on a valid cursor makes the cursor directory hold the new file under its name, and keeps the tree well formed and the cursor valid |
| FileSystem.InsertFileIdempotent | components/Terminal.tsx:154-179 | adding the same file twice yields the same tree as adding it once |
| FileSystem.PutIdempotent | components/Terminal.tsx:172 | assigning the same child twice is the same as once |
| FileSystem.SeedWellFormed | data.ts:4-253 | the seed tree has unique keys in every directory and each node is named as its key |
| Completion.Filter | components/Terminal.tsx:109-126 | the filter keeps exactly the candidates that start with the typed text, and its first result is the first such candidate |
| Completion.FilterAppend | components/Terminal.tsx:109-126 | filtering distributes over concatenation, so the kept candidates stay in their original order and multiplicity |
| Completion.FilterOne | components/Terminal.tsx:109-126 | a single candidate is kept exactly when it starts with the typed text |
| Completion.FilterFirst | components/Terminal.tsx:109-126 | the first candidate that starts with the typed text heads the filtered list |
| Completion.DirNames | components/Terminal.tsx:117-119 | the `cd` candidates are exactly the keys of the child directories |
| Completion.DirNamesAppend | components/Terminal.tsx:117-119 | the directory keys distribute over concatenation of entries, so they come in entry order |
| Completion.DirNamesOne | components/Terminal.tsx:117-119 | a single entry contributes its key exactly when it is a directory |
| Completion.FileNames | components/Terminal.tsx:123-125 | the `cat` candidates are exactly the keys of the child files |
| Completion.FileNamesAppend | components/Terminal.tsx:123-125 | the file keys distribute over concatenation of entries, so they come in entry order |
| Completion.FileNamesOne | components/Terminal.tsx:123-125 | a single entry contributes its key exactly when it is a file |
| Completion.ArgIsAfterFirstSpace | components/Terminal.tsx:101-104 | once a space is typed, the argument being completed is the text after the first space |
| Completion.SuggestionsExtend | components/Terminal.tsx:94-150 | every suggestion starts with the fragment being completed |
| Completion.CommandCandidates | components/Terminal.tsx:108-110 | with no space typed, `s` is suggested exactly when it is a command that starts with the lower-cased input |
| Completion.CdCandidates | components/Terminal.tsx:115-120 | after `cd `, `s` is suggested exactly when it starts with the argument and is `..` or a child directory; the list is `..` (when it matches) followed by the matching directories in entry order |
| Completion.CdDotDotFirst | components/Terminal.tsx:115-120 | while the `cd` argument is a prefix of `..`, `..` is the first suggestion |
| Completion.CdGhost | components/Terminal.tsx:115-149 | with nothing typed after `cd `, the ghost text is `..` |
| Completion.CdSpaceGhost | components/Terminal.tsx:115-149 | `cd ` at the home directory of the seed tree shows the ghost `..` |
| Completion.CatCandidates | components/Terminal.tsx:121-126 | after `cat `, `s` is suggested exactly when it starts with the argument and is a child file |
| Completion.NoArgumentSuggestions | components/Terminal.tsx:127-135 | arguments of commands other than cd, cat, ai and cam get no suggestions |
| Completion.CommandSuggestions | components/Terminal.tsx:20-24 | command suggestions are commands, each a lower-case word |
| Completion.Ghost | components/Terminal.tsx:138-149 | the ghost text is non-empty exactly when the first suggestion strictly extends the fragment, and then the fragment plus the ghost text is that suggestion |
| Completion.AcceptCompletes | components/Terminal.tsx:444-448 | accepting the ghost text makes the fragment being completed equal to the first suggestion |
| Completion.ExtendArgument | components/Terminal.tsx:444-448 | appending text while in an argument extends the argument by that text |
| Completion.CommandGhostExample | components/Terminal.tsx:106-149 | `ca` shows the ghost `t`: `cat` is the first command with that prefix, ahead of `cam` |
| Completion.FirstCaCommand | components/Terminal.tsx:20-24 | the first command name starting with `ca` is `cat` |
| Completion.EmptyInputQuiet | components/Terminal.tsx:95-99 | an empty input has no suggestions and no ghost text |
| Completion.PickCompletes | components/Terminal.tsx:555-566 | clicking any suggestion makes it exactly the fragment being completed |
| Contacts.RemoveById | components/Terminal.tsx:226-228 | deleting by id keeps exactly the contacts with another id, in order, and changes nothing when no contact has that id |
| Contacts.RemoveAppend | components/Terminal.tsx:226-228 | the delete filter distributes over concatenation |
| Contacts.DeleteUndoesAdd | components/Terminal.tsx:222-228 | adding a contact and then deleting its id equals deleting its id without the addition |
| Contacts.DeleteIdempotent | components/Terminal.tsx:226-228 | deleting the same id twice is deleting it once |
| CommandProperties.BlankIsIgnored | components/Terminal.tsx:232-233 | a line of white space changes nothing at all |
| CommandProperties.LineIsRecorded | components/Terminal.tsx:238-239 | every other line is prepended trimmed to the history and resets the history index, whatever the command |
| CommandProperties.HistoryCountsLines | components/Terminal.tsx:232-239 | after a run of lines the history has grown by exactly the number of non-blank ones |
| CommandProperties.ClearEmptiesTranscript | components/Terminal.tsx:268-270 | `clear` empties the transcript and changes nothing but the history |
| CommandProperties.LogoutChangesNothingElse | components/Terminal.tsx:425-427 | `logout` changes only the history and appends no line |
| CommandProperties.EchoPrecedesResponse | components/Terminal.tsx:245-247 | the new lines start with the echo of the trimmed line at the prompt path and the old lines are kept |
| CommandProperties.UnknownWordReported | components/Terminal.tsx:429-432 | an unknown word appends the echo and the unknown-command error and changes no other state |
| CommandProperties.Frame | components/Terminal.tsx:250-432 | only `cd` moves the cursor, only `touch` changes the tree, only the launchers change the program, and contacts and input are untouched |
| CommandProperties.StepKeepsConsistent | components/Terminal.tsx:231-438 | every line keeps the tree well formed, the cursor on a directory and the history index in range |
| CommandProperties.ExecKeepsConsistent | components/Terminal.tsx:250-432 | every command keeps the state invariant |
| CommandProperties.NextPathOk | components/Terminal.tsx:382-404 | the cursor after any command names a directory |
| CommandProperties.NextFsOk | components/Terminal.tsx:300-308 | the tree after any command is well formed and the cursor still resolves in it |
| CommandProperties.CdIntoDirectory | components/Terminal.tsx:392-395 | `cd d` into a child directory appends `d` to the cursor with no error |
| CommandProperties.CdIntoFile | components/Terminal.tsx:396-398 | `cd f` on a child file keeps the cursor and reports not-a-directory |
| CommandProperties.CdMissing | components/Terminal.tsx:399-401 | `cd x` of a missing child keeps the cursor and reports no such directory |
| CommandProperties.CdUp | components/Terminal.tsx:387-388 | `cd ..` drops the last segment unless the cursor is at `root` |
| CommandProperties.CdUpUndoesCdInto | components/Terminal.tsx:387-395 | `cd d` followed by `cd ..` returns to the original cursor |
| CommandProperties.CdHome | components/Terminal.tsx:383-390 | `cd` and `cd /` return to `root` |
| CommandProperties.CatFile | components/Terminal.tsx:412-415 | `cat f` of a child file prints its content and changes nothing else |
| CommandProperties.CatErrors | components/Terminal.tsx:416-421 | `cat` of a directory or a missing name reports the matching error |
| CommandProperties.UsageErrors | components/Terminal.tsx:301-302 | `touch` and `cat` without an argument report their usage and leave the tree alone |
| CommandProperties.TouchCreatesFile | components/Terminal.tsx:303-307 | `touch f` puts a new file `f` with the default content in the cursor directory, reports it and keeps the invariant |
| CommandProperties.TouchThenCat | components/Terminal.tsx:300-421 | `cat f` right after `touch f` prints the default content |
| CommandProperties.TypedTouchThenCat | components/Terminal.tsx:231-438 | the same for the two typed lines `touch f` and `cat f` |
| CommandProperties.TouchTwice | components/Terminal.tsx:300-308 | touching the same name twice leaves the tree as after once |
| CommandProperties.PwdPrintsPath | components/Terminal.tsx:290-292 | `pwd` prints the working directory, which starts with `/root` |
| CommandProperties.LsListsEntries | components/Terminal.tsx:366-380 | `ls` prints one row per child, in order, each its key with `/` for directories, or the empty-directory line |
| CommandProperties.TreeLinesPrefixed | components/Terminal.tsx:196-210 | every tree line starts with the prefix it was drawn at |
| CommandProperties.TreeLinesCount | components/Terminal.tsx:196-210 | the tree has one line per node below the directory |
| CommandProperties.TreeOfFiles | components/Terminal.tsx:198-203 | for a directory of files line `i` is the prefix, the connector (`└── ` for the last) and the key |
| CommandProperties.TreeListsNodes | components/Terminal.tsx:355-364 | `tree` appends the echo, `.` and one line per node |
| CommandProperties.LaunchPrograms | components/Terminal.tsx:272-274 | `sys`, `map` and `scan` open their program and add no response |
| CommandProperties.AiModel | components/Terminal.tsx:276-281 | `ai` opens the AI core, with the flash model exactly when `-flash` or `--flash` is an argument |
| CommandProperties.CamModel | components/Terminal.tsx:283-288 | `cam` opens the camera view, with the pro model exactly when `-pro` or `--pro` is an argument |
| CommandProperties.ClearanceByName | components/Terminal.tsx:54-57 | high clearance exactly when the lower-cased name, or the lower-cased trimmed name, is one of the five lower-cased high names |
| CommandProperties.WhoamiReportsClearance | components/Terminal.tsx:319-331 | `whoami` reports the user, then high clearance (with the alias line only for `Ω`) or low clearance and the warning |
| CommandProperties.SpacedAliasesUnreachable | components/Terminal.tsx:333-343 | the command word is never `repeater cow cat` or `round little black ball` |
| Shell.SeedIsConsistent | data.ts:4-253 | the seed tree with the cursor at `root` satisfies the shell invariant |
| Shell.BrowsingStaysInRange | components/Terminal.tsx:452-471 | arrow up and arrow down keep the history index within the history |
| Shell.UpsReach | components/Terminal.tsx:454-458 | `k` presses of arrow up from -1 reach entry `min(k, n) - 1` |
| Shell.DownUndoesUp | components/Terminal.tsx:452-471 | arrow down undoes arrow up below the oldest entry |
| Shell.ListChildren | components/Terminal.tsx:366-380 | the `ls` loop produces exactly the listing function |
| Shell.ListContacts | components/Terminal.tsx:310-317 | the `comms` loop produces exactly the contact rows |
| Shell.GetTreeOutput | components/Terminal.tsx:196-210 | the recursive accumulator returns the given lines followed by the tree lines of the directory |
| Shell.TreeReport | components/Terminal.tsx:355-364 | the `tree` response is built from `getTreeOutput` on the cursor directory |
| Shell.GetCurrentNode | components/Terminal.tsx:79-91 | the loop returns the walk of the path without its first segment |
| Shell.AddFileTarget | components/Terminal.tsx:161-168 | the descent loop of `addFile` ends at the effective path |
| Shell.Terminal.constructor | components/Terminal.tsx:27-47 | the initial state: banner, empty input, cursor `root`, seed tree and contacts, invariant and synchronised suggestions |
| Shell.Terminal.AddFile | components/Terminal.tsx:154-179 | `addFile` replaces the tree by the insertion at the cursor and nothing else |
| Shell.Terminal.Execute | components/Terminal.tsx:231-438 | running a line changes the state exactly as `Step`, reports logout exactly for `logout`, and keeps the invariant |
| Shell.Terminal.PressEnter | components/Terminal.tsx:441-443 | Enter runs the input and clears it and the suggestions |
| Shell.Terminal.SetInput | components/Terminal.tsx:539 | typing sets the input and recomputes suggestions and ghost text |
| Shell.Terminal.AcceptSuggestion | components/Terminal.tsx:444-451 | Tab or arrow right appends the ghost text when there is one, changing only the input and the recomputed suggestions, and does nothing otherwise; the fragment then reads as the first suggestion |
| Shell.Terminal.HistoryBack | components/Terminal.tsx:452-459 | arrow up moves to the next older entry, capped at the oldest, and shows it; only the index, the input and the recomputed suggestions change |
| Shell.Terminal.HistoryForward | components/Terminal.tsx:460-471 | arrow down moves to the next newer entry, or back to an empty input from the newest; only the index, the input and the recomputed suggestions change |
| Shell.Terminal.ClickSuggestion | components/Terminal.tsx:555-566 | a click keeps the command before the first space and puts the suggestion as the fragment; only the input and the recomputed suggestions change |
| Shell.Terminal.ImportFile | components/Terminal.tsx:181-193 | a loaded file is added at the cursor and the upload line is appended; nothing but the tree, the transcript and the recomputed suggestions changes |
| Shell.Terminal.UpdateFile | components/Terminal.tsx:502 | the AI core's file update is an `addFile` |
| Shell.Terminal.ObserverReply | components/Terminal.tsx:345-352 | the delayed observer reply depends on the clearance |
| Shell.Terminal.CloseProgram | components/Terminal.tsx:212-216 | closing a program clears it and its options |
| Shell.Terminal.NavigateFromAI | components/Terminal.tsx:218-220 | the AI core can switch to another program |
| Shell.Terminal.AddContact | components/Terminal.tsx:222-224 | a contact is appended |
| Shell.Terminal.DeleteContact | components/Terminal.tsx:226-228 | the contacts with that id are removed |
| Database.GetAllFiles | components/AIXi001.tsx:29-41 | the loop with its recursive calls returns exactly the pre-order list of file records |
| Database.AllFilesAppend | components/AIXi001.tsx:32-38 | the records of consecutive entries are the records of each, in listing order |
| Database.AllFilesCount | components/AIXi001.tsx:34-38 | one record per file node, none for directories |
| Database.AllFilesUnder | components/AIXi001.tsx:35-37 | every record path is the starting path followed by `/` and more |
| Database.PathsAreAbsolute | components/AIXi001.tsx:109 | from the empty starting path every record path begins with `/` |
| Database.ReachableFilesListed | components/AIXi001.tsx:29-41 | every file reachable from the directory is listed, with its name and content and the walk as path |
| Database.ListedFilesReachable | components/AIXi001.tsx:29-41 | in a well-formed tree every record is that of a reachable file |
| Database.DistinctPaths | components/AIXi001.tsx:35-37 | with unique keys and no `/` inside keys, distinct records have distinct paths |
| Database.BelowDistinct | components/AIXi001.tsx:35-37 | paths below two different slash-free keys of a directory differ |
| Database.PathCollision | components/AIXi001.tsx:35-37 | a key containing `/` next to a directory of that name gives two records with the same path |
| Login.IdentityStep | App.tsx:81-93 | at the identity step the form moves to the code step exactly for a non-blank identity, clears the error and makes a blank role `VISITOR`, and otherwise only sets `IDENTITY_REQUIRED` |
| Login.PasswordStep | App.tsx:94-103 | at the code step the shell is shown exactly for an accepted code, and otherwise the step stays, the code is cleared and `INVALID_ACCESS_CODE` is set |
| Login.AcceptedCodes | App.tsx:95 | the accepted codes are `1234` and `imcu` with each letter in either case |
| Login.BlankTrimsToEmpty | App.tsx:84 | a blank string is one that trims to the empty string |
| Login.NextKeepsValid | App.tsx:22-117 | every enabled event keeps the login guarantees |
| Login.TraceKeepsValid | App.tsx:22-117 | the login guarantees hold after any sequence of enabled events |
| Login.TerminalOnlyByAccessCode | App.tsx:94-97 | the shell is entered only by submitting an accepted code at the code step |
| Login.BootOnlyByPower | App.tsx:22-25 | the boot screen is entered only by the power button from the dark screen |
| Login.LogoutForgets | App.tsx:106-117 | logout is the power-on state at the login screen, whatever the session was |
| Login.RoleChoice | App.tsx:281-288 | CUSTOM opens the custom field with a blank role, any other button sets its id, and nothing else changes |
| Login.CancelUndoesCustom | App.tsx:281-326 | opening the custom field and cancelling it leaves the role `VISITOR` and the picker back |
| Login.App.constructor | App.tsx:8-20 | the initial state is dark, at the identity step, with role `VISITOR` |
| Login.App.PowerOn | App.tsx:22-25 | power-on moves the dark screen to boot |
| Login.App.FinishBoot | App.tsx:72-74 | the end of the boot shows the login screen |
| Login.App.TypeCredential | App.tsx:255-259 | the login input edits the identity at the first step and the code at the second |
| Login.App.Submit | App.tsx:79-104 | submitting follows `handleLogin` and keeps the login guarantees |
| Login.App.PickRole | App.tsx:281-288 | a role button follows its handler |
| Login.App.TypeRole | App.tsx:319 | the custom role input sets the role |
| Login.App.CancelOverride | App.tsx:326 | cancelling the override sets the role to `VISITOR` and closes the custom field |
| Login.App.Logout | App.tsx:106-117 | logout resets every login field, the boot counters and the view |

## Left out

- Rendering, CSS and layout (the JSX of every component) are not modelled; they are presentation only.
- Sound effects (`soundManager.*`) are left out. They have no effect on the state.
- Timers:
  - The boot sequence's timers and random progress increments are reduced to one event, `BootEnds`, which leaves `bootStep` at 4 and `loadingProgress` at 100.
  - The one-second delay before the observer reply is reduced to a method, `ObserverReply`, that appends the reply.
  - Focus and scroll effects are left out.
- `loadingProgress` is a floating-point number in the source. Here it is a natural number that only the boot end and logout set.
- The browser file picker and `FileReader` are I/O. Only their effect is modelled, as `ImportFile`. The `import` command prints the tape-reader line and changes no state.
- The generative-AI calls, live audio, the camera view, the world map, the system monitor and the bio-scan are foreign or random code. Only whether a program is open, and with which model option, is modelled.
- The quick-action buttons under the prompt are left out. They are a shortcut for typing and running a fixed command.
- The message texts:
  - The help, banner, `whoami`, `comms`, error and success texts are messages of a datatype.
  - `Render` gives their exact wording.
  - The contact prompts and the seed file contents are abbreviated. Seed files keep their first line, and contacts have empty persona prompts.
- JavaScript lookup quirks:
  - Keys inherited from `Object.prototype` (`constructor` and others) count as absent here.
  - Integer-like keys, which JavaScript lists first, keep their insertion order here.
- Text.LowerChar: lower-cases ASCII and the Greek capitals only. It does not model the final sigma or other Unicode case mappings.
- The suggestion effect runs after every render in React. Here `Refresh` runs it at the end of each handler that changes the input, the cursor or the tree, and `Synced` states that it has.
- CommandProperties.CdUpUndoesCdInto: requires a non-empty cursor; the shell invariant always provides one, so the lemma is stated under that assumption rather than for arbitrary states.
- Database.DistinctPaths: holds only when no key contains `/`. A key such as `a/b` can be created with `touch a/b`, and then the paths collide, as `Database.PathCollision` shows.
