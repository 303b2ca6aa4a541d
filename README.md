# A verified model of the term.js line editor and shell

term.js runs a small fake shell in an xterm.js terminal on a web page. This
project models its core in Dafny and proves properties of the model:

- the `IO` class's line editor: the input buffer, the cursor, the command
  history and its draft slot, and the key handlers that change them;
- `cleanString`, the input sanitiser;
- the cursor arithmetic: `setCursorOffset`, `setCursorPosition`,
  `rewriteInput`, and the `ESC[row;colH` text they write;
- the kill and pending-request state (`rejected`, `inputResolver`,
  `rejecter`) shared by `handleInput`, `print`, `readLine` and `sleep`;
- `Shell.runCommand`: trim, split on white space, look the name up;
- the lookup done by the `help` command.

Modules, one per file:

- `Text` (text.dfy). JavaScript strings as sequences of UTF-16 code units.
  It has `cleanString`, the newline normalisation at the top of
  `handleInput`, `trim`, `split(/\s+/)` and the `*` mask of hidden input.
- `Decimal` (decimal.dfy). How a number is written into a template literal,
  and how that text is read back.
- `Grid` (grid.dfy). The cursor origin and the cursor-position escape, with
  its own parser. The parser proves that the escape text determines the
  escape.
- `Editor` (editor.dfy). The edit state and one pure function per key
  handler. Each function returns the new state and what it writes.
- `Term` (term.dfy). The request state, the `handleInput` dispatch, and
  `print`/`readLine`/`sleep` as pure steps. It also holds the class `IO`,
  whose fields and methods follow the source. Each method changes its
  fields in place and is proved equal to the pure step of the same name.
- `Shell` (shell.dfy). `runCommand`, the `help` output, the command registry
  of term.js, and the lookup as written (see Findings).

The values the code reads from xterm.js are parameters:

- `Screen`: `cols`, `rows`, `viewportY`;
- `Readings`: `cursorX` and `cursorY` after a write.

Terminal output is kept structured, as a sequence of `Piece`s: cursor
moves, erase, echoed text, show/hide cursor, CR LF. `Render` gives the
exact text that `term.write` receives.

A pending promise is modelled by which caller is waiting:

- `reading` stands for `inputResolver !== null`;
- `rejecter` names the waiter, either the reader or the sleeper.

Each event, together with its write callback, is one atomic step. A step's
`Signal` says what settles: nothing, a kill of a waiter, or the delivery of
a line.

## Model

| member | source | states |
|---|---|---|
| Text.CleanString | term.js:167-173 | cleanString leaves only printable ASCII (0x20..0x7E), and the result is as long as the input minus its code units in 0x00..0x1F and 0x7F |
| Text.DropControls | term.js:170 | the first replace removes exactly the control code units: none is left, and the length drops by their count |
| Text.ReplaceNonAscii | term.js:172 | the second replace keeps the length (one `?` per non-ASCII code unit) |
| Text.CleanStringIdempotent | term.js:167-173 | cleaning twice gives the same as cleaning once |
| Text.CleanStringOfPrintable | term.js:167-173 | printable ASCII text passes through unchanged |
| Text.CleanStringConcat | term.js:167-173 | cleaning works one code unit at a time: clean(a + b) = clean(a) + clean(b) |
| Text.CleanStringUnit | term.js:167-173 | a single code unit is deleted if it is a control, becomes `?` if it is not ASCII, and is otherwise kept |
| Text.CollapseCrLf | term.js:176 | the first replace never makes the text longer, and gives empty text only for empty text |
| Text.CollapseKeepsText | term.js:176 | the first replace removes line feeds and nothing else: with line feeds taken out, input and output are the same |
| Text.LfToCr | term.js:176 | the second replace keeps the length and leaves no LF |
| Text.NormalizeNewlines | term.js:176 | after the two replaces no LF is left and the text is not longer |
| Text.NormalizeEnter | term.js:176 | CR, LF and CR LF all become the single CR that handleInput compares with for Enter |
| Text.NormalizeEnterOnly | term.js:176 | only CR, LF and CR LF normalise to the lone CR, so no other input is taken for Enter |
| Text.NormalizeThenClean | term.js:176 | the normalisation is invisible to the insert path: cleaning the normalised data gives the same as cleaning the raw data |
| Text.NormalizeNoNewline | term.js:176 | text without CR or LF, such as every other key sequence, is unchanged |
| Text.Mask | term.js:97-98 | the mask is as long as the buffer |
| Text.MaskOfPrintable | term.js:97-98 | on printable text, `replace(/./g, "*")` is a row of `*` of the same length |
| Text.PrintableSpace | term.js:107 | on printable ASCII the only white space trim can see is the space, and there is no line terminator |
| Text.TrimStartSpec | term.js:381 | the leading part removed by trim is all white space, and the rest does not start with white space |
| Text.TrimEndSpec | term.js:381 | the trailing part removed is all white space, and the rest does not end with white space |
| Text.TrimSpec | term.js:381 | trim returns the input less a run of white space on each side, neither of its ends is white space, and it is empty exactly when the input is all white space |
| Text.TrimKeepsText | term.js:381 | trim removes only white space: the non-space code units are the same before and after |
| Text.Split | term.js:386 | split(/\s+/) returns at least one piece, and no piece holds white space |
| Text.SplitJoin | term.js:386 | where split cuts: the input is its pieces with one non-empty run of white space between each two, so the pieces are the maximal space-free runs |
| Text.SplitKeepsText | term.js:386 | the pieces, joined, are exactly the non-space code units of the input, in order |
| Text.SplitTrimmed | term.js:381-386 | on a trimmed non-empty line every piece is non-empty, and the first piece runs up to the first white space |
| Decimal.NatText | term.js:89 | the decimal text of a number is digits only, with no leading zero except for 0 |
| Decimal.ParseIntText | term.js:89-91 | reading back the template-literal text of any integer gives that integer |
| Grid.CursorOrigin | term.js:71-79 | setCursorOffset always gives x < cols; a cursor at or past the last column is carried to column 0 of the next row; otherwise the cursor is kept; at x == cols the linear address is kept |
| Grid.CursorPosition | term.js:81-92 | the column is (x + pos) mod cols + 1, always in 1..cols; the row adds (x + pos) div cols less viewportY; a row equal to `rows` is written as `rows` followed by a newline, any other as row + 1 |
| Grid.TargetCell | term.js:81-86 | offsets are laid out row by row: the target cell is `pos` cells after the origin in row-major order, and it is the only such cell |
| Grid.CursorPositionNext | term.js:81-92 | one offset further is one column right on the same row, except from the last column, which wraps to column 1 of the next row |
| Grid.ParseRenderCup | term.js:88-91 | the written escape determines row, column and scroll flag: parsing it back gives the same Cup |
| Editor.InitialValid | term.js:7-13 | the constructor's state (empty buffer, cursor 0, history [""], index 0) satisfies the editor invariant: cursor in the buffer, index in the history, printable text, and every entry before the draft slot a non-blank submitted line |
| Editor.RewriteInput | term.js:94-104 | the redraw goes to offset 0, erases below, writes the buffer (or the same number of `*` when input is hidden), and goes to the cursor's offset |
| Editor.LeftKey | term.js:115-121 | only the cursor moves, one place left, with one cursor move written; at offset 0 nothing changes and nothing is written; the invariant holds |
| Editor.RightKey | term.js:123-129 | only the cursor moves, one place right, with one cursor move written; at the end of the buffer nothing changes and nothing is written |
| Editor.SaveDraft | term.js:135-137 | Up writes the buffer into the last slot only when the index is on it; all other entries and the length are unchanged |
| Editor.UpKey | term.js:131-145 | with history off, a no-op; otherwise the draft is saved, even at index 0; with an older entry, it is loaded with the cursor at its end and the line redrawn; history length and the invariant hold |
| Editor.DownKey | term.js:147-158 | with history off or on the last slot, a no-op; otherwise the next entry is loaded with the cursor at its end and redrawn; history unchanged |
| Editor.BackspaceKey | term.js:160-165 | at offset 0, a no-op; otherwise exactly the code unit left of the cursor is removed (prefix kept, rest shifted by one), the cursor moves left, and the line is redrawn |
| Editor.InsertKey | term.js:221-227 | cleaned input of length other than 1 changes nothing; a single cleaned code unit is spliced in at the cursor, the cursor moves past it, and the line is redrawn |
| Editor.CommitLine | term.js:107-111 | a committed line takes the draft slot, an empty draft is appended, earlier entries are kept |
| Editor.ReturnKey | term.js:106-113 | with history on and a non-blank line, history grows by one and the index goes on the new draft; otherwise the state is unchanged; the cursor goes to max(0, length - 1), then CR LF |
| Editor.Walk | term.js:115-129 | any run of Left and Right presses moves only the cursor and keeps it inside the buffer |
| Editor.UpThenDown | term.js:131-158 | from the draft slot with an older entry, Up then Down restores the line being typed, with the cursor at its end and the index back on the draft |
| Editor.HistoryScenario | term.js:131-158 | with history ["ls", ""], Up loads "ls" with the cursor at 2 and Down restores the empty draft |
| Editor.BackspaceScenario | term.js:160-165 | typing "hi" then two Backspaces leaves an empty line with the cursor at 0 |
| Term.Interrupt | term.js:178-186 | Ctrl-C kills the waiting caller and clears all three request fields; with nobody waiting it sets `rejected` |
| Term.KeyStep | term.js:203-227 | the dispatch of arrow keys, Backspace, Escape and other input keeps the invariant and never changes the history length |
| Term.Input | term.js:175-228 | handleInput keeps the invariant; history length changes only on Enter, and by at most one |
| Term.InterruptWhileWaiting | term.js:178-189 | Ctrl-C with a waiter kills it, clears the request fields, writes nothing and leaves the edit state alone |
| Term.InterruptWithNobodyWaiting | term.js:178-189 | Ctrl-C with nobody waiting only records the kill, even during a read (cleanString then drops the code unit) |
| Term.PendingKill | term.js:26-29 | after an unheard Ctrl-C, the next print, readLine or sleep rejects at once, clears the flag and changes nothing else |
| Term.IdleIgnoresKeys | term.js:187-189 | with no read pending, every key but Ctrl-C changes nothing and writes nothing |
| Term.EnterDelivers | term.js:190-201 | Enter during a read delivers the buffer, clears both callbacks, writes the Enter output and hides the cursor, and starts an empty line at the new cursor origin |
| Term.KeysKeepRequests | term.js:203-227 | any other key during a read leaves the request fields alone and settles nothing |
| Term.PrintCall | term.js:24-38 | print with a kill pending rejects and clears the flag; otherwise it writes the text, takes the new cursor origin and empties the buffer |
| Term.ReadLineCall | term.js:40-54 | readLine with a kill pending rejects; otherwise it goes to offset 0, shows the cursor, stores both options and waits with its rejecter set |
| Term.SleepCall | term.js:56-63 | sleep with a kill pending rejects; otherwise the sleeper's rejecter is installed |
| Term.SleepElapsed | term.js:64-67 | the timer clears `rejecter`, whoever set it, and nothing else |
| Term.SleepElapsedOwn | term.js:64-67 | the corrected timer clears `rejecter` only when it is still the sleeper's |
| Term.PromptAfterKilledSleep | term.js:24-67 | a sleep killed by Ctrl-C, then a print and a readLine before the sleep's timer fires, keep the invariant |
| Term.StaleTimerSwallowsInterrupt | term.js:56-67 | as written, the killed sleep's timer disarms the following readLine: the next Ctrl-C kills nobody, the read goes on, and the next print is killed instead |
| Term.OwnTimerKeepsInterrupt | term.js:56-67 | with the corrected timer the same Ctrl-C kills the read |
| Term.IO.constructor | term.js:4-16 | a new IO holds the initial edit state with no request pending |
| Term.IO.SetCursorOffset | term.js:71-79 | sets cursorOffset to CursorOrigin of the readings and changes no other field |
| Term.IO.HandleReturnKey | term.js:106-113 | the new fields and the output are those of ReturnKey |
| Term.IO.HandleLeftKey | term.js:115-121 | the new fields and the output are those of LeftKey |
| Term.IO.HandleRightKey | term.js:123-129 | the new fields and the output are those of RightKey |
| Term.IO.HandleUpKey | term.js:131-145 | the new fields and the output are those of UpKey |
| Term.IO.HandleDownKey | term.js:147-158 | the new fields and the output are those of DownKey |
| Term.IO.HandleBackspaceKey | term.js:160-165 | the new fields and the output are those of BackspaceKey |
| Term.IO.ReturnWritten | term.js:191-200 | the callback of Enter's write delivers the buffer, clears both callbacks, takes the new cursor origin and empties the line; nothing else changes |
| Term.IO.DispatchKey | term.js:203-227 | the new fields and the output are those of KeyStep, and the request fields are unchanged |
| Term.IO.HandleInput | term.js:175-228 | the new fields, output and signal are those of Input, and the invariant is kept |
| Term.IO.Print | term.js:24-38 | the new fields, output and reply are those of PrintCall |
| Term.IO.ReadLine | term.js:40-54 | the new fields, output and reply are those of ReadLineCall |
| Term.IO.Sleep | term.js:56-63 | the new fields and reply are those of SleepCall |
| Term.IO.TimerFired | term.js:64-67 | the new fields are those of SleepElapsed |
| Shell.Lookup | term.js:387 | finds an entry of the given name exactly when one is registered |
| Shell.LookupFirst | term.js:387 | the entry found is the first one of that name |
| Shell.Words | term.js:381-386 | the words of a non-blank line are non-empty, hold no white space, together are its non-space code units, and are exactly the trimmed line with one non-empty run of white space between each two |
| Shell.RunCommand | term.js:380-393 | a blank line prints the empty string and runs nothing; otherwise a registered first word is run with the other words as arguments, and an unknown one prints exactly the name and ": command not found", whatever the arguments |
| Shell.CommandWithArgument | term.js:380-393 | "name arg" runs name with the single argument arg, or reports name alone as not found |
| Shell.Visible | term.js:280-281 | the listing holds exactly the entries that are not hidden |
| Shell.VisibleConcat | term.js:280-282 | the listing keeps registry order: listing a + b lists a, then b |
| Shell.ListLines | term.js:282 | one "- name" line per listed command |
| Shell.HelpOutput | term.js:277-298 | with no argument: a header, one "- name" line per command that is not hidden, then the hint; a registered name: the not-available text when hidden, the "idk" text when it has no or empty help, otherwise its help and CR LF; an unknown name: the not-available text; two or more arguments: nothing |
| Shell.HelpOfEcho | term.js:285-293 | `help echo` prints echo's help text and CR LF |
| Shell.HelpOfHello | term.js:285-293 | `help hello` prints the text for an undocumented command |
| Shell.HiddenStaysHidden | term.js:281-288 | a hidden command is never listed and its help is never shown |
| Shell.HelpOfVim | term.js:288-296 | `help vim` prints the not-available text |
| Shell.RunCommandAsWritten | term.js:380-393 | runCommand as written: blank lines run nothing; a registered first word, or one that is no Object.prototype member, gives the same as RunCommand; an inherited member name that is not registered is run with the other words as arguments |
| Shell.PrototypeNameDispatched | term.js:387-388 | as written, an Object.prototype member name that is not a command is run; the corrected RunCommand reports it as not found |
| Shell.ToStringDispatched | term.js:387-388 | "toString" is run as written and reported as not found by the corrected RunCommand |
| Shell.HelpOutputAsWritten | term.js:285-296 | the help command as written; it differs from HelpOutput only on an inherited member name that is not a command |
| Shell.HelpPrototypeName | term.js:287-290 | as written, `help toString` describes toString as an undocumented command; the corrected HelpOutput says no help is available |

## Left out

- The xterm.js `Terminal`, `FitAddon`, `document.getElementById`, `focus`,
  `blur` and `console.log` are library and DOM calls. The terminal's size,
  viewport and cursor are parameters, and Escape writes nothing in the model.
- Promises and `setTimeout` are not modelled as asynchrony. A write and its
  callback form one step, so no key can arrive between them. The delay is
  not modelled: the timer firing is its own step.
- Rejections are signals, not exceptions. What a killed caller goes on to
  do, such as the `^C` that `run` prints, is not modelled.
- The model does not enforce at most one pending request. The source does
  not enforce it either: a `sleep` during a read replaces `rejecter` in both.
- Term.SleepElapsedOwn tells waiters apart only by kind. A stale timer that
  clears the reject function of a later sleep is therefore still possible
  there, because the model does not give each sleep an identity.
- Term.IO.TimerFired follows the code as written, by way of
  Term.SleepElapsed.
- The bodies of the commands are left out: echo, emacs, exit, hello,
  neofetch, no, nvim, sudo, vi, vim, yes and clear. They are fixed output and
  endless loops. Running a command is the `Invoke` action.
- The `run` prompt loop is left out. It only chains `readLine`,
  `runCommand` and `print`.
- The effect of the written escapes on the screen is not modelled. Only the
  text that is written is in scope.
- Decimal.IntText writes every integer in plain digits. JavaScript switches
  to exponent notation at 1e21, which no row or column reaches.
- Term.IO.SetCursorPosition has no contract of its own. The method is
  Grid.CursorPosition applied to the object's cursorOffset.

## Findings

| source | as written | input that shows it | evidently intended | confidence | as-written member | corrected member |
|---|---|---|---|---|---|---|
| term.js:387-388 | `this.commands[cmdName]` also finds the members every object inherits from Object.prototype, so such a name is called as a command | the line `toString` (nothing is printed), or `hasOwnProperty`, whose call throws | a name that is not an own command prints "toString: command not found" | not executed | Shell.RunCommandAsWritten, Shell.PrototypeNameDispatched, Shell.ToStringDispatched | Shell.RunCommand |
| term.js:64-67 | the sleep timer sets `rejecter` to null whoever set it, and nothing cancels the timer when Ctrl-C kills the sleep | Ctrl-C while `yes` sleeps; the "^C", the prompt and readLine follow within the 100 ms, then the timer fires; the next Ctrl-C at the prompt does not cancel the line, and the next command's first print is killed | the timer clears only its own sleep's reject function | not executed | Term.SleepElapsed, Term.StaleTimerSwallowsInterrupt, Term.IO.TimerFired | Term.SleepElapsedOwn, Term.OwnTimerKeepsInterrupt |
| term.js:287-290 | the same lookup in `help`: an inherited member is truthy and has no `help`, so the undocumented-command text is printed for it | the line `help toString` prints "idk what this command does..." | "help is not available for this command." | not executed | Shell.HelpOutputAsWritten, Shell.HelpPrototypeName | Shell.HelpOutput |
