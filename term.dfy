/** The IO class of term.js: the edit state of Editor together with the
    pending-request fields (`rejected`, `inputResolver`, `rejecter`), the
    input dispatch of handleInput, and the kill check at the start of print,
    readLine and sleep. Promises are modelled by which caller is waiting;
    each event, write callback included, is one atomic step. */
module Term {
  import opened Text
  import opened Grid
  import opened Editor

  /** Whose reject function `rejecter` holds, if any. */
  datatype Waiter = NoWaiter | ReadWaiter | SleepWaiter

  /** `rejected`, whether `inputResolver` is set, and `rejecter`. */
  datatype Requests = Requests(rejected: bool, reading: bool, rejecter: Waiter)

  /** A kill is only ever left pending when nobody could be told of it. */
  predicate RequestsValid(q: Requests)
  {
    q.rejected ==> q.rejecter == NoWaiter
  }

  const NoRequests: Requests := Requests(false, false, NoWaiter)

  datatype IoState = IoState(edit: EditState, req: Requests)

  predicate StateValid(st: IoState)
  {
    Editor.Valid(st.edit) && RequestsValid(st.req)
  }

  /** What a step does to the promises callers are waiting on. */
  datatype Signal =
    | Quiet                    // nothing settles
    | Kill(waiter: Waiter)     // that waiter's promise rejects with "killed"
    | Deliver(line: JsString)  // readLine resolves with the line

  datatype Reaction = Reaction(state: IoState, out: Output, signal: Signal)

  // The key sequences handleInput recognises, after newline normalisation.
  const KEY_ENTER: JsString := [CR]
  const KEY_INTERRUPT: JsString := [ETX]
  const KEY_LEFT: JsString := [ESC, LBRACKET, 0x44]
  const KEY_RIGHT: JsString := [ESC, LBRACKET, 0x43]
  const KEY_UP: JsString := [ESC, LBRACKET, 0x41]
  const KEY_DOWN: JsString := [ESC, LBRACKET, 0x42]
  const KEY_BACKSPACE: JsString := [DEL]
  const KEY_ESCAPE: JsString := [ESC]

  datatype Interrupted = Interrupted(req: Requests, signal: Signal)

  /** The Ctrl-C branch of handleInput: a waiting caller is killed and all
      three fields are cleared; with nobody waiting the kill is recorded. */
  function Interrupt(q: Requests): (r: Interrupted)
    requires RequestsValid(q)
    ensures RequestsValid(r.req)
    ensures q.rejecter != NoWaiter ==> r == Interrupted(NoRequests, Kill(q.rejecter))
    ensures q.rejecter == NoWaiter ==> r == Interrupted(q.(rejected := true), Quiet)
  {
    if q.rejecter != NoWaiter then Interrupted(NoRequests, Kill(q.rejecter))
    else Interrupted(q.(rejected := true), Quiet)
  }

  /** The dispatch of handleInput for everything but Enter, once a read is
      pending. Escape only blurs the terminal, which is not modelled. */
  function KeyStep(s: EditState, d: JsString, scr: Screen): (r: Step)
    requires Editor.Valid(s)
    ensures Editor.Valid(r.state) && |r.state.history| == |s.history|
  {
    if d == KEY_LEFT then LeftKey(s, scr)
    else if d == KEY_RIGHT then RightKey(s, scr)
    else if d == KEY_UP then UpKey(s, scr)
    else if d == KEY_DOWN then DownKey(s, scr)
    else if d == KEY_BACKSPACE then BackspaceKey(s, scr)
    else if d == KEY_ESCAPE then Step(s, [])
    else InsertKey(s, d, scr)
  }

  /** IO.handleInput, with Enter's write callback run at once. `scr` is the
      terminal when the key arrives; `after` is what setCursorOffset reads
      when the Enter write completes. History grows only on Enter, by at
      most one entry. */
  function Input(st: IoState, data: JsString, scr: Screen, after: Readings): (r: Reaction)
    requires StateValid(st)
    ensures StateValid(r.state)
    ensures NormalizeNewlines(data) != KEY_ENTER ==> |r.state.edit.history| == |st.edit.history|
    ensures |r.state.edit.history| <= |st.edit.history| + 1
  {
    var d := NormalizeNewlines(data);
    var i := if d == KEY_INTERRUPT then Interrupt(st.req) else Interrupted(st.req, Quiet);
    var q := i.req;
    if !q.reading then Reaction(st.(req := q), [], i.signal)
    else if d == KEY_ENTER then
      var e := ReturnKey(st.edit, scr);
      var edit := e.state.(origin := CursorOrigin(after), buffer := [], cursor := 0);
      Reaction(IoState(edit, q.(reading := false, rejecter := NoWaiter)),
               e.out + [HideCursor], Deliver(e.state.buffer))
    else
      var e := KeyStep(st.edit, d, scr);
      Reaction(IoState(e.state, q), e.out, i.signal)
  }

  // ---------------------------------------------------------------------
  // print, readLine, sleep and the sleep timer
  // ---------------------------------------------------------------------

  datatype Reply = Killed | Waiting | Written

  datatype Call = Call(state: IoState, out: Output, reply: Reply)

  /** A call made while a kill is pending rejects at once, clears the flag
      and changes nothing else. */
  predicate KilledAtOnce(st: IoState, r: Call)
  {
    r == Call(st.(req := st.req.(rejected := false)), [], Killed)
  }

  /** IO.print, with its write callback: the text is written, the cursor
      origin is taken from the terminal and the buffer is emptied. */
  function PrintCall(st: IoState, text: JsString, after: Readings): (r: Call)
    requires StateValid(st)
    ensures StateValid(r.state)
    ensures st.req.rejected ==> KilledAtOnce(st, r)
    ensures !st.req.rejected ==>
              r.reply == Written && r.out == [Echo(text)] && r.state.req == st.req
              && r.state.edit == st.edit.(origin := CursorOrigin(after), buffer := [], cursor := 0)
  {
    if st.req.rejected then Call(st.(req := st.req.(rejected := false)), [], Killed)
    else
      Call(st.(edit := st.edit.(origin := CursorOrigin(after), buffer := [], cursor := 0)),
           [Echo(text)], Written)
  }

  /** IO.readLine, with its write callback: the cursor goes to the start of
      the line and is shown, the options are stored, and the read waits. */
  function ReadLineCall(st: IoState, saveHistory: bool, hideInput: bool, scr: Screen): (r: Call)
    requires StateValid(st)
    ensures StateValid(r.state)
    ensures st.req.rejected ==> KilledAtOnce(st, r)
    ensures !st.req.rejected ==>
              r.reply == Waiting && r.out == [Move(Position(st.edit, 0, scr)), ShowCursor]
              && r.state.edit == st.edit.(saveHistory := saveHistory, hideInput := hideInput)
              && r.state.req == Requests(false, true, ReadWaiter)
  {
    if st.req.rejected then Call(st.(req := st.req.(rejected := false)), [], Killed)
    else
      Call(IoState(st.edit.(saveHistory := saveHistory, hideInput := hideInput),
                   st.req.(reading := true, rejecter := ReadWaiter)),
           [Move(Position(st.edit, 0, scr)), ShowCursor], Waiting)
  }

  /** IO.sleep: the sleeper's reject function becomes the one Ctrl-C uses. */
  function SleepCall(st: IoState): (r: Call)
    requires StateValid(st)
    ensures StateValid(r.state)
    ensures st.req.rejected ==> KilledAtOnce(st, r)
    ensures !st.req.rejected ==>
              r == Call(st.(req := st.req.(rejecter := SleepWaiter)), [], Waiting)
  {
    if st.req.rejected then Call(st.(req := st.req.(rejected := false)), [], Killed)
    else Call(st.(req := st.req.(rejecter := SleepWaiter)), [], Waiting)
  }

  /** The timer of IO.sleep firing: `rejecter` is cleared, whoever set it. */
  function SleepElapsed(st: IoState): (t: IoState)
    requires StateValid(st)
    ensures StateValid(t)
    ensures t == st.(req := st.req.(rejecter := NoWaiter))
  {
    st.(req := st.req.(rejecter := NoWaiter))
  }

  /** The sleep timer as evidently intended: it gives up only its own
      sleeper's reject function, and leaves another caller's in place. */
  function SleepElapsedOwn(st: IoState): (t: IoState)
    requires StateValid(st)
    ensures StateValid(t)
    ensures st.req.rejecter == SleepWaiter ==> t == st.(req := st.req.(rejecter := NoWaiter))
    ensures st.req.rejecter != SleepWaiter ==> t == st
  {
    if st.req.rejecter == SleepWaiter then st.(req := st.req.(rejecter := NoWaiter)) else st
  }

  /** A sleep stopped by Ctrl-C (as in `yes`), followed at once by the
      shell's "^C", its prompt and the next readLine, all before the killed
      sleep's timer fires. */
  function PromptAfterKilledSleep(st: IoState, text: JsString, scr: Screen, after: Readings): (t: IoState)
    requires StateValid(st)
    ensures StateValid(t)
  {
    var slept := SleepCall(st).state;
    var killed := Input(slept, KEY_INTERRUPT, scr, after).state;
    var printed := PrintCall(killed, text, after).state;
    ReadLineCall(printed, true, false, scr).state
  }

  /** As written, the stale timer of a killed sleep clears the reject
      function of the readLine that follows: the next Ctrl-C at the prompt
      kills nobody, the read goes on, and the kill is left pending for the
      next print. */
  lemma StaleTimerSwallowsInterrupt(st: IoState, text: JsString, scr: Screen, after: Readings)
    requires StateValid(st) && st.req == NoRequests
    ensures var before := SleepElapsed(PromptAfterKilledSleep(st, text, scr, after));
            var r := Input(before, KEY_INTERRUPT, scr, after);
            r.signal == Quiet && r.state.req == Requests(true, true, NoWaiter)
            && PrintCall(r.state, text, after).reply == Killed
  {
    InterruptWhileWaiting(SleepCall(st).state, scr, after);
    var before := SleepElapsed(PromptAfterKilledSleep(st, text, scr, after));
    assert before.req == Requests(false, true, NoWaiter);
    InterruptWithNobodyWaiting(before, scr, after);
  }

  /** With the corrected timer the same Ctrl-C kills the pending read. */
  lemma OwnTimerKeepsInterrupt(st: IoState, text: JsString, scr: Screen, after: Readings)
    requires StateValid(st) && st.req == NoRequests
    ensures var before := SleepElapsedOwn(PromptAfterKilledSleep(st, text, scr, after));
            Input(before, KEY_INTERRUPT, scr, after)
            == Reaction(before.(req := NoRequests), [], Kill(ReadWaiter))
  {
    InterruptWhileWaiting(SleepCall(st).state, scr, after);
    var before := SleepElapsedOwn(PromptAfterKilledSleep(st, text, scr, after));
    assert before.req == Requests(false, true, ReadWaiter);
    InterruptWhileWaiting(before, scr, after);
  }

  // ---------------------------------------------------------------------
  // Properties of the interrupt and of the dispatch
  // ---------------------------------------------------------------------

  /** Ctrl-C with a caller waiting kills that caller, clears the three
      fields (so no kill is left pending) and touches nothing else. */
  lemma InterruptWhileWaiting(st: IoState, scr: Screen, after: Readings)
    requires StateValid(st) && st.req.rejecter != NoWaiter
    ensures Input(st, KEY_INTERRUPT, scr, after)
            == Reaction(st.(req := NoRequests), [], Kill(st.req.rejecter))
  {
    NormalizeNoNewline(KEY_INTERRUPT);
  }

  /** Ctrl-C with nobody to reject records the kill and changes nothing
      else, even while a read is pending: the code unit then falls through to
      the insert path, where cleanString removes it. */
  lemma InterruptWithNobodyWaiting(st: IoState, scr: Screen, after: Readings)
    requires StateValid(st) && st.req.rejecter == NoWaiter
    ensures Input(st, KEY_INTERRUPT, scr, after)
            == Reaction(st.(req := st.req.(rejected := true)), [], Quiet)
  {
    NormalizeNoNewline(KEY_INTERRUPT);
    CleanStringUnit(ETX);
  }

  /** A kill recorded with nobody waiting is not lost: the next print,
      readLine or sleep rejects at once, clears the flag, and leaves the
      edit state as it was, without waiting for a key. */
  lemma PendingKill(st: IoState, scr: Screen, after: Readings, text: JsString, save: bool, mask: bool)
    requires StateValid(st) && st.req.rejecter == NoWaiter
    ensures var k := Input(st, KEY_INTERRUPT, scr, after).state;
            k.req.rejected
            && ReadLineCall(k, save, mask, scr) == Call(st.(req := k.req.(rejected := false)), [], Killed)
            && SleepCall(k) == Call(st.(req := k.req.(rejected := false)), [], Killed)
            && PrintCall(k, text, after) == Call(st.(req := k.req.(rejected := false)), [], Killed)
  {
    InterruptWithNobodyWaiting(st, scr, after);
  }

  /** With no read pending every key but Ctrl-C is ignored: no state
      change, no output, nothing settles. */
  lemma IdleIgnoresKeys(st: IoState, data: JsString, scr: Screen, after: Readings)
    requires StateValid(st) && !st.req.reading
    requires NormalizeNewlines(data) != KEY_INTERRUPT
    ensures Input(st, data, scr, after) == Reaction(st, [], Quiet)
  {
  }

  /** Enter during a read hands the line to the reader, clears both
      callbacks, writes the Enter output and hides the cursor, and starts a
      fresh empty line at the terminal's new cursor. */
  lemma EnterDelivers(st: IoState, data: JsString, scr: Screen, after: Readings)
    requires StateValid(st) && st.req.reading
    requires NormalizeNewlines(data) == KEY_ENTER
    ensures var r := Input(st, data, scr, after);
            var e := ReturnKey(st.edit, scr);
            r.signal == Deliver(st.edit.buffer)
            && r.state.req == Requests(st.req.rejected, false, NoWaiter)
            && r.state.edit == e.state.(origin := CursorOrigin(after), buffer := [], cursor := 0)
            && r.out == e.out + [HideCursor]
  {
  }

  /** Any other key during a read leaves the request fields alone. */
  lemma KeysKeepRequests(st: IoState, data: JsString, scr: Screen, after: Readings)
    requires StateValid(st) && st.req.reading
    requires NormalizeNewlines(data) != KEY_ENTER && NormalizeNewlines(data) != KEY_INTERRUPT
    ensures Input(st, data, scr, after).state.req == st.req
    ensures Input(st, data, scr, after).signal == Quiet
  {
  }

  /** The object. Its fields are those of term.js; `reading` stands for
      `inputResolver !== null`. Terminal readings are parameters. */
  class IO {
    var buffer: JsString
    var cursor: nat
    var cursorOffset: Point
    var history: seq<JsString>
    var historyIndex: nat
    var saveHistory: bool
    var hideInput: bool
    var reading: bool
    var rejecter: Waiter
    var rejected: bool

    function Edit(): EditState
      reads this
    {
      EditState(buffer, cursor, cursorOffset, history, historyIndex, saveHistory, hideInput)
    }

    function Pending(): Requests
      reads this
    {
      Requests(rejected, reading, rejecter)
    }

    function State(): IoState
      reads this
    {
      IoState(Edit(), Pending())
    }

    ghost predicate Valid()
      reads this
    {
      StateValid(State())
    }

    constructor ()
      ensures Valid() && State() == IoState(Initial, NoRequests)
    {
      buffer := [];
      cursor := 0;
      cursorOffset := Point(0, 0);
      history := [[]];
      historyIndex := 0;
      saveHistory := false;
      hideInput := false;
      reading := false;
      rejecter := NoWaiter;
      rejected := false;
    }

    /** IO.setCursorPosition */
    function SetCursorPosition(pos: nat, scr: Screen): Cup
      reads this
    {
      CursorPosition(cursorOffset, pos, scr)
    }

    method SetCursorOffset(after: Readings)
      modifies this
      ensures cursorOffset == CursorOrigin(after)
      ensures State() == old(State()).(edit := old(Edit()).(origin := CursorOrigin(after)))
    {
      var y := after.cursorY + after.screen.viewportY;
      var x := after.cursorX;
      if x >= after.screen.cols {
        y := y + 1;
        x := 0;
      }
      cursorOffset := Point(x, y);
    }

    method HandleReturnKey(scr: Screen) returns (out: Output)
      requires Valid()
      modifies this
      ensures Valid() && Pending() == old(Pending())
      ensures Step(Edit(), out) == ReturnKey(old(Edit()), scr)
    {
      ghost var s := Edit();
      ghost var r := ReturnKey(s, scr);
      if !IsBlank(buffer) && saveHistory {
        history := history[|history| - 1 := buffer];
        historyIndex := |history|;
        history := history + [[]];
        assert history == CommitLine(s);
      }
      assert Edit() == r.state;
      out := [Move(SetCursorPosition(if |buffer| > 0 then |buffer| - 1 else 0, scr)), NewLine];
      assert out == r.out;
    }

    method HandleLeftKey(scr: Screen) returns (out: Output)
      requires Valid()
      modifies this
      ensures Valid() && Pending() == old(Pending())
      ensures Step(Edit(), out) == LeftKey(old(Edit()), scr)
    {
      if cursor > 0 {
        cursor := cursor - 1;
        return [Move(SetCursorPosition(cursor, scr))];
      }
      return [];
    }

    method HandleRightKey(scr: Screen) returns (out: Output)
      requires Valid()
      modifies this
      ensures Valid() && Pending() == old(Pending())
      ensures Step(Edit(), out) == RightKey(old(Edit()), scr)
    {
      if cursor < |buffer| {
        cursor := cursor + 1;
        return [Move(SetCursorPosition(cursor, scr))];
      }
      return [];
    }

    method HandleUpKey(scr: Screen) returns (out: Output)
      requires Valid()
      modifies this
      ensures Valid() && Pending() == old(Pending())
      ensures Step(Edit(), out) == UpKey(old(Edit()), scr)
    {
      if !saveHistory {
        return [];
      }
      if historyIndex == |history| - 1 {
        history := history[historyIndex := buffer];
      }
      if historyIndex > 0 {
        historyIndex := historyIndex - 1;
        buffer := history[historyIndex];
        cursor := |buffer|;
        return RewriteInput(Edit(), scr);
      }
      return [];
    }

    method HandleDownKey(scr: Screen) returns (out: Output)
      requires Valid()
      modifies this
      ensures Valid() && Pending() == old(Pending())
      ensures Step(Edit(), out) == DownKey(old(Edit()), scr)
    {
      if !saveHistory {
        return [];
      }
      if historyIndex < |history| - 1 {
        historyIndex := historyIndex + 1;
        buffer := history[historyIndex];
        cursor := |buffer|;
        return RewriteInput(Edit(), scr);
      }
      return [];
    }

    method HandleBackspaceKey(scr: Screen) returns (out: Output)
      requires Valid()
      modifies this
      ensures Valid() && Pending() == old(Pending())
      ensures Step(Edit(), out) == BackspaceKey(old(Edit()), scr)
    {
      if cursor == 0 {
        return [];
      }
      buffer := buffer[..cursor - 1] + buffer[cursor..];
      cursor := cursor - 1;
      return RewriteInput(Edit(), scr);
    }

    /** The callback of Enter's write: the waiting reader gets the line, both
        callbacks are cleared, and a new empty line starts at the terminal's
        cursor. */
    method ReturnWritten(after: Readings) returns (signal: Signal)
      requires Valid() && reading
      modifies this
      ensures Valid()
      ensures signal == Deliver(old(buffer))
      ensures Pending() == old(Pending()).(reading := false, rejecter := NoWaiter)
      ensures Edit() == old(Edit()).(origin := CursorOrigin(after), buffer := [], cursor := 0)
    {
      if reading {
        signal := Deliver(buffer);
        reading := false;
        rejecter := NoWaiter;
      }
      SetCursorOffset(after);
      buffer := [];
      cursor := 0;
    }

    /** IO.handleInput, Enter's write callback included. */
    method HandleInput(data: JsString, scr: Screen, after: Readings) returns (out: Output, signal: Signal)
      requires Valid()
      modifies this
      ensures Valid()
      ensures Reaction(State(), out, signal) == Input(old(State()), data, scr, after)
    {
      var d := NormalizeNewlines(data);
      signal := Quiet;
      if d == KEY_INTERRUPT {
        rejected := true;
        if rejecter != NoWaiter {
          signal := Kill(rejecter);
          reading := false;
          rejecter := NoWaiter;
          rejected := false;
        }
      }
      if !reading {
        return [], signal;
      }
      if d == KEY_ENTER {
        out := HandleReturnKey(scr);
        out := out + [HideCursor];
        signal := ReturnWritten(after);
        return;
      }
      out := DispatchKey(d, scr);
    }

    /** The key dispatch of handleInput after Enter: arrows, Backspace,
        Escape, and any other input, which is cleaned and inserted when it is
        a single code unit. */
    method DispatchKey(d: JsString, scr: Screen) returns (out: Output)
      requires Valid()
      modifies this
      ensures Valid() && Pending() == old(Pending())
      ensures Step(Edit(), out) == KeyStep(old(Edit()), d, scr)
    {
      if d == KEY_LEFT {
        out := HandleLeftKey(scr);
      } else if d == KEY_RIGHT {
        out := HandleRightKey(scr);
      } else if d == KEY_UP {
        out := HandleUpKey(scr);
      } else if d == KEY_DOWN {
        out := HandleDownKey(scr);
      } else if d == KEY_BACKSPACE {
        out := HandleBackspaceKey(scr);
      } else if d == KEY_ESCAPE {
        out := [];
      } else {
        var c := CleanString(d);
        if |c| != 1 {
          return [];
        }
        buffer := buffer[..cursor] + c + buffer[cursor..];
        cursor := cursor + |c|;
        out := RewriteInput(Edit(), scr);
      }
    }

    /** IO.print, with its write callback. */
    method Print(text: JsString, after: Readings) returns (out: Output, reply: Reply)
      requires Valid()
      modifies this
      ensures Valid()
      ensures Call(State(), out, reply) == PrintCall(old(State()), text, after)
    {
      if rejected {
        rejected := false;
        return [], Killed;
      }
      out := [Echo(text)];
      SetCursorOffset(after);
      buffer := [];
      cursor := 0;
      reply := Written;
    }

    /** IO.readLine, with its write callback. */
    method ReadLine(save: bool, mask: bool, scr: Screen) returns (out: Output, reply: Reply)
      requires Valid()
      modifies this
      ensures Valid()
      ensures Call(State(), out, reply) == ReadLineCall(old(State()), save, mask, scr)
    {
      if rejected {
        rejected := false;
        return [], Killed;
      }
      out := [Move(SetCursorPosition(0, scr)), ShowCursor];
      saveHistory := save;
      hideInput := mask;
      reading := true;
      rejecter := ReadWaiter;
      reply := Waiting;
    }

    /** IO.sleep, up to the timer. */
    method Sleep() returns (reply: Reply)
      requires Valid()
      modifies this
      ensures Valid()
      ensures Call(State(), [], reply) == SleepCall(old(State()))
    {
      if rejected {
        rejected := false;
        return Killed;
      }
      rejecter := SleepWaiter;
      reply := Waiting;
    }

    /** The timer of IO.sleep. */
    method TimerFired()
      requires Valid()
      modifies this
      ensures Valid()
      ensures State() == SleepElapsed(old(State()))
    {
      rejecter := NoWaiter;
    }
  }
}
