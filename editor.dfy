/** The line-editing rules of IO in term.js: the edit state (buffer, cursor,
    cursor origin, history) and what each key handler does to it and writes
    to the terminal. */
module Editor {
  import opened Text
  import opened Grid

  /** One element of what a handler writes to the terminal. */
  datatype Piece =
    | Move(cup: Cup)         // ESC[row;colH, possibly followed by a newline
    | EraseBelow             // ESC[0J
    | Echo(text: JsString)   // literal text
    | ShowCursor             // ESC[?25h
    | HideCursor             // ESC[?25l
    | NewLine                // CR LF

  type Output = seq<Piece>

  /** The escape text of one piece. */
  function RenderPiece(p: Piece): JsString
  {
    match p
    case Move(c) => RenderCup(c)
    case EraseBelow => [ESC, LBRACKET, 0x30, 0x4A]
    case Echo(t) => t
    case ShowCursor => [ESC, LBRACKET, 0x3F, 0x32, 0x35, 0x68]
    case HideCursor => [ESC, LBRACKET, 0x3F, 0x32, 0x35, 0x6C]
    case NewLine => [CR, LF]
  }

  /** The text handed to term.write. */
  function Render(out: Output): JsString
  {
    if out == [] then [] else RenderPiece(out[0]) + Render(out[1..])
  }

  /** The fields of IO that the key handlers read and write. `origin` is
      `cursorOffset`. */
  datatype EditState = EditState(
    buffer: JsString,
    cursor: nat,
    origin: Point,
    history: seq<JsString>,
    historyIndex: nat,
    saveHistory: bool,
    hideInput: bool)

  /** What every handler keeps: the cursor inside the buffer, a non-empty
      history with its index in range, only printable ASCII in the buffer
      and in the history (cleanString lets nothing else in), and the history
      laid out as the submitted lines, none of them blank, followed by one
      draft slot. */
  predicate Valid(s: EditState)
  {
    s.cursor <= |s.buffer|
    && |s.history| >= 1 && s.historyIndex < |s.history|
    && Printable(s.buffer)
    && (forall k :: 0 <= k < |s.history| ==> Printable(s.history[k]))
    && Submitted(s.history)
  }

  /** Every entry before the draft slot is a line that was submitted, so it
      is not blank. */
  predicate Submitted(h: seq<JsString>)
  {
    forall k :: 0 <= k < |h| - 1 ==> !IsBlank(h[k])
  }

  /** The fields as IO's constructor sets them. */
  const Initial: EditState := EditState([], 0, Point(0, 0), [[]], 0, false, false)

  lemma InitialValid()
    ensures Valid(Initial)
  {
  }

  datatype Step = Step(state: EditState, out: Output)

  /** setCursorPosition for the state's origin. */
  function Position(s: EditState, pos: nat, scr: Screen): Cup
  {
    CursorPosition(s.origin, pos, scr)
  }

  /** Only the cursor of `t` may differ from `s`. */
  predicate OnlyCursorMoved(s: EditState, t: EditState)
  {
    t == s.(cursor := t.cursor)
  }

  /** IO.rewriteInput: go to the start of the line, erase to the end of the
      screen, write the buffer (or as many `*` when input is hidden), and
      put the cursor back at its offset. */
  function RewriteInput(s: EditState, scr: Screen): (out: Output)
    requires Valid(s)
    ensures |out| == 4 && out[0] == Move(Position(s, 0, scr)) && out[1] == EraseBelow
    ensures out[2].Echo? && |out[2].text| == |s.buffer|
    ensures !s.hideInput ==> out[2].text == s.buffer
    ensures s.hideInput ==> forall k :: 0 <= k < |out[2].text| ==> out[2].text[k] == STAR
    ensures out[3] == Move(Position(s, s.cursor, scr))
  {
    MaskOfPrintable(s.buffer);
    [Move(Position(s, 0, scr)), EraseBelow,
     Echo(if s.hideInput then Mask(s.buffer) else s.buffer),
     Move(Position(s, s.cursor, scr))]
  }

  /** IO.handleLeftKey: one place left, or nothing at the start of the line. */
  function LeftKey(s: EditState, scr: Screen): (r: Step)
    requires Valid(s)
    ensures Valid(r.state) && OnlyCursorMoved(s, r.state)
    ensures s.cursor == 0 ==> r == Step(s, [])
    ensures s.cursor > 0 ==>
              (r.state.cursor == s.cursor - 1 && r.out == [Move(Position(s, s.cursor - 1, scr))])
  {
    if s.cursor > 0 then
      var t := s.(cursor := s.cursor - 1);
      Step(t, [Move(Position(t, t.cursor, scr))])
    else Step(s, [])
  }

  /** IO.handleRightKey: one place right, or nothing at the end of the line. */
  function RightKey(s: EditState, scr: Screen): (r: Step)
    requires Valid(s)
    ensures Valid(r.state) && OnlyCursorMoved(s, r.state)
    ensures s.cursor == |s.buffer| ==> r == Step(s, [])
    ensures s.cursor < |s.buffer| ==>
              (r.state.cursor == s.cursor + 1 && r.out == [Move(Position(s, s.cursor + 1, scr))])
  {
    if s.cursor < |s.buffer| then
      var t := s.(cursor := s.cursor + 1);
      Step(t, [Move(Position(t, t.cursor, scr))])
    else Step(s, [])
  }

  /** The cursor loads with an entry: at the end of it. */
  predicate LoadedEntry(s: EditState, t: EditState)
  {
    t.historyIndex < |t.history| && t.buffer == t.history[t.historyIndex] && t.cursor == |t.buffer|
  }

  /** The history after Up saved the draft: the buffer goes into the last
      slot when the index is on it, and nothing else changes. */
  function SaveDraft(s: EditState): (h: seq<JsString>)
    requires Valid(s)
    ensures |h| == |s.history|
    ensures forall k :: 0 <= k < |h| - 1 ==> h[k] == s.history[k]
    ensures h[|h| - 1] == if s.historyIndex == |s.history| - 1 then s.buffer else s.history[|h| - 1]
  {
    if s.historyIndex == |s.history| - 1 then s.history[s.historyIndex := s.buffer] else s.history
  }

  /** IO.handleUpKey. With history off it does nothing. Otherwise, on the
      last (draft) slot it first saves the buffer there, even when there is
      no older entry to go to; then, if there is one, it loads it with the
      cursor at its end and redraws. */
  function UpKey(s: EditState, scr: Screen): (r: Step)
    requires Valid(s)
    ensures Valid(r.state) && |r.state.history| == |s.history|
    ensures r.state.origin == s.origin && r.state.saveHistory == s.saveHistory
            && r.state.hideInput == s.hideInput
    ensures !s.saveHistory ==> r == Step(s, [])
    ensures s.saveHistory ==> r.state.history == SaveDraft(s)
    ensures s.saveHistory && s.historyIndex > 0 ==>
              r.state.historyIndex == s.historyIndex - 1 && LoadedEntry(s, r.state)
              && r.out == RewriteInput(r.state, scr)
    ensures s.saveHistory && s.historyIndex == 0 ==>
              r.state == s.(history := SaveDraft(s)) && r.out == []
  {
    if !s.saveHistory then Step(s, [])
    else
      var h := SaveDraft(s);
      if s.historyIndex > 0 then
        var i := s.historyIndex - 1;
        var t := s.(history := h, historyIndex := i, buffer := h[i], cursor := |h[i]|);
        Step(t, RewriteInput(t, scr))
      else Step(s.(history := h), [])
  }

  /** IO.handleDownKey. With history off, or on the last slot, it does
      nothing; otherwise it loads the next entry with the cursor at its end
      and redraws. Down never saves the buffer. */
  function DownKey(s: EditState, scr: Screen): (r: Step)
    requires Valid(s)
    ensures Valid(r.state) && r.state.history == s.history
    ensures r.state.origin == s.origin && r.state.saveHistory == s.saveHistory
            && r.state.hideInput == s.hideInput
    ensures !s.saveHistory || s.historyIndex == |s.history| - 1 ==> r == Step(s, [])
    ensures s.saveHistory && s.historyIndex < |s.history| - 1 ==>
              r.state.historyIndex == s.historyIndex + 1 && LoadedEntry(s, r.state)
              && r.out == RewriteInput(r.state, scr)
  {
    if s.saveHistory && s.historyIndex < |s.history| - 1 then
      var i := s.historyIndex + 1;
      var t := s.(historyIndex := i, buffer := s.history[i], cursor := |s.history[i]|);
      Step(t, RewriteInput(t, scr))
    else Step(s, [])
  }

  /** IO.handleBackspaceKey: removes the code unit left of the cursor and
      redraws; nothing at the start of the line. */
  function BackspaceKey(s: EditState, scr: Screen): (r: Step)
    requires Valid(s)
    ensures Valid(r.state)
    ensures s.cursor == 0 ==> r == Step(s, [])
    ensures s.cursor > 0 ==>
              r.state == s.(buffer := r.state.buffer, cursor := s.cursor - 1)
              && |r.state.buffer| == |s.buffer| - 1
              && (forall k :: 0 <= k < s.cursor - 1 ==> r.state.buffer[k] == s.buffer[k])
              && (forall k :: s.cursor - 1 <= k < |r.state.buffer| ==> r.state.buffer[k] == s.buffer[k + 1])
              && r.out == RewriteInput(r.state, scr)
  {
    if s.cursor == 0 then Step(s, [])
    else
      var t := s.(buffer := s.buffer[..s.cursor - 1] + s.buffer[s.cursor..], cursor := s.cursor - 1);
      Step(t, RewriteInput(t, scr))
  }

  /** The character-input branch of IO.handleInput: the data is cleaned, and
      only a result of exactly one code unit is inserted at the cursor, which
      moves past it; anything else changes nothing and writes nothing. */
  function InsertKey(s: EditState, data: JsString, scr: Screen): (r: Step)
    requires Valid(s)
    ensures Valid(r.state)
    ensures |CleanString(data)| != 1 ==> r == Step(s, [])
    ensures |CleanString(data)| == 1 ==>
              r.state == s.(buffer := r.state.buffer, cursor := s.cursor + 1)
              && r.state.buffer == s.buffer[..s.cursor] + CleanString(data) + s.buffer[s.cursor..]
              && r.out == RewriteInput(r.state, scr)
  {
    var c := CleanString(data);
    if |c| != 1 then Step(s, [])
    else
      var t := s.(buffer := s.buffer[..s.cursor] + c + s.buffer[s.cursor..], cursor := s.cursor + |c|);
      Step(t, RewriteInput(t, scr))
  }

  /** Whether Enter records the line: history is on and the line is not blank. */
  predicate Commits(s: EditState)
  {
    s.saveHistory && !IsBlank(s.buffer)
  }

  /** The history after Enter commits the line: the line takes the draft
      slot and an empty draft follows it. */
  function CommitLine(s: EditState): (h: seq<JsString>)
    requires Valid(s)
    ensures |h| == |s.history| + 1
    ensures h[..|s.history| - 1] == s.history[..|s.history| - 1]
    ensures h[|s.history| - 1] == s.buffer && h[|s.history|] == []
    ensures forall k :: 0 <= k < |h| ==> Printable(h[k])
  {
    var h := s.history[|s.history| - 1 := s.buffer] + [[]];
    assert h[..|s.history| - 1] == s.history[..|s.history| - 1];
    h
  }

  /** IO.handleReturnKey. A committed line replaces the draft slot and a new
      empty draft is appended, with the index on it; otherwise history and
      index stay as they are. The cursor goes to offset max(0, length - 1),
      the last code unit of the line rather than past it, and a CR LF
      follows. */
  function ReturnKey(s: EditState, scr: Screen): (r: Step)
    requires Valid(s)
    ensures Valid(r.state)
    ensures Commits(s) ==>
              r.state == s.(history := CommitLine(s), historyIndex := |s.history|)
              && r.state.historyIndex == |r.state.history| - 1
    ensures !Commits(s) ==> r.state == s
    ensures r.out == [Move(Position(s, if |s.buffer| > 0 then |s.buffer| - 1 else 0, scr)), NewLine]
  {
    var t := if Commits(s) then s.(history := CommitLine(s), historyIndex := |s.history|) else s;
    Step(t, [Move(Position(t, if |t.buffer| > 0 then |t.buffer| - 1 else 0, scr)), NewLine])
  }

  // ---------------------------------------------------------------------
  // Properties of key sequences
  // ---------------------------------------------------------------------

  datatype Arrow = ArrowLeft | ArrowRight

  /** The state after a run of Left and Right presses. */
  function Walk(s: EditState, keys: seq<Arrow>, scr: Screen): (t: EditState)
    requires Valid(s)
    ensures Valid(t) && OnlyCursorMoved(s, t)
    decreases |keys|
  {
    if keys == [] then s
    else
      var next := if keys[0] == ArrowLeft then LeftKey(s, scr) else RightKey(s, scr);
      Walk(next.state, keys[1..], scr)
  }

  /** Up from the draft slot and then Down brings back the line being typed,
      with the index back on the draft and the history unchanged in length. */
  lemma UpThenDown(s: EditState, scr: Screen)
    requires Valid(s) && s.saveHistory
    requires s.historyIndex == |s.history| - 1 && s.historyIndex > 0
    ensures var d := DownKey(UpKey(s, scr).state, scr).state;
            d.buffer == s.buffer && d.cursor == |s.buffer|
            && d.historyIndex == s.historyIndex && |d.history| == |s.history|
  {
    var u := UpKey(s, scr).state;
    assert u.history[|u.history| - 1] == s.buffer;
  }

  /** With history ["ls", ""] and the index on the draft, Up loads "ls" with
      the cursor at 2, and Down then brings back the empty draft with the
      cursor at 0. */
  lemma HistoryScenario(s: EditState, scr: Screen)
    requires Valid(s) && s.saveHistory && s.buffer == [] && s.cursor == 0
    requires s.history == [[0x6C, 0x73], []] && s.historyIndex == 1
    ensures UpKey(s, scr).state.buffer == [0x6C, 0x73] && UpKey(s, scr).state.cursor == 2
    ensures DownKey(UpKey(s, scr).state, scr).state.buffer == []
    ensures DownKey(UpKey(s, scr).state, scr).state.cursor == 0
  {
    UpThenDown(s, scr);
  }

  /** Typing "hi" on an empty line and pressing Backspace twice leaves an
      empty line with the cursor at 0. */
  lemma BackspaceScenario(s: EditState, scr: Screen)
    requires Valid(s) && s.buffer == [] && s.cursor == 0
    ensures var h := InsertKey(s, [0x68], scr).state;
            var hi := InsertKey(h, [0x69], scr).state;
            var b := BackspaceKey(BackspaceKey(hi, scr).state, scr).state;
            b.buffer == [] && b.cursor == 0
  {
    CleanStringUnit(0x68);
    CleanStringUnit(0x69);
  }
}
