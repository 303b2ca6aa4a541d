/** The terminal grid as IO sees it: the cursor origin that setCursorOffset
    recomputes after a write, and the absolute cursor position that
    setCursorPosition emits for a logical offset in the input line. */
module Grid {
  import opened Text
  import opened Decimal

  /** A terminal is at least one column wide. */
  type Width = n: nat | n >= 1 witness 1

  /** The terminal's size and how far its viewport is scrolled into the
      scrollback, read when a position is computed. */
  datatype Screen = Screen(cols: Width, rows: nat, viewportY: nat)

  /** What setCursorOffset reads once a write has completed: the screen and
      the live cursor, relative to the viewport. */
  datatype Readings = Readings(screen: Screen, cursorX: nat, cursorY: nat)

  /** A cell of the scrollback buffer: column x, absolute row y. */
  datatype Point = Point(x: nat, y: nat)

  /** A cursor-position escape `ESC[row;colH`, followed by a newline when
      `scroll` is set. */
  datatype Cup = Cup(row: int, col: int, scroll: bool)

  const LBRACKET: CodeUnit := 0x5B
  const SEMICOLON: CodeUnit := 0x3B
  const LETTER_H: CodeUnit := 0x48

  /** IO.setCursorOffset: the live cursor made absolute, with a cursor parked
      just past the last column (autowrap pending) counted as column 0 of the
      next row. */
  function CursorOrigin(t: Readings): (p: Point)
    ensures p.x < t.screen.cols
    ensures t.cursorX < t.screen.cols ==> p == Point(t.cursorX, t.cursorY + t.screen.viewportY)
    ensures t.cursorX >= t.screen.cols ==> p == Point(0, t.cursorY + t.screen.viewportY + 1)
    ensures t.cursorX <= t.screen.cols ==>
              p.y * t.screen.cols + p.x == (t.cursorY + t.screen.viewportY) * t.screen.cols + t.cursorX
  {
    var y := t.cursorY + t.screen.viewportY;
    if t.cursorX >= t.screen.cols then Point(0, y + 1) else Point(t.cursorX, y)
  }

  /** Zero-based viewport row of the cell that holds offset `pos` of a line
      starting at `o`. */
  function TargetRow(o: Point, pos: nat, scr: Screen): int
  {
    o.y + (o.x + pos) / scr.cols - scr.viewportY
  }

  /** Zero-based column of the cell that holds offset `pos`. */
  function TargetColumn(o: Point, pos: nat, scr: Screen): nat
  {
    (o.x + pos) % scr.cols
  }

  /** IO.setCursorPosition. The column is always on screen; a target on the
      row just below the viewport is written as the last row followed by a
      newline, which scrolls the terminal by one. */
  function CursorPosition(o: Point, pos: nat, scr: Screen): (c: Cup)
    ensures 1 <= c.col <= scr.cols
    ensures c.col == TargetColumn(o, pos, scr) + 1
    ensures c.scroll <==> TargetRow(o, pos, scr) == scr.rows
    ensures c.row == if c.scroll then scr.rows else TargetRow(o, pos, scr) + 1
  {
    var x := o.x + pos;
    var y := o.y + x / scr.cols - scr.viewportY;
    if y == scr.rows then Cup(y, x % scr.cols + 1, true)
    else Cup(y + 1, x % scr.cols + 1, false)
  }

  /** Offsets are laid out row by row: the target cell of `pos` is the cell
      `pos` places after the origin in row-major order, and it is the only
      cell on a row of width `cols` that is. */
  lemma TargetCell(o: Point, pos: nat, scr: Screen, r: int, k: int)
    ensures (TargetRow(o, pos, scr) + scr.viewportY) * scr.cols + TargetColumn(o, pos, scr)
            == o.y * scr.cols + o.x + pos
    ensures 0 <= k < scr.cols && (r + scr.viewportY) * scr.cols + k == o.y * scr.cols + o.x + pos
            ==> r == TargetRow(o, pos, scr) && k == TargetColumn(o, pos, scr)
  {
    var n := scr.cols;
    var q := (o.x + pos) / n;
    var m := (o.x + pos) % n;
    assert o.x + pos == q * n + m;
    assert (o.y + q) * n == o.y * n + q * n;
    if 0 <= k < n && (r + scr.viewportY) * n + k == o.y * n + o.x + pos {
      var d := r + scr.viewportY - o.y - q;
      assert (r + scr.viewportY) * n == (o.y + q) * n + d * n;
      assert d * n == m - k;
    }
  }

  /** One offset further is one column to the right on the same row, except
      from the last column, which wraps to column 1 of the next row. */
  lemma CursorPositionNext(o: Point, pos: nat, scr: Screen)
    ensures CursorPosition(o, pos, scr).col < scr.cols ==>
              TargetRow(o, pos + 1, scr) == TargetRow(o, pos, scr)
              && CursorPosition(o, pos + 1, scr).col == CursorPosition(o, pos, scr).col + 1
    ensures CursorPosition(o, pos, scr).col == scr.cols ==>
              TargetRow(o, pos + 1, scr) == TargetRow(o, pos, scr) + 1
              && CursorPosition(o, pos + 1, scr).col == 1
  {
    var n := scr.cols;
    var k := TargetColumn(o, pos, scr);
    var r := TargetRow(o, pos, scr);
    TargetCell(o, pos, scr, 0, -1);
    if k + 1 < n {
      TargetCell(o, pos + 1, scr, r, k + 1);
    } else {
      assert (r + 1 + scr.viewportY) * n + 0 == (r + scr.viewportY) * n + k + 1;
      TargetCell(o, pos + 1, scr, r + 1, 0);
    }
  }

  // ---------------------------------------------------------------------
  // The escape text of a Cup, and reading it back
  // ---------------------------------------------------------------------

  /** The text of the template literals in setCursorPosition. */
  function RenderCup(c: Cup): (r: JsString)
  {
    [ESC, LBRACKET] + IntText(c.row) + [SEMICOLON] + IntText(c.col) + [LETTER_H]
      + (if c.scroll then [LF] else [])
  }

  /** Index of the first `u` at or after `from`, or |s|. */
  function IndexOf(s: JsString, u: CodeUnit, from: nat): (k: nat)
    requires from <= |s|
    ensures from <= k <= |s|
    ensures k < |s| ==> s[k] == u
    ensures forall j :: from <= j < k ==> s[j] != u
    decreases |s| - from
  {
    if from == |s| || s[from] == u then from else IndexOf(s, u, from + 1)
  }

  /** Reads `ESC[row;colH`, optionally followed by a newline. */
  function ParseCup(s: JsString): (r: Option<Cup>)
  {
    if |s| < 2 || s[0] != ESC || s[1] != LBRACKET then None
    else
      var rest := s[2..];
      var i := IndexOf(rest, SEMICOLON, 0);
      if i == |rest| then None
      else
        var j := IndexOf(rest, LETTER_H, i + 1);
        if j == |rest| then None
        else
          var tail := rest[j + 1..];
          match (ParseInt(rest[..i]), ParseInt(rest[i + 1..j]))
          case (Some(row), Some(col)) =>
            if tail == [] then Some(Cup(row, col, false))
            else if tail == [LF] then Some(Cup(row, col, true))
            else None
          case _ => None
  }

  lemma IndexOfAfter(a: JsString, u: CodeUnit, b: JsString, from: nat)
    requires from <= |a|
    requires forall j :: from <= j < |a| ==> a[j] != u
    ensures IndexOf(a + [u] + b, u, from) == |a|
    decreases |a| - from
  {
    if from < |a| {
      IndexOfAfter(a, u, b, from + 1);
    }
  }

  /** How ParseCup takes apart a text whose two number fields hold no `;`
      and no `H`. */
  lemma ParseCupFields(a: JsString, b: JsString, tail: JsString)
    requires forall k :: 0 <= k < |a| ==> a[k] != SEMICOLON
    requires forall k :: 0 <= k < |b| ==> b[k] != LETTER_H
    ensures ParseCup([ESC, LBRACKET] + a + [SEMICOLON] + b + [LETTER_H] + tail)
            == match (ParseInt(a), ParseInt(b))
               case (Some(row), Some(col)) =>
                 if tail == [] then Some(Cup(row, col, false))
                 else if tail == [LF] then Some(Cup(row, col, true))
                 else None
               case _ => None
  {
    var s := [ESC, LBRACKET] + a + [SEMICOLON] + b + [LETTER_H] + tail;
    var rest := a + [SEMICOLON] + b + [LETTER_H] + tail;
    assert s[2..] == rest;
    assert rest == a + [SEMICOLON] + (b + [LETTER_H] + tail);
    IndexOfAfter(a, SEMICOLON, b + [LETTER_H] + tail, 0);
    var i := |a|;
    var ab := a + [SEMICOLON] + b;
    assert rest == ab + [LETTER_H] + tail;
    forall k | i + 1 <= k < |ab| ensures ab[k] != LETTER_H {
      assert ab[k] == b[k - i - 1];
    }
    IndexOfAfter(ab, LETTER_H, tail, i + 1);
    var j := |ab|;
    assert rest[..i] == a;
    assert rest[i + 1..j] == b;
    assert rest[j + 1..] == tail;
  }

  /** The escape text determines the Cup: reading back what RenderCup wrote
      gives the same row, column and scroll flag. */
  lemma ParseRenderCup(c: Cup)
    ensures ParseCup(RenderCup(c)) == Some(c)
  {
    var tail: JsString := if c.scroll then [LF] else [];
    IntTextUnits(c.row);
    IntTextUnits(c.col);
    ParseCupFields(IntText(c.row), IntText(c.col), tail);
    ParseIntText(c.row);
    ParseIntText(c.col);
  }
}
