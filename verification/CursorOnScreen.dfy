/**
 * What the user sees at the cursor: on a screen the editor has drawn, the terminal's cursor stands on
 * the character the buffer's cursor is before (`layout`, `viewport` and `renderEditor` in
 * src/cli/editor.ts, all three together).
 */
module CursorOnScreen {
  import opened Strings
  import opened Lines
  import opened EditorState
  import opened Layout
  import opened Viewport
  import opened Terminal
  import opened Redraw
  import opened QuietRuns
  import opened EditorSession

  // ---------------------------------------------------------------- a cell of a row

  lemma WidthOfFirst(s: Styled, w: Widths)
    requires s != []
    ensures VisibleWidth(s, w) >= SymWidth(s[0], w)
  {
  }

  /** A text that does not start with a character that joins the cell before it. */
  predicate StartsACell(s: Styled, w: Widths) {
    s == [] || (s[0].Ch? && w(s[0].c) >= 1)
  }

  /** A character one column wide is alone in the cell after the text before it. */
  lemma {:induction false} CellAt(a: Styled, c: char, b: Styled, w: Widths)
    requires w(c) == 1 && StartsACell(b, w)
    ensures VisibleWidth(a, w) < |Shown(a + [Ch(c)] + b, w)|
    ensures Shown(a + [Ch(c)] + b, w)[VisibleWidth(a, w)] == [c]
    decreases |b|
  {
    var s := a + [Ch(c)] + b;
    ShownWidth(a, w);
    if b == [] {
      assert Init(s) == a;
    } else {
      var most := Init(b);
      assert Init(s) == a + [Ch(c)] + most && Last(s) == Last(b);
      CellAt(a, c, most, w);
      if most != [] {
        LongEnough(a, c, most, w);
      }
    }
  }

  lemma LongEnough(a: Styled, c: char, b: Styled, w: Widths)
    requires w(c) == 1 && StartsACell(b, w) && b != []
    ensures |Shown(a + [Ch(c)] + b, w)| >= VisibleWidth(a, w) + 2
  {
    ShownWidth(a + [Ch(c)] + b, w);
    VisibleWidthConcat(a + [Ch(c)], b, w);
    VisibleWidthConcat(a, [Ch(c)], w);
    WidthOfFirst([Ch(c)], w);
    WidthOfFirst(b, w);
  }

  // ---------------------------------------------------------------- from the buffer to the row drawn

  lemma {:induction false} LocateChar(rows: seq<string>, col: nat)
    requires rows != [] && col <= |Flatten(rows)|
    ensures var at := Locate(rows, col);
      && (col < |Flatten(rows)| ==> at.1 < |rows[at.0]| && rows[at.0][at.1] == Flatten(rows)[col])
      && (col == |Flatten(rows)| ==> at.1 == |rows[at.0]|)
  {
    assert Flatten(rows) == rows[0] + Flatten(rows[1..]);
    if |rows| > 1 && col >= |rows[0]| {
      LocateChar(rows[1..], col - |rows[0]|);
    }
  }

  /** The row the cursor is on, in two: what is before the cursor, and the text from it on. */
  ghost predicate Cut(row: Styled, column: nat, before: Styled, tail: string, w: Widths) {
    row == before + Plain(tail) && VisibleWidth(before, w) == column && Narrow(tail, w)
  }

  /** `tail` is the rest of the row: it starts with the character under the cursor, if there is one. */
  predicate StartsAt(tail: string, line: string, col: nat)
    requires col <= |line|
  {
    if col == |line| then tail == "" else tail != "" && tail[0] == line[col]
  }

  lemma PlainInTwo(piece: string, j: nat)
    requires j <= |piece|
    ensures Plain(piece) == Plain(piece[..j]) + Plain(piece[j..])
  {
  }

  /** A row of a block, cut at its `j`th character. */
  lemma CutPiece(margin: Styled, piece: string, j: nat, w: Widths)
    requires j <= |piece| && Narrow(piece, w)
    ensures var column := VisibleWidth(margin, w) + Width(piece[..j], w);
      Cut(margin + Plain(piece), column, margin + Plain(piece[..j]), piece[j..], w)
  {
    RowWidth(margin, piece[..j], w);
    PlainInTwo(piece, j);
    Regroup(margin, Plain(piece[..j]), Plain(piece[j..]));
  }

  function MarginOf(k: nat, index: nat, opts: Options): Styled {
    if k == 0 then PrefixOf(index, opts) else []
  }

  lemma BlockRow(line: string, index: nat, k: nat, opts: Options)
    requires k < |LineRows(line, VisibleWidth(PrefixOf(index, opts), opts.w), Columns(opts), opts.w)|
    ensures k < |BlockOf(line, index, opts)|
    ensures BlockOf(line, index, opts)[k]
      == MarginOf(k, index, opts)
        + Plain(LineRows(line, VisibleWidth(PrefixOf(index, opts), opts.w), Columns(opts), opts.w)[k])
  {
    var rows := LineRows(line, VisibleWidth(PrefixOf(index, opts), opts.w), Columns(opts), opts.w);
    assert [] + Plain(rows[k]) == Plain(rows[k]);
  }

  /** Where the cursor is in the rows of its line: row, character of the row, and column. */
  lemma CursorInRows(line: string, col: nat, prefixWidth: nat, columns: nat, w: Widths) returns (k: nat, j: nat)
    requires prefixWidth + 2 <= columns && Narrow(line, w) && col <= |line|
    ensures var rows := LineRows(line, prefixWidth, columns, w);
      && k < |rows| && j <= |rows[k]| && Narrow(rows[k], w) && StartsAt(rows[k][j..], line, col)
      && LineCursor(line, col, prefixWidth, columns, w) == (k, Margin(k, prefixWidth) + Width(rows[k][..j], w))
  {
    var rows := LineRows(line, prefixWidth, columns, w);
    RowsHoldTheLine(line, prefixWidth, columns, w);
    NarrowCursorIsExact(line, col, prefixWidth, columns, w);
    LocateChar(rows, col);
    var at := Locate(rows, col);
    PieceIsNarrow(rows, at.0, line, w);
    k, j := at.0, at.1;
  }

  lemma CutInBlock(line: string, index: nat, col: nat, opts: Options) returns (before: Styled, tail: string)
    requires RoomBeside(PrefixOf(index, opts), opts.columns, opts.w) && Narrow(line, opts.w) && col <= |line|
    ensures var cursor := LineCursor(line, col, VisibleWidth(PrefixOf(index, opts), opts.w), Columns(opts), opts.w);
      && cursor.0 < |BlockOf(line, index, opts)|
      && Cut(BlockOf(line, index, opts)[cursor.0], cursor.1, before, tail, opts.w)
    ensures StartsAt(tail, line, col)
  {
    var prefixWidth := VisibleWidth(PrefixOf(index, opts), opts.w);
    var k, j := CursorInRows(line, col, prefixWidth, opts.columns, opts.w);
    var piece := LineRows(line, prefixWidth, opts.columns, opts.w)[k];
    BlockRow(line, index, k, opts);
    CutPiece(MarginOf(k, index, opts), piece, j, opts.w);
    before, tail := MarginOf(k, index, opts) + Plain(piece[..j]), piece[j..];
  }

  lemma InFront<T>(a: seq<T>, b: seq<T>, whole: seq<T>, k: nat)
    requires a + b <= whole && k < |b|
    ensures |a| + k < |whole| && whole[|a| + k] == b[k]
  {
    assert whole[|a| + k] == (a + b)[|a| + k];
  }

  /** The rows of the cursor's line come right after those of the lines above it. */
  lemma BlockInRows(lines: seq<string>, row: nat, opts: Options)
    requires row < |lines|
    ensures RowsUpTo(lines, row, opts) + BlockOf(lines[row], row, opts) <= RowsUpTo(lines, |lines|, opts)
  {
    RowsUpToGrows(lines, row + 1, |lines|, opts);
  }

  lemma PlanRowIs(s: State, opts: Options, block: seq<Styled>)
    requires InText(s.lines, s.row, s.col) && CursorIn(s, opts).0 < |block|
    requires RowsUpTo(s.lines, s.row, opts) + block <= RowsUpTo(s.lines, |s.lines|, opts)
    ensures var plan := LayoutOf(s, opts);
      plan.cursorRow < |plan.rows| && plan.rows[plan.cursorRow] == block[CursorIn(s, opts).0]
  {
    InFront(RowsUpTo(s.lines, s.row, opts), block, RowsUpTo(s.lines, |s.lines|, opts), CursorIn(s, opts).0);
  }

  lemma CutInPlan(s: State, opts: Options) returns (before: Styled, tail: string)
    requires InText(s.lines, s.row, s.col) && Narrow(LineOf(s), opts.w)
    requires RoomBeside(PrefixOf(s.row, opts), opts.columns, opts.w)
    ensures var plan := LayoutOf(s, opts);
      plan.cursorRow < |plan.rows| && Cut(plan.rows[plan.cursorRow], plan.cursorCol, before, tail, opts.w)
    ensures StartsAt(tail, LineOf(s), s.col)
  {
    before, tail := CutInBlock(LineOf(s), s.row, s.col, opts);
    BlockInRows(s.lines, s.row, opts);
    PlanRowIs(s, opts, BlockOf(LineOf(s), s.row, opts));
  }

  /** The frame's side, or nothing. */
  function LeftOf(opts: Options): Styled {
    match opts.frame
    case None => []
    case Some(frame) => frame.left + Spaces(1)
  }

  function RightOf(row: Styled, opts: Options): Styled {
    match opts.frame
    case None => []
    case Some(frame) => Spaces(Max(0, InnerColumns(opts) - VisibleWidth(row, opts.w))) + Spaces(1) + frame.right
  }

  /** Each buffer row is one row of the block, with the frame's sides. */
  lemma MainRowAt(view: View, k: nat, opts: Options)
    requires k < |view.bufferRows|
    ensures HeaderRows(opts) + k < |MainRows(view, opts)|
    ensures MainRows(view, opts)[HeaderRows(opts) + k]
      == LeftOf(opts) + view.bufferRows[k] + RightOf(view.bufferRows[k], opts)
  {
    var row := view.bufferRows[k];
    if opts.frame.Some? {
      var frame := opts.frame.value;
      assert FramedRows(view.bufferRows, frame, opts)[k] == FramedRow(row, frame, opts);
      assert FramedRow(row, frame, opts) == LeftOf(opts) + row + RightOf(row, opts);
    } else {
      assert [] + row + [] == row;
    }
  }

  lemma BlockStartsWithMain(view: View, k: nat, opts: Options)
    requires k < |MainRows(view, opts)|
    ensures k < |BlockRows(view, opts)| && BlockRows(view, opts)[k] == MainRows(view, opts)[k]
  {
  }

  /** The block's row at the cursor is the buffer's row, with the frame's sides. */
  lemma BlockRowAtCursor(s: State, opts: Options)
    requires Valid(s) && OptionsOk(opts) && s.search.None? && PlanOf(s, opts).cursorRow < |PlanOf(s, opts).rows|
    ensures var plan := PlanOf(s, opts);
      var row := plan.rows[plan.cursorRow];
      && CursorRowOf(s, opts) < |BlockOfState(s, opts)|
      && BlockOfState(s, opts)[CursorRowOf(s, opts)] == LeftOf(opts) + row + RightOf(row, opts)
  {
    var view := ViewOf(s, opts);
    ViewShowsCursorRow(PlanOf(s, opts), s.menu, s.menuAt, opts);
    MainRowAt(view, view.cursorRow - HeaderRows(opts), opts);
    BlockStartsWithMain(view, view.cursorRow, opts);
  }

  lemma SidesAreRight(row: Styled, opts: Options)
    requires OptionsOk(opts)
    ensures VisibleWidth(LeftOf(opts), opts.w) == Indent(opts)
    ensures opts.frame.Some? ==> RightOf(row, opts) != [] && RightOf(row, opts)[0] == Ch(' ')
    ensures opts.frame.None? ==> RightOf(row, opts) == []
  {
    if opts.frame.Some? {
      SpacesWidth(1, opts.w);
      VisibleWidthConcat(opts.frame.value.left, Spaces(1), opts.w);
    }
  }

  lemma Sides(left: Styled, before: Styled, tail: string, right: Styled, w: Widths)
    ensures left + (before + Plain(tail)) + right == (left + before) + Plain(tail) + right
    ensures VisibleWidth(left + before, w) == VisibleWidth(left, w) + VisibleWidth(before, w)
  {
    VisibleWidthConcat(left, before, w);
  }

  /** With nothing left of the row's text, the frame pads it with a blank at least before its own. */
  lemma TwoBlanksFollow(row: Styled, opts: Options)
    requires OptionsOk(opts) && opts.frame.Some? && VisibleWidth(row, opts.w) < InnerColumns(opts)
    ensures |RightOf(row, opts)| >= 2 && RightOf(row, opts)[1] == Ch(' ')
  {
  }

  /** The drawn row at the cursor: what is before the cursor takes the cursor's column. */
  lemma CutOnScreen(s: State, opts: Options) returns (before: Styled, tail: string, after: Styled)
    requires Valid(s) && AllQuiet(s.lines) && OptionsOk(opts) && s.search.None? && Narrow(LineOf(s), opts.w)
    ensures CursorRowOf(s, opts) < |BlockOfState(s, opts)|
    ensures BlockOfState(s, opts)[CursorRowOf(s, opts)] == before + Plain(tail) + after
    ensures VisibleWidth(before, opts.w) == CursorColumnOf(s, opts)
    ensures StartsAt(tail, LineOf(s), s.col) && Narrow(tail, opts.w) && BlanksAfter(tail, after)
  {
    var plan, left := PlanOf(s, opts), LeftOf(opts);
    var inner, rest := CutInPlan(s, ContentOptions(opts));
    var row := plan.rows[plan.cursorRow];
    BufferAgrees(s, opts);
    BlockRowAtCursor(s, opts);
    SidesAreRight(row, opts);
    Sides(left, inner, rest, RightOf(row, opts), opts.w);
    before, tail, after := left + inner, rest, RightOf(row, opts);
    if rest == "" {
      assert row == inner;
      if opts.frame.Some? {
        TwoBlanksFollow(row, opts);
      }
    }
  }

  /** What follows the text is a frame's blanks or nothing; two of them at least when the text has ended. */
  predicate BlanksAfter(tail: string, after: Styled) {
    after == [] || (after[0] == Ch(' ') && (tail == "" ==> |after| >= 2 && after[1] == Ch(' ')))
  }

  // ---------------------------------------------------------------- the cell under the cursor

  /** The cell under the terminal's cursor: the character there, or a blank past the end of the line. */
  ghost predicate CursorShows(scr: Screen, s: State)
    requires scr.row < |scr.rows| && InText(s.lines, s.row, s.col)
  {
    var shown, line := scr.rows[scr.row], LineOf(s);
    if s.col < |line| then scr.col < |shown| && shown[scr.col] == [line[s.col]]
    else scr.col >= |shown| || shown[scr.col] == " "
  }

  lemma CellOfText(before: Styled, tail: string, after: Styled, w: Widths)
    requires tail != "" && Narrow(tail, w) && w(' ') == 1 && BlanksAfter(tail, after)
    ensures var shown, col := Shown(before + Plain(tail) + after, w), VisibleWidth(before, w);
      col < |shown| && shown[col] == [tail[0]]
  {
    var rest := Plain(tail[1..]) + after;
    assert Plain(tail) == [Ch(tail[0])] + Plain(tail[1..]);
    assert before + Plain(tail) + after == before + [Ch(tail[0])] + rest;
    CellAt(before, tail[0], rest, w);
  }

  lemma CellOfBlank(before: Styled, after: Styled, w: Widths)
    requires w(' ') == 1 && after != [] && BlanksAfter("", after)
    ensures var shown, col := Shown(before + after, w), VisibleWidth(before, w);
      col < |shown| && shown[col] == " "
  {
    assert before + after == before + [Ch(' ')] + after[1..];
    CellAt(before, ' ', after[1..], w);
  }

  lemma CellUnderCursor(before: Styled, tail: string, after: Styled, w: Widths)
    requires Narrow(tail, w) && w(' ') == 1 && BlanksAfter(tail, after)
    ensures var shown, col := Shown(before + Plain(tail) + after, w), VisibleWidth(before, w);
      if tail != "" then col < |shown| && shown[col] == [tail[0]] else col >= |shown| || shown[col] == " "
  {
    if tail != "" {
      CellOfText(before, tail, after, w);
    } else {
      assert before + Plain(tail) + after == before + after;
      if after != [] {
        CellOfBlank(before, after, w);
      } else {
        assert before + after == before;
        ShownWidth(before, w);
      }
    }
  }

  /**
   * On every screen the editor has parked on, with width-1 text on the cursor's line: the terminal's
   * cursor stands on the character the buffer's cursor is before, and on no character past its end.
   */
  lemma CursorIsOnItsCharacter(scr: Screen, above: seq<Row>, s: State, opts: Options)
    requires Valid(s) && AllQuiet(s.lines) && OptionsOk(opts) && s.search.None? && Narrow(LineOf(s), opts.w)
    requires Parked(scr, above, s, opts)
    ensures CursorShows(scr, s)
  {
    var before, tail, after := CutOnScreen(s, opts);
    CellUnderCursor(before, tail, after, opts.w);
    var k := CursorRowOf(s, opts);
    assert scr.rows[|above| + k] == ShownRows(BlockOfState(s, opts), opts.w)[k]
      == Shown(before + Plain(tail) + after, opts.w);
  }

  /** Where the cursor stands whenever a session is safe. */
  ghost predicate ShowsCursor(l: Live, opts: Options) {
    && Runs(l, opts)
    && (l.state.done.None? && l.state.search.None? && Narrow(LineOf(l.state), opts.w) ==>
          CursorShows(l.screen, l.state))
  }

  lemma SafeShowsTheCursor(l: Live, above: seq<Row>, opts: Options)
    requires Runs(l, opts) && Safe(l, above, opts) && OptionsOk(opts)
    ensures ShowsCursor(l, opts)
  {
    if l.state.done.None? && l.state.search.None? && Narrow(LineOf(l.state), opts.w) {
      CursorIsOnItsCharacter(l.screen, above, l.state, opts);
    }
  }

  lemma RunShowsTheCursor(l: Live, keys: seq<Key>, above: seq<Row>, opts: Options, host: Host)
    requires KeptByEveryKey(DriverOf(opts, host), TameKey, SearchCheck(opts), SafetyOf(opts)) && OptionsOk(opts)
    requires SafetyOf(opts)(l, above) && TameKeys(keys) && SearchesFit(l, keys, opts, host)
    ensures ShowsCursor(RunKeys(l, keys, opts, host), opts)
  {
    RunKeepsInvariant(l, keys, above, DriverOf(opts, host), TameKey, SearchCheck(opts), SafetyOf(opts));
    InvariantShowsTheCursor(RunKeys(l, keys, opts, host), KeptAlong(l, keys, above, DriverOf(opts, host)), opts);
  }

  lemma InvariantShowsTheCursor(l: Live, above: seq<Row>, opts: Options)
    requires SafetyOf(opts)(l, above) && OptionsOk(opts)
    ensures ShowsCursor(l, opts)
  {
    SafeShowsTheCursor(l, above, opts);
  }

  /** And so after every run of keys, while the read is on and no search is open. */
  lemma SessionShowsTheCursor(s: State, screen: Screen, keys: seq<Key>, opts: Options, host: Host)
    requires Fresh(s, s.history) && OptionsOk(opts) && HostOk(host, opts) && ScreenOk(TtyOf(opts), screen)
    requires TameKeys(keys) && SearchesFit(Opened(s, screen, opts), keys, opts, host)
    ensures ShowsCursor(RunKeys(Opened(s, screen, opts), keys, opts, host), opts)
  {
    OpenIsSafe(s, screen, opts);
    EveryKeyIsSafe(opts, host);
    RunShowsTheCursor(Opened(s, screen, opts), keys, screen.rows[..screen.row], opts, host);
  }
}
