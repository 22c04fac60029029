/**
 * The bytes of one redraw, and why a whole session of them never touches a row that is not the
 * editor's (`renderEditor`, `clearBlock`, `renderedCursorRow` and the driver in src/cli/editor.ts).
 */
module Redraw {
  import opened Strings
  import opened Lines
  import opened EditorState
  import opened Layout
  import opened Viewport
  import opened Terminal

  // ---------------------------------------------------------------- the rows of a block

  const MARK: char := '\U{276F}'

  function MenuRow(item: string, selected: bool, opts: Options): Styled {
    if selected then
      Plain("  ") + Painted(opts.palette.accentBold, Plain([MARK]))
        + Plain(" ") + Painted(opts.palette.accentBold, Plain(item))
    else
      Plain("    ") + Painted(opts.palette.grey, Plain(item))
  }

  function MenuRows(view: View, opts: Options): (rows: seq<Styled>)
    ensures |rows| == |view.menuItems|
  {
    seq(|view.menuItems|,
      k requires 0 <= k < |view.menuItems| => MenuRow(view.menuItems[k], k == view.menuSelected, opts))
  }

  function Spaces(n: nat): (s: Styled)
    ensures |s| == n
  {
    seq(n, _ => Ch(' '))
  }

  /** A buffer row padded out by columns and closed on both sides. */
  function FramedRow(row: Styled, frame: Frame, opts: Options): Styled {
    var pad := Spaces(Max(0, InnerColumns(opts) - VisibleWidth(row, opts.w)));
    frame.left + Spaces(1) + row + pad + Spaces(1) + frame.right
  }

  function FramedRows(rows: seq<Styled>, frame: Frame, opts: Options): (r: seq<Styled>)
    ensures |r| == |rows|
  {
    seq(|rows|, k requires 0 <= k < |rows| => FramedRow(rows[k], frame, opts))
  }

  /** The buffer with whatever surrounds it. */
  function MainRows(view: View, opts: Options): seq<Styled> {
    match opts.frame
    case None => view.bufferRows
    case Some(frame) => [frame.top] + FramedRows(view.bufferRows, frame, opts) + [frame.bottom]
  }

  function FooterOf(opts: Options): seq<Styled> {
    if opts.frame.None? && opts.footer != [] then [opts.footer] else []
  }

  function BlockRows(view: View, opts: Options): seq<Styled> {
    MainRows(view, opts) + MenuRows(view, opts) + FooterOf(opts)
  }

  // ---------------------------------------------------------------- reverse search

  /** The longest prefix within a column budget. */
  function TakeWithin(text: string, budget: nat, w: Widths): (r: string)
    ensures |r| <= |text| && r == text[..|r|]
  {
    if text == "" || w(text[0]) > budget then "" else [text[0]] + TakeWithin(text[1..], budget - w(text[0]), w)
  }

  const ELLIPSIS: char := '\U{2026}'

  function Truncate(text: string, max: nat, w: Widths): string {
    if Width(text, w) <= max then text else TakeWithin(text, Max(0, max - 1), w) + [ELLIPSIS]
  }

  const SEARCH_OPEN := "(reverse-i-search)'"
  const SEARCH_CLOSE := "': "

  function SearchLabel(query: string): string {
    SEARCH_OPEN + query + SEARCH_CLOSE
  }

  function SearchCaption(s: State, opts: Options): Styled
    requires s.search.Some?
  {
    Painted(opts.palette.grey, Plain(SearchLabel(s.search.value.query)))
  }

  function FoundText(s: State): string
    requires Valid(s) && s.search.Some?
  {
    if Found(s).Some? then Found(s).value else ""
  }

  function SearchRow(s: State, opts: Options): Styled
    requires Valid(s) && s.search.Some?
  {
    var caption := SearchCaption(s, opts);
    caption + Plain(Truncate(FoundText(s), Max(8, opts.columns - VisibleWidth(caption, opts.w) - 1), opts.w))
  }

  function SearchColumn(s: State, opts: Options): nat
    requires s.search.Some?
  {
    VisibleWidth(SearchCaption(s, opts), opts.w) + Width(s.search.value.query, opts.w)
  }

  // ---------------------------------------------------------------- the bytes

  /** To the block's first row, given which row the cursor was left on, clearing from there down. */
  function UpAndErase(cursorRow: nat): seq<Op> {
    [CarriageReturn] + (if cursorRow > 0 then [CursorUp(cursorRow)] else []) + [EraseBelow]
  }

  function NewLine(): seq<Op> {
    [Put(Ch(NL))]
  }

  function Body(view: View, opts: Options): seq<Op>
    requires view.bufferRows != []
  {
    (match opts.frame
     case None => PutRows(view.bufferRows)
     case Some(frame) =>
       Puts(frame.top) + NewLine() + PutRows(FramedRows(view.bufferRows, frame, opts)) + NewLine() + Puts(frame.bottom))
    + (if view.menuItems != [] then NewLine() + PutRows(MenuRows(view, opts)) else [])
    + (if opts.frame.None? && view.footerRows > 0 then NewLine() + Puts(opts.footer) else [])
  }

  /** Back to the cursor: up from the end of what was written, then across. */
  function BackTo(total: nat, row: nat, col: nat): seq<Op> {
    var up := total - 1 - row;
    (if up > 0 then [CursorUp(up)] else []) + [CarriageReturn] + (if col > 0 then [CursorRight(col)] else [])
  }

  /** `renderEditor`. */
  function Render(s: State, opts: Options, previous: Option<nat>): seq<Op>
    requires Valid(s)
  {
    var start := UpAndErase(if previous.Some? then previous.value else 0);
    if s.search.Some? then
      start + Puts(SearchRow(s, opts)) + [CarriageReturn, CursorRight(SearchColumn(s, opts))]
    else
      var view := ViewOf(s, opts);
      start + Body(view, opts) + BackTo(view.total, view.cursorRow, view.cursorCol)
  }

  /** Which row of its own block the cursor sits on: the one number the next redraw moves up by. */
  function CursorRowOf(s: State, opts: Options): nat
    requires Valid(s)
  {
    if s.search.Some? then 0 else ViewOf(s, opts).cursorRow
  }

  function ClearBlock(s: State, opts: Options): seq<Op>
    requires Valid(s)
  {
    UpAndErase(CursorRowOf(s, opts))
  }

  // ---------------------------------------------------------------- the bytes are the rows

  lemma {:induction false} PutRowsConcat(a: seq<Styled>, b: seq<Styled>)
    requires a != [] && b != []
    ensures PutRows(a + b) == PutRows(a) + NewLine() + PutRows(b)
    decreases |b|
  {
    assert Last(a + b) == Last(b);
    if |b| == 1 {
      assert Init(a + b) == a;
    } else {
      assert Init(a + b) == a + Init(b);
      PutRowsConcat(a, Init(b));
      assert PutRows(a) + NewLine() + PutRows(Init(b)) + [Put(Ch(NL))] + Puts(Last(b))
          == PutRows(a) + NewLine() + (PutRows(Init(b)) + [Put(Ch(NL))] + Puts(Last(b)));
    }
  }

  lemma PutRowsThen(a: seq<Styled>, b: seq<Styled>)
    requires a != []
    ensures PutRows(a + b) == PutRows(a) + if b != [] then NewLine() + PutRows(b) else []
  {
    if b != [] {
      PutRowsConcat(a, b);
      assert PutRows(a) + NewLine() + PutRows(b) == PutRows(a) + (NewLine() + PutRows(b));
    } else {
      assert a + b == a;
    }
  }

  lemma MainIsRows(view: View, frame: Frame, opts: Options)
    requires view.bufferRows != [] && opts.frame == Some(frame)
    ensures PutRows(MainRows(view, opts))
         == Puts(frame.top) + NewLine() + PutRows(FramedRows(view.bufferRows, frame, opts))
           + NewLine() + Puts(frame.bottom)
  {
    var framed := FramedRows(view.bufferRows, frame, opts);
    PutRowsConcat([frame.top], framed);
    PutRowsConcat([frame.top] + framed, [frame.bottom]);
  }

  /** What the source concatenates is the block's rows with a newline between each two. */
  lemma BodyIsRows(view: View, opts: Options)
    requires view.bufferRows != [] && view.footerRows == FooterRows(opts)
    ensures Body(view, opts) == PutRows(BlockRows(view, opts))
  {
    var main, menu, footer := MainRows(view, opts), MenuRows(view, opts), FooterOf(opts);
    PutRowsThen(main, menu);
    PutRowsThen(main + menu, footer);
    match opts.frame
    case None =>
    case Some(frame) => MainIsRows(view, frame, opts);
  }

  // ---------------------------------------------------------------- what the options must leave room for

  function TtyOf(opts: Options): Tty
    requires opts.height.Some?
  {
    Tty(opts.columns, Max(0, opts.height.value), opts.w)
  }

  ghost predicate FrameOk(frame: Frame, opts: Options) {
    && frame.gutter == 4 && opts.columns >= 12
    && VisibleWidth(frame.left, opts.w) == 1 && NoControl(frame.left)
    && VisibleWidth(frame.right, opts.w) == 1 && NoControl(frame.right)
    && VisibleWidth(frame.top, opts.w) <= opts.columns && NoControl(frame.top)
    && VisibleWidth(frame.bottom, opts.w) <= opts.columns && NoControl(frame.bottom)
  }

  ghost predicate OptionsOk(opts: Options) {
    && opts.height.Some? && opts.height.value >= Chrome(opts) + 2
    && opts.w(' ') == 1
    && RoomBeside(opts.prompt, InnerColumns(opts), opts.w) && NoControl(opts.prompt)
    && RoomBeside(opts.continuation, InnerColumns(opts), opts.w) && NoControl(opts.continuation)
    && (opts.frame.Some? ==> FrameOk(opts.frame.value, opts))
    && (opts.frame.None? ==> OneRow(opts.footer, TtyOf(opts)))
  }

  /** Every candidate fits a row, drawn either way. */
  ghost predicate MenuOk(menu: seq<string>, opts: Options)
    requires opts.height.Some?
  {
    forall k, selected :: 0 <= k < |menu| ==> OneRow(MenuRow(menu[k], selected, opts), TtyOf(opts))
  }

  /** While a search is open, what it shows is one row. */
  ghost predicate SearchOk(s: State, opts: Options)
    requires Valid(s) && opts.height.Some?
  {
    s.search.Some? ==> OneRow(SearchRow(s, opts), TtyOf(opts))
  }

  lemma {:induction false} SpacesWidth(n: nat, w: Widths)
    requires w(' ') == 1
    ensures VisibleWidth(Spaces(n), w) == n
  {
    if n > 0 {
      assert Spaces(n)[1..] == Spaces(n - 1);
      SpacesWidth(n - 1, w);
    }
  }

  /** Every row of the box closes in the same column, the terminal's last, however the text wraps. */
  lemma FramedRowCloses(row: Styled, frame: Frame, opts: Options)
    requires opts.frame == Some(frame) && FrameOk(frame, opts) && opts.w(' ') == 1
    requires VisibleWidth(row, opts.w) <= InnerColumns(opts)
    ensures VisibleWidth(FramedRow(row, frame, opts), opts.w) == opts.columns
    ensures NoControl(row) ==> NoControl(FramedRow(row, frame, opts))
  {
    var w := opts.w;
    var pad := Spaces(Max(0, InnerColumns(opts) - VisibleWidth(row, w)));
    SpacesWidth(1, w);
    SpacesWidth(|pad|, w);
    VisibleWidthConcat(frame.left, Spaces(1), w);
    VisibleWidthConcat(frame.left + Spaces(1), row, w);
    VisibleWidthConcat(frame.left + Spaces(1) + row, pad, w);
    VisibleWidthConcat(frame.left + Spaces(1) + row + pad, Spaces(1), w);
    VisibleWidthConcat(frame.left + Spaces(1) + row + pad + Spaces(1), frame.right, w);
    FramedRowIsQuiet(row, frame, opts);
  }

  /** The frame's sides and padding move the cursor only by their width. */
  lemma FramedRowIsQuiet(row: Styled, frame: Frame, opts: Options)
    requires FrameOk(frame, opts)
    ensures NoControl(FramedRow(row, frame, opts)) <==> NoControl(row)
  {
    var pad := Spaces(Max(0, InnerColumns(opts) - VisibleWidth(row, opts.w)));
    NoControlConcat(frame.left, Spaces(1));
    NoControlConcat(frame.left + Spaces(1), row);
    NoControlConcat(frame.left + Spaces(1) + row, pad);
    NoControlConcat(frame.left + Spaces(1) + row + pad, Spaces(1));
    NoControlConcat(frame.left + Spaces(1) + row + pad + Spaces(1), frame.right);
  }

  // ---------------------------------------------------------------- buffer rows hold no control character

  ghost predicate NoControls(rows: seq<Styled>) {
    forall k :: 0 <= k < |rows| ==> NoControl(rows[k])
  }

  lemma {:induction false} PartsAreQuiet(pieces: seq<string>, k: nat)
    requires k < |pieces| && Quiet(Flatten(pieces))
    ensures Quiet(pieces[k])
  {
    var text := Flatten(pieces);
    if k == 0 {
      assert forall i :: 0 <= i < |pieces[0]| ==> pieces[0][i] == text[i];
    } else {
      var rest := Flatten(pieces[1..]);
      assert forall i :: 0 <= i < |rest| ==> rest[i] == text[|pieces[0]| + i];
      PartsAreQuiet(pieces[1..], k - 1);
    }
  }

  lemma BlockIsQuiet(line: string, index: nat, opts: Options)
    requires Quiet(line) && NoControl(PrefixOf(index, opts))
    ensures NoControls(BlockOf(line, index, opts))
  {
    var prefix := PrefixOf(index, opts);
    var prefixWidth := VisibleWidth(prefix, opts.w);
    var rows := LineRows(line, prefixWidth, Columns(opts), opts.w);
    RowsHoldTheLine(line, prefixWidth, Columns(opts), opts.w);
    forall k | 0 <= k < |rows| ensures NoControl(BlockOf(line, index, opts)[k]) {
      PartsAreQuiet(rows, k);
      PlainIsQuiet(rows[k]);
    }
  }

  lemma PlainIsQuiet(text: string)
    ensures NoControl(Plain(text)) <==> Quiet(text)
  {
    assert forall k :: 0 <= k < |text| ==> Plain(text)[k] == Ch(text[k]);
  }

  lemma {:induction false} RowsUpToAreQuiet(lines: seq<string>, n: nat, opts: Options)
    requires n <= |lines| && AllQuiet(lines)
    requires NoControl(opts.prompt) && NoControl(opts.continuation)
    ensures NoControls(RowsUpTo(lines, n, opts))
  {
    if n > 0 {
      RowsUpToAreQuiet(lines, n - 1, opts);
      BlockIsQuiet(lines[n - 1], n - 1, opts);
    }
  }

  // ---------------------------------------------------------------- the block on screen

  /** The rows a state's block occupies: the search line, or the view's rows. */
  function BlockOfState(s: State, opts: Options): seq<Styled>
    requires Valid(s)
  {
    if s.search.Some? then [SearchRow(s, opts)] else BlockRows(ViewOf(s, opts), opts)
  }

  function CursorColumnOf(s: State, opts: Options): nat
    requires Valid(s)
  {
    if s.search.Some? then Max(0, Min(opts.columns - 1, SearchColumn(s, opts))) else ViewOf(s, opts).cursorCol
  }

  lemma BufferAgrees(s: State, opts: Options)
    requires Valid(s) && AllQuiet(s.lines) && OptionsOk(opts)
    ensures var plan := PlanOf(s, opts);
      && AllFit(plan.rows, InnerColumns(opts), opts.w) && NoControls(plan.rows)
      && plan.cursorRow < |plan.rows| && plan.cursorCol < InnerColumns(opts)
  {
    var inner := ContentOptions(opts);
    LayoutAgrees(s, inner);
    RowsUpToAreQuiet(s.lines, |s.lines|, inner);
  }

  /** The rows drawn are rows of the layout. */
  lemma BufferIsASlice(plan: Plan, menu: seq<string>, menuAt: nat, opts: Options)
    requires plan.rows != []
    ensures var view := Divide(plan, menu, menuAt, opts);
      view.footerRows == FooterRows(opts) && forall row :: row in view.bufferRows ==> row in plan.rows
  {
  }

  lemma MembersFit(rows: seq<Styled>, all: seq<Styled>, columns: nat, w: Widths)
    requires AllFit(all, columns, w) && NoControls(all) && forall row :: row in rows ==> row in all
    ensures AllFit(rows, columns, w) && NoControls(rows)
  {
    forall k | 0 <= k < |rows|
      ensures VisibleWidth(rows[k], w) <= columns && NoControl(rows[k])
    {
      assert rows[k] in all;
    }
  }

  lemma BufferFits(s: State, opts: Options)
    requires Valid(s) && AllQuiet(s.lines) && OptionsOk(opts)
    ensures var view := ViewOf(s, opts);
      && view.bufferRows != [] && view.footerRows == FooterRows(opts)
      && AllFit(view.bufferRows, InnerColumns(opts), opts.w) && NoControls(view.bufferRows)
  {
    var plan := PlanOf(s, opts);
    BufferAgrees(s, opts);
    ViewShowsCursorRow(plan, s.menu, s.menuAt, opts);
    BufferIsASlice(plan, s.menu, s.menuAt, opts);
    MembersFit(ViewOf(s, opts).bufferRows, plan.rows, InnerColumns(opts), opts.w);
  }

  lemma BufferCounts(s: State, opts: Options)
    requires Valid(s) && OptionsOk(opts)
    ensures var view := ViewOf(s, opts);
      && view.cursorRow < view.total
      && view.cursorCol < opts.columns
      && view.total <= opts.height.value - 1
      && view.total == |BlockRows(view, opts)|
  {
    LayoutAgrees(s, ContentOptions(opts));
    ViewFitsWindow(PlanOf(s, opts), s.menu, s.menuAt, opts);
    ViewShowsCursorRow(PlanOf(s, opts), s.menu, s.menuAt, opts);
  }

  lemma MainFits(view: View, opts: Options)
    requires OptionsOk(opts)
    requires AllFit(view.bufferRows, InnerColumns(opts), opts.w) && NoControls(view.bufferRows)
    ensures AllOneRow(MainRows(view, opts), TtyOf(opts))
  {
    if opts.frame.Some? {
      var frame := opts.frame.value;
      forall k | 0 <= k < |view.bufferRows| ensures OneRow(FramedRow(view.bufferRows[k], frame, opts), TtyOf(opts)) {
        FramedRowCloses(view.bufferRows[k], frame, opts);
      }
    }
  }

  lemma MenuFits(view: View, menu: seq<string>, opts: Options)
    requires opts.height.Some? && MenuOk(menu, opts)
    requires forall k :: 0 <= k < |view.menuItems| ==> view.menuItems[k] in menu
    ensures AllOneRow(MenuRows(view, opts), TtyOf(opts))
  {
    forall k | 0 <= k < |view.menuItems| ensures OneRow(MenuRows(view, opts)[k], TtyOf(opts)) {
      var j :| 0 <= j < |menu| && menu[j] == view.menuItems[k];
      assert OneRow(MenuRow(menu[j], k == view.menuSelected, opts), TtyOf(opts));
    }
  }

  lemma MenuIsASlice(s: State, opts: Options)
    requires Valid(s)
    ensures forall k :: 0 <= k < |ViewOf(s, opts).menuItems| ==> ViewOf(s, opts).menuItems[k] in s.menu
  {
  }

  lemma BlockRowsFit(s: State, opts: Options)
    requires Valid(s) && AllQuiet(s.lines) && OptionsOk(opts) && MenuOk(s.menu, opts) && SearchOk(s, opts)
    ensures AllOneRow(BlockOfState(s, opts), TtyOf(opts))
  {
    if s.search.None? {
      var view := ViewOf(s, opts);
      BufferFits(s, opts);
      MainFits(view, opts);
      MenuIsASlice(s, opts);
      MenuFits(view, s.menu, opts);
      RowsOfThreeFit(MainRows(view, opts), MenuRows(view, opts), FooterOf(opts), TtyOf(opts));
    }
  }

  lemma RowsOfThreeFit(a: seq<Styled>, b: seq<Styled>, c: seq<Styled>, tty: Tty)
    requires AllOneRow(a, tty) && AllOneRow(b, tty) && AllOneRow(c, tty)
    ensures AllOneRow(a + b + c, tty)
  {
  }

  /** `above` untouched, the block right below it and wholly in the window, the cursor parked in it. */
  ghost predicate Parked(scr: Screen, above: seq<Row>, s: State, opts: Options)
    requires Valid(s) && opts.height.Some?
  {
    && ScreenOk(TtyOf(opts), scr)
    && scr.rows == above + ShownRows(BlockOfState(s, opts), opts.w)
    && scr.row == |above| + CursorRowOf(s, opts)
    && scr.col == CursorColumnOf(s, opts)
    && scr.top <= |above|
  }

  /** The screen with nothing of the editor left on it. */
  function Bare(above: seq<Row>, top: nat): Screen {
    Screen(above + [[]], top, |above|, 0)
  }

  /** Moving up by the row the cursor was left on always reaches the block's first row. */
  lemma UpReachesTheBlock(scr: Screen, above: seq<Row>, s: State, opts: Options)
    requires Valid(s) && opts.height.Some? && Parked(scr, above, s, opts)
    ensures ExecAll(TtyOf(opts), scr, UpAndErase(CursorRowOf(s, opts))) == Bare(above, scr.top)
  {
    UpAndEraseReaches(TtyOf(opts), scr, above, CursorRowOf(s, opts));
  }

  lemma UpAndEraseReaches(tty: Tty, scr: Screen, above: seq<Row>, up: nat)
    requires ScreenOk(tty, scr) && |above| + up == scr.row && scr.top <= |above| && above == scr.rows[..|above|]
    ensures ExecAll(tty, scr, UpAndErase(up)) == Bare(above, scr.top)
  {
    var t := Exec(tty, scr, CarriageReturn);
    var ups := if up > 0 then [CursorUp(up)] else [];
    var u := ExecAll(tty, t, ups);
    ExecConcat(tty, scr, [CarriageReturn] + ups, [EraseBelow]);
    ExecConcat(tty, scr, [CarriageReturn], ups);
    ExecOne(tty, scr, CarriageReturn);
    if up > 0 {
      ExecOne(tty, t, CursorUp(up));
    }
    assert u == scr.(row := |above|, col := 0);
    ExecOne(tty, u, EraseBelow);
    EraseFromStart(tty, u, above);
  }

  lemma EraseFromStart(tty: Tty, scr: Screen, above: seq<Row>)
    requires ScreenOk(tty, scr) && scr.col == 0 && scr.row == |above| && above == scr.rows[..|above|]
    ensures Exec(tty, scr, EraseBelow) == Bare(above, scr.top)
  {
    var line := scr.rows[scr.row];
    assert (if 0 < |line| then line[..0] else line) == [];
  }

  lemma BackToParks(tty: Tty, scr: Screen, total: nat, row: nat, col: nat)
    requires ScreenOk(tty, scr) && row < total && col < tty.columns
    requires scr.row >= scr.top + total - 1
    ensures ExecAll(tty, scr, BackTo(total, row, col)) == scr.(row := scr.row - (total - 1 - row), col := col)
  {
    var up := total - 1 - row;
    var ups := if up > 0 then [CursorUp(up)] else [];
    var rights := if col > 0 then [CursorRight(col)] else [];
    var t := ExecAll(tty, scr, ups);
    if up > 0 {
      ExecOne(tty, scr, CursorUp(up));
    }
    assert t == scr.(row := scr.row - up);
    var u := t.(col := 0);
    ExecConcat(tty, scr, ups + [CarriageReturn], rights);
    ExecConcat(tty, scr, ups, [CarriageReturn]);
    ExecOne(tty, t, CarriageReturn);
    if col > 0 {
      ExecOne(tty, u, CursorRight(col));
    }
  }

  /** On a bare screen, the block's bytes draw exactly its rows and park the cursor in it. */
  lemma DrawParks(above: seq<Row>, top: nat, s: State, opts: Options)
    requires Valid(s) && AllQuiet(s.lines) && OptionsOk(opts) && MenuOk(s.menu, opts) && SearchOk(s, opts)
    requires ScreenOk(TtyOf(opts), Bare(above, top))
    ensures var drawn := ExecAll(TtyOf(opts), Bare(above, top), DrawOps(s, opts));
      && Parked(drawn, above, s, opts)
      && drawn.top == TopAfter(TtyOf(opts), |above|, |BlockOfState(s, opts)|, top)
  {
    BlockRowsFit(s, opts);
    if s.search.Some? {
      DrawSearchParks(above, top, s, opts);
    } else {
      BufferFits(s, opts);
      BodyIsRows(ViewOf(s, opts), opts);
      DrawRowsPark(above, top, s, opts);
    }
  }

  /** The part of a redraw after the block has been erased. */
  function DrawOps(s: State, opts: Options): seq<Op>
    requires Valid(s)
  {
    if s.search.Some? then
      Puts(SearchRow(s, opts)) + [CarriageReturn, CursorRight(SearchColumn(s, opts))]
    else
      var view := ViewOf(s, opts);
      Body(view, opts) + BackTo(view.total, view.cursorRow, view.cursorCol)
  }

  /** Rows written on a bare screen, and the cursor taken back to one of them. */
  lemma WriteAndPark(tty: Tty, above: seq<Row>, rows: seq<Styled>, top: nat, row: nat, col: nat)
    requires rows != [] && AllOneRow(rows, tty) && row < |rows| <= tty.height && col < tty.columns
    requires ScreenOk(tty, Bare(above, top))
    ensures TopAfter(tty, |above|, |rows|, top) <= |above|
    ensures ExecAll(tty, Bare(above, top), PutRows(rows) + BackTo(|rows|, row, col))
         == Screen(above + ShownRows(rows, tty.w), TopAfter(tty, |above|, |rows|, top), |above| + row, col)
  {
    assert Bare(above, top) == ScreenEnding(above, [], top, tty.w);
    PutRowsShows(tty, above, rows, top);
    var written := ExecAll(tty, Bare(above, top), PutRows(rows));
    FrontShown(above, rows, tty.w);
    ExecConcat(tty, Bare(above, top), PutRows(rows), BackTo(|rows|, row, col));
    BackToParks(tty, written, |rows|, row, col);
  }

  lemma DrawRowsPark(above: seq<Row>, top: nat, s: State, opts: Options)
    requires Valid(s) && AllQuiet(s.lines) && OptionsOk(opts) && s.search.None?
    requires AllOneRow(BlockRows(ViewOf(s, opts), opts), TtyOf(opts))
    requires Body(ViewOf(s, opts), opts) == PutRows(BlockRows(ViewOf(s, opts), opts))
    requires ScreenOk(TtyOf(opts), Bare(above, top))
    ensures var drawn := ExecAll(TtyOf(opts), Bare(above, top), DrawOps(s, opts));
      && Parked(drawn, above, s, opts)
      && drawn.top == TopAfter(TtyOf(opts), |above|, |BlockOfState(s, opts)|, top)
  {
    BufferCounts(s, opts);
    var tty, view := TtyOf(opts), ViewOf(s, opts);
    var rows := BlockRows(view, opts);
    WriteAndPark(tty, above, rows, top, view.cursorRow, view.cursorCol);
    var now := TopAfter(tty, |above|, |rows|, top);
    var drawn := Screen(above + ShownRows(rows, opts.w), now, |above| + view.cursorRow, view.cursorCol);
    RowsArePark(drawn, above, s, opts);
  }

  lemma RowsArePark(scr: Screen, above: seq<Row>, s: State, opts: Options)
    requires Valid(s) && opts.height.Some? && s.search.None?
    requires ScreenOk(TtyOf(opts), scr) && scr.top <= |above|
    requires scr.rows == above + ShownRows(BlockRows(ViewOf(s, opts), opts), opts.w)
    requires scr.row == |above| + ViewOf(s, opts).cursorRow && scr.col == ViewOf(s, opts).cursorCol
    ensures Parked(scr, above, s, opts)
  {
  }

  lemma DrawSearchParks(above: seq<Row>, top: nat, s: State, opts: Options)
    requires Valid(s) && OptionsOk(opts) && s.search.Some?
    requires OneRow(SearchRow(s, opts), TtyOf(opts))
    requires ScreenOk(TtyOf(opts), Bare(above, top))
    ensures var drawn := ExecAll(TtyOf(opts), Bare(above, top), DrawOps(s, opts));
      && Parked(drawn, above, s, opts)
      && drawn.top == TopAfter(TtyOf(opts), |above|, 1, top)
  {
    var tty := TtyOf(opts);
    var row, n := SearchRow(s, opts), SearchColumn(s, opts);
    assert Bare(above, top) == ScreenEnding(above, [], top, opts.w);
    PutsOnRow(tty, above, row, top);
    var written := ScreenEnding(above, row, top, opts.w);
    ExecConcat(tty, Bare(above, top), Puts(row), [CarriageReturn, CursorRight(n)]);
    assert [CarriageReturn, CursorRight(n)] == [CarriageReturn] + [CursorRight(n)];
    ExecConcat(tty, written, [CarriageReturn], [CursorRight(n)]);
    ExecOne(tty, written, CarriageReturn);
    ExecOne(tty, written.(col := 0), CursorRight(n));
    assert ShownRows([row], opts.w) == [Shown(row, opts.w)];
  }

  lemma RenderIs(s: State, opts: Options, previous: Option<nat>)
    requires Valid(s)
    ensures Render(s, opts, previous) == UpAndErase(if previous.Some? then previous.value else 0) + DrawOps(s, opts)
  {
    var start := UpAndErase(if previous.Some? then previous.value else 0);
    if s.search.Some? {
      Regroup(start, Puts(SearchRow(s, opts)), [CarriageReturn, CursorRight(SearchColumn(s, opts))]);
    } else {
      var view := ViewOf(s, opts);
      Regroup(start, Body(view, opts), BackTo(view.total, view.cursorRow, view.cursorCol));
    }
  }
}
