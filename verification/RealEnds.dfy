/**
 * Where a text really ends on a terminal, tabs and returns included, and exactly when a redraw's rows
 * stay the rows that the editor counts (`renderEditor` in src/cli/editor.ts).
 */
module RealEnds {
  import opened Strings
  import opened Lines
  import opened EditorState
  import opened Layout
  import opened Viewport
  import opened Terminal
  import opened Redraw
  import opened EditorSession

  /** The column after one symbol written at `col`, if the cursor stays on the row. */
  function SymEnd(sym: Sym, col: nat, tty: Tty): Option<nat>
    requires tty.columns > 0
  {
    match sym
    case Sgr(_) => Some(col)
    case Ch(c) =>
      if c == NL || c == '\U{0B}' || c == '\U{0C}' then None
      else if c == '\r' then Some(0)
      else if c == '\t' then Some(TabStop(col, tty.columns))
      else if c == '\U{08}' then Some(Max(0, col - 1))
      else if IsControl(c) then Some(col)
      else if col + tty.w(c) > tty.columns then None
      else Some(col + tty.w(c))
  }

  /** The column after `s` written from `col`, if the cursor has not left the row by then. */
  function EndColumn(s: Styled, col: nat, tty: Tty): Option<nat>
    requires tty.columns > 0
    decreases |s|
  {
    if s == [] then Some(col)
    else
      var next := SymEnd(s[0], col, tty);
      if next.None? then None else EndColumn(s[1..], next.value, tty)
  }

  /** Writing never moves up, and leaves the row exactly when the text has no end on it. */
  lemma {:induction false} PutsEnd(tty: Tty, screen: Screen, s: Styled)
    requires ScreenOk(tty, screen)
    ensures var r, end := ExecAll(tty, screen, Puts(s)), EndColumn(s, screen.col, tty);
      && r.row >= screen.row
      && (r.row == screen.row <==> end.Some?)
      && (end.Some? ==> r.col == end.value && r.top == screen.top)
    decreases |s|
  {
    if s != [] {
      assert Puts(s)[1..] == Puts(s[1..]);
      PutEnd(tty, screen, s[0]);
      PutsEnd(tty, Exec(tty, screen, Put(s[0])), s[1..]);
      assert s == [s[0]] + s[1..];
      EndColumnNext(s[0], s[1..], screen.col, tty);
    }
  }

  lemma EndColumnNext(sym: Sym, more: Styled, col: nat, tty: Tty)
    requires tty.columns > 0
    ensures EndColumn([sym] + more, col, tty)
      == if SymEnd(sym, col, tty).Some? then EndColumn(more, SymEnd(sym, col, tty).value, tty) else None
  {
  }

  lemma PutEnd(tty: Tty, screen: Screen, sym: Sym)
    requires ScreenOk(tty, screen)
    ensures var r, end := Exec(tty, screen, Put(sym)), SymEnd(sym, screen.col, tty);
      if end.Some? then r.row == screen.row && r.col == end.value && r.top == screen.top else r.row == screen.row + 1
  {
  }

  /** Without control characters the end is the measured width. */
  lemma {:induction false} QuietEnd(s: Styled, col: nat, tty: Tty)
    requires tty.columns > 0 && NoControl(s) && col <= tty.columns
    ensures EndColumn(s, col, tty)
      == if col + VisibleWidth(s, tty.w) <= tty.columns then Some(col + VisibleWidth(s, tty.w)) else None
    decreases |s|
  {
    if s != [] {
      assert forall k :: 0 <= k < |s| - 1 ==> s[1..][k] == s[k + 1];
      var next := col + SymWidth(s[0], tty.w);
      if next <= tty.columns {
        QuietEnd(s[1..], next, tty);
      }
    }
  }

  // ---------------------------------------------------------------- the rows of a block

  /** Every row ends on the row it starts on. */
  ghost predicate RowsStay(rows: seq<Styled>, tty: Tty) {
    tty.columns > 0 && forall k :: 0 <= k < |rows| ==> EndColumn(rows[k], 0, tty).Some?
  }

  predicate OnlyPuts(ops: seq<Op>) {
    forall k :: 0 <= k < |ops| ==> ops[k].Put?
  }

  /** Whatever is written, the rows above it stay as they were. */
  lemma {:induction false} PutsKeepAbove(tty: Tty, screen: Screen, ops: seq<Op>, n: nat)
    requires ScreenOk(tty, screen) && OnlyPuts(ops) && n <= screen.row
    ensures var r := ExecAll(tty, screen, ops);
      r.row >= screen.row && r.rows[..n] == screen.rows[..n]
    decreases |ops|
  {
    if ops != [] {
      PutKeepsAbove(tty, screen, ops[0].sym, n);
      assert forall k :: 0 <= k < |ops| - 1 ==> ops[1..][k] == ops[k + 1];
      PutsKeepAbove(tty, Exec(tty, screen, ops[0]), ops[1..], n);
    }
  }

  lemma PutKeepsAbove(tty: Tty, screen: Screen, sym: Sym, n: nat)
    requires ScreenOk(tty, screen) && n <= screen.row
    ensures var r := Exec(tty, screen, Put(sym));
      r.row >= screen.row && r.rows[..n] == screen.rows[..n]
  {
  }

  lemma {:induction false} RowsOnlyPut(rows: seq<Styled>)
    requires rows != []
    ensures OnlyPuts(PutRows(rows))
  {
    if |rows| > 1 {
      RowsOnlyPut(Init(rows));
    }
  }

  /** Where the writing of `n` rows ends, when it starts at the start of `screen`'s row. */
  ghost predicate EndsAt(r: Screen, screen: Screen, n: nat, stay: bool, tty: Tty)
    requires n > 0
  {
    && r.row >= screen.row + n - 1
    && (r.row == screen.row + n - 1 <==> stay)
    && (stay ==> r.top == TopAfter(tty, screen.row, n, screen.top))
  }

  lemma {:induction false} PutRowsEnd(tty: Tty, screen: Screen, rows: seq<Styled>)
    requires ScreenOk(tty, screen) && screen.col == 0 && rows != []
    requires |screen.rows| == screen.row + 1
    ensures EndsAt(ExecAll(tty, screen, PutRows(rows)), screen, |rows|, RowsStay(rows, tty), tty)
    decreases |rows|
  {
    if |rows| == 1 {
      PutsEnd(tty, screen, rows[0]);
    } else {
      var front, last := Init(rows), Last(rows);
      PutRowsEnd(tty, screen, front);
      assert front + [last] == rows;
      RowsStayLast(front, last, tty);
      PutRowsSnoc(front, last);
      var mid := ExecAll(tty, screen, PutRows(front));
      ExecConcat(tty, screen, PutRows(front), [Put(Ch(NL))] + Puts(last));
      NextRowEnds(tty, mid, last);
      OneRowMore(mid, ExecAll(tty, screen, PutRows(rows)), screen, |front|, RowsStay(front, tty),
        EndColumn(last, 0, tty).Some?, tty);
    }
  }

  lemma RowsStayLast(front: seq<Styled>, last: Styled, tty: Tty)
    requires tty.columns > 0
    ensures RowsStay(front + [last], tty) <==> RowsStay(front, tty) && EndColumn(last, 0, tty).Some?
  {
    if RowsStay(front + [last], tty) {
      assert forall k :: 0 <= k < |front| ==> (front + [last])[k] == front[k];
      assert (front + [last])[|front|] == last;
    }
  }

  /** One row more, written after `mid`, ends one row further down or below that. */
  lemma OneRowMore(mid: Screen, r: Screen, screen: Screen, n: nat, stay: bool, stays: bool, tty: Tty)
    requires n > 0 && EndsAt(mid, screen, n, stay, tty)
    requires r.row > mid.row && (r.row == mid.row + 1 <==> stays)
    requires stays ==> r.top == Max(mid.top, mid.row + 2 - tty.height)
    ensures EndsAt(r, screen, n + 1, stay && stays, tty)
  {
  }

  lemma PutRowsSnoc(front: seq<Styled>, last: Styled)
    requires front != []
    ensures PutRows(front + [last]) == PutRows(front) + ([Put(Ch(NL))] + Puts(last))
  {
    assert Init(front + [last]) == front;
    Regroup(PutRows(front), [Put(Ch(NL))], Puts(last));
  }

  /** One more row, from wherever the one before it ended. */
  lemma NextRowEnds(tty: Tty, mid: Screen, next: Styled)
    requires ScreenOk(tty, mid)
    ensures var r, stays := ExecAll(tty, mid, [Put(Ch(NL))] + Puts(next)), EndColumn(next, 0, tty).Some?;
      && r.row > mid.row
      && (r.row == mid.row + 1 <==> stays)
      && (stays ==> r.top == Max(mid.top, mid.row + 2 - tty.height))
  {
    ExecConcat(tty, mid, [Put(Ch(NL))], Puts(next));
    ExecOne(tty, mid, Put(Ch(NL)));
    PutsEnd(tty, LineFeed(tty, mid), next);
  }

  // ---------------------------------------------------------------- one redraw

  /** Back up over `total` rows: never above the window, and nothing is written. */
  lemma BackToEnds(tty: Tty, screen: Screen, total: nat, row: nat, col: nat)
    requires ScreenOk(tty, screen) && row < total
    ensures var r := ExecAll(tty, screen, BackTo(total, row, col));
      r.rows == screen.rows && r.top == screen.top && r.row == Max(screen.top, screen.row - (total - 1 - row))
  {
    var up := total - 1 - row;
    var ups := if up > 0 then [CursorUp(up)] else [];
    var rights := if col > 0 then [CursorRight(col)] else [];
    var t := ExecAll(tty, screen, ups);
    if up > 0 {
      ExecOne(tty, screen, CursorUp(up));
    }
    var u := t.(col := 0);
    ExecConcat(tty, screen, ups + [CarriageReturn], rights);
    ExecConcat(tty, screen, ups, [CarriageReturn]);
    ExecOne(tty, t, CarriageReturn);
    if col > 0 {
      ExecOne(tty, u, CursorRight(col));
    }
  }

  /** The rows above are as they were, and the cursor is on row `row` of the block or, if not `stay`, below it. */
  ghost predicate DrawnBelow(r: Screen, above: seq<Row>, row: nat, stay: bool) {
    && r.row < |r.rows| && |above| + row <= r.row
    && r.rows[..|above|] == above
    && (r.row == |above| + row <==> stay)
    && (stay ==> r.top <= |above|)
  }

  lemma RowsThenBack(tty: Tty, above: seq<Row>, top: nat, rows: seq<Styled>, row: nat, col: nat)
    requires ScreenOk(tty, Bare(above, top)) && row < |rows| <= tty.height
    ensures DrawnBelow(ExecAll(tty, Bare(above, top), PutRows(rows) + BackTo(|rows|, row, col)), above, row,
      RowsStay(rows, tty))
  {
    var bare := Bare(above, top);
    var written := ExecAll(tty, bare, PutRows(rows));
    PutRowsEnd(tty, bare, rows);
    RowsOnlyPut(rows);
    PutsKeepAbove(tty, bare, PutRows(rows), |above|);
    ExecConcat(tty, bare, PutRows(rows), BackTo(|rows|, row, col));
    BackToEnds(tty, written, |rows|, row, col);
    var back := ExecAll(tty, written, BackTo(|rows|, row, col));
    BackIsBelow(written, back, above, top, |rows|, row, RowsStay(rows, tty), tty);
  }

  lemma BackIsBelow(written: Screen, r: Screen, above: seq<Row>, top: nat, n: nat, row: nat, stay: bool, tty: Tty)
    requires ScreenOk(tty, r) && row < n <= tty.height && top <= |above|
    requires EndsAt(written, Bare(above, top), n, stay, tty)
    requires |above| <= |written.rows| && written.rows[..|above|] == above
    requires r.rows == written.rows && r.top == written.top && r.row == Max(written.top, written.row - (n - 1 - row))
    ensures DrawnBelow(r, above, row, stay)
  {
  }

  lemma SearchThenBack(tty: Tty, above: seq<Row>, top: nat, row: Styled, n: nat)
    requires ScreenOk(tty, Bare(above, top))
    ensures DrawnBelow(ExecAll(tty, Bare(above, top), Puts(row) + [CarriageReturn, CursorRight(n)]), above, 0,
      RowsStay([row], tty))
  {
    var bare, back := Bare(above, top), [CarriageReturn, CursorRight(n)];
    var written := ExecAll(tty, bare, Puts(row));
    PutsEnd(tty, bare, row);
    PutsKeepAbove(tty, bare, Puts(row), |above|);
    ExecConcat(tty, bare, Puts(row), back);
    ExecTwo(tty, written, CarriageReturn, CursorRight(n));
    assert bare.rows[..|above|] == above;
    assert [row][0] == row;
  }

  /**
   * Drawn on a bare screen, whatever the text: nothing above is touched, and the cursor is on the row
   * that the driver records exactly when every row of the block ends on the row it starts on.
   */
  lemma DrawEnds(above: seq<Row>, top: nat, s: State, opts: Options)
    requires Valid(s) && OptionsOk(opts) && ScreenOk(TtyOf(opts), Bare(above, top))
    ensures DrawnBelow(ExecAll(TtyOf(opts), Bare(above, top), DrawOps(s, opts)), above, CursorRowOf(s, opts),
      RowsStay(BlockOfState(s, opts), TtyOf(opts)))
  {
    if s.search.Some? {
      SearchThenBack(TtyOf(opts), above, top, SearchRow(s, opts), SearchColumn(s, opts));
    } else {
      var view := ViewOf(s, opts);
      BufferCounts(s, opts);
      BufferIsASlice(PlanOf(s, opts), s.menu, s.menuAt, opts);
      ViewHasRows(s, opts);
      BodyIsRows(view, opts);
      RowsThenBack(TtyOf(opts), above, top, BlockRows(view, opts), view.cursorRow, view.cursorCol);
    }
  }

  lemma ViewHasRows(s: State, opts: Options)
    requires Valid(s) && OptionsOk(opts)
    ensures ViewOf(s, opts).bufferRows != []
  {
    LayoutAgrees(s, ContentOptions(opts));
    ViewShowsCursorRow(PlanOf(s, opts), s.menu, s.menuAt, opts);
  }

  lemma DrawnIsErased(above: seq<Row>, top: nat, s: State, opts: Options)
    requires Valid(s) && OptionsOk(opts) && ScreenOk(TtyOf(opts), Bare(above, top))
    ensures var drawn := ExecAll(TtyOf(opts), Bare(above, top), DrawOps(s, opts));
      ExecAll(TtyOf(opts), drawn, ClearBlock(s, opts)) == Bare(above, drawn.top)
      <==> RowsStay(BlockOfState(s, opts), TtyOf(opts))
  {
    DrawEnds(above, top, s, opts);
    UpFromBelow(TtyOf(opts), ExecAll(TtyOf(opts), Bare(above, top), DrawOps(s, opts)), above, CursorRowOf(s, opts),
      RowsStay(BlockOfState(s, opts), TtyOf(opts)));
  }

  /** No character in the rows starts an escape sequence, which the terminal here does not read. */
  ghost predicate Readable(rows: seq<Styled>) {
    forall k, j :: 0 <= k < |rows| && 0 <= j < |rows[k]| && rows[k][j].Ch? ==> !StartsEscape(rows[k][j].c)
  }

  predicate StartsEscape(c: char) {
    c == '\U{1B}' || '\U{80}' <= c < '\U{A0}'
  }

  /**
   * So no row above is touched, and the next redraw and the final erasure take exactly the block off the
   * screen if and only if every row of it ends on the row it starts on.
   */
  lemma ErasedExactly(above: seq<Row>, top: nat, s: State, opts: Options)
    requires Valid(s) && OptionsOk(opts) && ScreenOk(TtyOf(opts), Bare(above, top))
    requires Readable(BlockOfState(s, opts))
    ensures var drawn := ExecAll(TtyOf(opts), Bare(above, top), DrawOps(s, opts));
      && |above| <= |drawn.rows| && drawn.rows[..|above|] == above
      && (ExecAll(TtyOf(opts), drawn, ClearBlock(s, opts)) == Bare(above, drawn.top)
          <==> RowsStay(BlockOfState(s, opts), TtyOf(opts)))
  {
    DrawEnds(above, top, s, opts);
    DrawnIsErased(above, top, s, opts);
  }

  lemma UpFromBelow(tty: Tty, screen: Screen, above: seq<Row>, row: nat, stay: bool)
    requires ScreenOk(tty, screen) && DrawnBelow(screen, above, row, stay)
    ensures ExecAll(tty, screen, UpAndErase(row)) == Bare(above, screen.top) <==> stay
  {
    if stay {
      UpAndEraseReaches(tty, screen, above, row);
    } else {
      UpEndsAt(tty, screen, row);
    }
  }

  lemma UpEndsAt(tty: Tty, screen: Screen, up: nat)
    requires ScreenOk(tty, screen)
    ensures ExecAll(tty, screen, UpAndErase(up)).row == Max(screen.top, screen.row - up)
  {
    var t := Exec(tty, screen, CarriageReturn);
    var ups := if up > 0 then [CursorUp(up)] else [];
    ExecConcat(tty, screen, [CarriageReturn] + ups, [EraseBelow]);
    ExecConcat(tty, screen, [CarriageReturn], ups);
    ExecOne(tty, screen, CarriageReturn);
    if up > 0 {
      ExecOne(tty, t, CursorUp(up));
    }
    ExecOne(tty, ExecAll(tty, t, ups), EraseBelow);
  }

  // ---------------------------------------------------------------- rows with tabs in a frame

  /** The control characters in it are tabs, if there are any. */
  ghost predicate OnlyTabs(s: Styled) {
    forall k :: 0 <= k < |s| && s[k].Ch? && IsControl(s[k].c) ==> s[k].c == '\t'
  }

  /** A tab takes a column at least, which the measured width `m` does not count. */
  lemma {:induction false} TabsOverflow(a: Styled, tail: Styled, col: nat, m: nat, tty: Tty)
    requires OnlyTabs(a) && NoControl(tail) && tty.columns > 0 && tty.w('\t') == 0
    requires m + VisibleWidth(a + tail, tty.w) == tty.columns && VisibleWidth(tail, tty.w) >= 2
    requires m <= col <= tty.columns && (m < col || Ch('\t') in a)
    ensures EndColumn(a + tail, col, tty).None?
    decreases |a|
  {
    if a == [] {
      assert a + tail == tail;
      QuietEnd(tail, col, tty);
    } else {
      assert a == [a[0]] + a[1..] && (a + tail)[1..] == a[1..] + tail;
      assert forall k :: 0 <= k < |a| - 1 ==> a[1..][k] == a[k + 1];
      VisibleWidthConcat(a[1..], tail, tty.w);
      if SymEnd(a[0], col, tty).Some? {
        TabsOverflow(a[1..], tail, SymEnd(a[0], col, tty).value, m + SymWidth(a[0], tty.w), tty);
      }
    }
  }

  /** A frame pads a row by its measured width, so with tabs it closes past the last column, always. */
  lemma FramedTabsOverflow(row: Styled, frame: Frame, opts: Options)
    requires opts.height.Some? && opts.frame == Some(frame) && FrameOk(frame, opts) && opts.w(' ') == 1
    requires VisibleWidth(row, opts.w) <= InnerColumns(opts) && OnlyTabs(row) && opts.w('\t') == 0
    ensures EndColumn(FramedRow(row, frame, opts), 0, TtyOf(opts)).Some? <==> NoControl(row)
  {
    FramedRowCloses(row, frame, opts);
    if NoControl(row) {
      QuietEnd(FramedRow(row, frame, opts), 0, TtyOf(opts));
    } else {
      var pad := Spaces(Max(0, InnerColumns(opts) - VisibleWidth(row, opts.w)));
      var front, tail := frame.left + Spaces(1) + row, pad + Spaces(1) + frame.right;
      assert FramedRow(row, frame, opts) == front + tail;
      SpacesWidth(1, opts.w);
      VisibleWidthConcat(pad + Spaces(1), frame.right, opts.w);
      VisibleWidthConcat(pad, Spaces(1), opts.w);
      NoControlConcat(pad + Spaces(1), frame.right);
      NoControlConcat(frame.left, Spaces(1));
      TabIn(frame.left + Spaces(1), row);
      TabsOverflow(front, tail, 0, 0, TtyOf(opts));
    }
  }

  lemma TabIn(before: Styled, row: Styled)
    requires NoControl(before) && OnlyTabs(row) && !NoControl(row)
    ensures OnlyTabs(before + row) && Ch('\t') in before + row
  {
    var k :| 0 <= k < |row| && row[k].Ch? && IsControl(row[k].c);
    assert (before + row)[|before| + k] == Ch('\t');
  }

  /** Of a framed block, what the rows of the buffer hold decides: one tab on screen and it is not erased. */
  lemma FramedBlockStays(s: State, opts: Options)
    requires Valid(s) && OptionsOk(opts) && opts.frame.Some? && opts.w('\t') == 0
    requires s.search.None? && MenuOk(s.menu, opts)
    requires forall row :: row in ViewOf(s, opts).bufferRows ==> OnlyTabs(row)
    ensures RowsStay(BlockOfState(s, opts), TtyOf(opts)) <==> NoControls(ViewOf(s, opts).bufferRows)
  {
    var view, frame, tty := ViewOf(s, opts), opts.frame.value, TtyOf(opts);
    var framed := FramedRows(view.bufferRows, frame, opts);
    LayoutAgrees(s, ContentOptions(opts));
    BufferIsASlice(PlanOf(s, opts), s.menu, s.menuAt, opts);
    forall k | 0 <= k < |framed|
      ensures EndColumn(framed[k], 0, tty).Some? <==> NoControl(view.bufferRows[k])
    {
      assert view.bufferRows[k] in PlanOf(s, opts).rows;
      FramedTabsOverflow(view.bufferRows[k], frame, opts);
    }
    MenuIsASlice(s, opts);
    MenuFits(view, s.menu, opts);
    FramedRowsStay(view, frame, opts);
  }

  lemma FramedRowsStay(view: View, frame: Frame, opts: Options)
    requires OptionsOk(opts) && opts.frame == Some(frame) && AllOneRow(MenuRows(view, opts), TtyOf(opts))
    ensures RowsStay(BlockRows(view, opts), TtyOf(opts))
      <==> RowsStay(FramedRows(view.bufferRows, frame, opts), TtyOf(opts))
  {
    var framed, menu, tty := FramedRows(view.bufferRows, frame, opts), MenuRows(view, opts), TtyOf(opts);
    OneRowsStay(menu, tty);
    OneRowsStay([frame.top], tty);
    OneRowsStay([frame.bottom], tty);
    RowsStayConcat([frame.top], framed, tty);
    RowsStayConcat([frame.top] + framed, [frame.bottom], tty);
    RowsStayConcat(MainRows(view, opts), menu, tty);
    assert BlockRows(view, opts) == MainRows(view, opts) + menu;
  }

  lemma OneRowsStay(rows: seq<Styled>, tty: Tty)
    requires AllOneRow(rows, tty) && tty.columns > 0
    ensures RowsStay(rows, tty)
  {
    forall k | 0 <= k < |rows|
      ensures EndColumn(rows[k], 0, tty).Some?
    {
      QuietEnd(rows[k], 0, tty);
    }
  }

  lemma RowsStayConcat(a: seq<Styled>, b: seq<Styled>, tty: Tty)
    ensures RowsStay(a + b, tty) <==> RowsStay(a, tty) && RowsStay(b, tty)
  {
    if RowsStay(a + b, tty) {
      assert forall k :: 0 <= k < |a| ==> (a + b)[k] == a[k];
      assert forall k :: 0 <= k < |b| ==> (a + b)[|a| + k] == b[k];
    }
  }

  // ---------------------------------------------------------------- sessions, whatever is typed

  /** Nothing above the block is touched, and the cursor is on the row that the driver records. */
  ghost predicate Placed(l: Live, above: seq<Row>, opts: Options) {
    && Runs(l, opts) && l.state.done.None?
    && l.cursorRow == Some(CursorRowOf(l.state, opts))
    && DrawnBelow(l.screen, above, CursorRowOf(l.state, opts), true)
  }

  /** A redraw of any state leaves its block placed exactly when every row ends on the row it starts on. */
  lemma RedrawIsPlaced(l: Live, s: State, above: seq<Row>, opts: Options)
    requires Placed(l, above, opts) && OptionsOk(opts) && Valid(s) && s.done.None?
    ensures Placed(Draw(l.(state := s), opts), above, opts) <==> RowsStay(BlockOfState(s, opts), TtyOf(opts))
  {
    UpAndEraseReaches(TtyOf(opts), l.screen, above, l.cursorRow.value);
    DrawIsPlaced(l.(state := s), above, opts);
  }

  lemma DrawIsPlaced(l: Live, above: seq<Row>, opts: Options)
    requires Runs(l, opts) && OptionsOk(opts) && l.state.done.None?
    requires ExecAll(TtyOf(opts), l.screen, UpAndErase(if l.cursorRow.Some? then l.cursorRow.value else 0))
      == Bare(above, l.screen.top)
    ensures Placed(Draw(l, opts), above, opts) <==> RowsStay(BlockOfState(l.state, opts), TtyOf(opts))
  {
    var tty, up := TtyOf(opts), UpAndErase(if l.cursorRow.Some? then l.cursorRow.value else 0);
    RenderIs(l.state, opts, l.cursorRow);
    ExecConcat(tty, l.screen, up, DrawOps(l.state, opts));
    DrawEnds(above, l.screen.top, l.state, opts);
  }

  lemma ClearIsPlaced(l: Live, above: seq<Row>, opts: Options, host: Host)
    requires Placed(l, above, opts) && OptionsOk(opts) && RowsStay(BlockOfState(l.state, opts), TtyOf(opts))
    ensures Placed(KeyStep(l, Key.Clear, opts, host), above[..l.screen.top], opts)
  {
    var tty := TtyOf(opts);
    var cleared := ExecAll(tty, l.screen, [EraseScreen, CursorHome]);
    ClearStarts(tty, l.screen);
    assert l.screen.rows[..l.screen.top] == above[..l.screen.top];
    UpAndEraseReaches(tty, cleared, above[..l.screen.top], 0);
    DrawIsPlaced(Live(l.state, None, cleared), above[..l.screen.top], opts);
    ClearStepIs(l, opts, host);
  }

  /** What a session leaves, whatever is on screen: the block placed, or only the transcript. */
  ghost predicate Untouched(l: Live, above: seq<Row>, opts: Options) {
    if l.state.done.Some? then Runs(l, opts) && TakenDown(l, above) else Placed(l, above, opts)
  }

  lemma FinishKeepsTheView(s: State, t: State, opts: Options)
    requires Valid(s) && Valid(t) && t == s.(done := t.done)
    ensures ViewOf(t, opts) == ViewOf(s, opts)
  {
    assert CursorIn(t, ContentOptions(opts)) == CursorIn(s, ContentOptions(opts));
    assert PlanOf(t, opts) == PlanOf(s, opts);
  }

  lemma FinishKeepsTheSearch(s: State, t: State, opts: Options)
    requires Valid(s) && Valid(t) && t == s.(done := t.done) && s.search.Some?
    ensures SearchRow(t, opts) == SearchRow(s, opts)
  {
    assert FoundText(t) == FoundText(s);
  }

  lemma FinishKeepsTheRows(s: State, t: State, opts: Options)
    requires Valid(s) && Valid(t) && t == s.(done := t.done)
    ensures BlockOfState(t, opts) == BlockOfState(s, opts) && CursorRowOf(t, opts) == CursorRowOf(s, opts)
  {
    if s.search.Some? {
      FinishKeepsTheSearch(s, t, opts);
    } else {
      FinishKeepsTheView(s, t, opts);
    }
  }

  lemma FinishIsUntouched(l: Live, s: State, above: seq<Row>, opts: Options)
    requires Placed(l, above, opts) && Valid(s) && s.done.Some?
    requires CursorRowOf(s, opts) == CursorRowOf(l.state, opts)
    ensures TakenDown(l.(state := s, screen := ExecAll(TtyOf(opts), l.screen, ClearBlock(s, opts))), above)
  {
    UpAndEraseReaches(TtyOf(opts), l.screen, above, CursorRowOf(s, opts));
  }

  lemma FinishStepIs(l: Live, key: Key, opts: Options, host: Host)
    requires Runs(l, opts) && !key.Clear? && !key.CycleMode?
    ensures var s := ApplyKey(l.state, key, host);
      KeyStep(l, key, opts, host)
      == if s.done.Some? then l.(state := s, screen := ExecAll(TtyOf(opts), l.screen, ClearBlock(s, opts)))
         else if s != l.state then Draw(l.(state := s), opts)
         else l
  {
  }

  /** A key that neither redraws as it is nor clears the window. */
  lemma BufferStepIsUntouched(l: Live, key: Key, above: seq<Row>, opts: Options, host: Host)
    requires Placed(l, above, opts) && OptionsOk(opts) && RowsCheck(opts)(l.state)
    requires !key.Clear? && !key.CycleMode?
    ensures Untouched(KeyStep(l, key, opts, host), above, opts)
      <==> RowsCheck(opts)(KeyStep(l, key, opts, host).state)
  {
    var s := ApplyKey(l.state, key, host);
    FinishStepIs(l, key, opts, host);
    if s.done.Some? {
      FinishingKeepsTheBlock(l.state, key, host);
      FinishKeepsTheRows(l.state, s, opts);
      FinishIsUntouched(l, s, above, opts);
    } else {
      RedrawIsPlaced(l, s, above, opts);
    }
  }

  /** The rows of the block stay the rows they are counted as. */
  ghost function RowsCheck(opts: Options): State -> bool {
    s => Valid(s) && opts.height.Some? && RowsStay(BlockOfState(s, opts), TtyOf(opts))
  }

  /** The terminal reads them as drawn. */
  ghost function ReadCheck(opts: Options): State -> bool {
    s => Valid(s) && Readable(BlockOfState(s, opts))
  }

  lemma StepIsUntouchedExactly(l: Live, key: Key, above: seq<Row>, opts: Options, host: Host)
    requires Placed(l, above, opts) && OptionsOk(opts) && RowsCheck(opts)(l.state)
    ensures Untouched(KeyStep(l, key, opts, host), Kept(l, key, above), opts)
      <==> RowsCheck(opts)(KeyStep(l, key, opts, host).state)
  {
    if key.Clear? {
      ClearIsPlaced(l, above, opts, host);
    } else if key.CycleMode? {
      assert l.(state := l.state) == l;
      RedrawIsPlaced(l, l.state, above, opts);
    } else {
      BufferStepIsUntouched(l, key, above, opts, host);
    }
  }

  /** `inv` holds after each key of a run. */
  ghost predicate HoldsAlong(l: Live, keys: seq<Key>, above: seq<Row>, step: Driver, inv: Invariant)
    decreases |keys|
  {
    keys == [] || l.state.done.Some? ||
    (inv(step(l, keys[0]), Kept(l, keys[0], above))
     && HoldsAlong(step(l, keys[0]), keys[1..], Kept(l, keys[0], above), step, inv))
  }

  ghost predicate KeptExactly(step: Driver, ok: State -> bool, inv: Invariant) {
    forall l, key, above :: inv(l, above) && l.state.done.None? && ok(l.state)
      ==> (inv(step(l, key), Kept(l, key, above)) <==> ok(step(l, key).state))
  }

  lemma {:induction false} HoldsExactly(l: Live, keys: seq<Key>, above: seq<Row>, step: Driver, ok: State -> bool,
    inv: Invariant)
    requires KeptExactly(step, ok, inv) && inv(l, above) && ok(l.state)
    ensures HoldsAlong(l, keys, above, step, inv) <==> AlongRun(l, keys, step, ok)
    ensures AlongRun(l, keys, step, ok) ==> inv(RunWith(l, keys, step), KeptAlong(l, keys, above, step))
    decreases |keys|
  {
    if keys != [] && l.state.done.None? {
      var next, kept := step(l, keys[0]), Kept(l, keys[0], above);
      if ok(next.state) {
        HoldsExactly(next, keys[1..], kept, step, ok, inv);
      }
    }
  }

  ghost function UntouchedOf(opts: Options): Invariant {
    (l, above) => Untouched(l, above, opts)
  }

  lemma EveryKeyExactly(opts: Options, host: Host)
    requires OptionsOk(opts)
    ensures KeptExactly(DriverOf(opts, host), RowsCheck(opts), UntouchedOf(opts))
  {
    var step, ok, inv := DriverOf(opts, host), RowsCheck(opts), UntouchedOf(opts);
    forall l, key, above | inv(l, above) && l.state.done.None? && ok(l.state)
      ensures inv(step(l, key), Kept(l, key, above)) <==> ok(step(l, key).state)
    {
      StepIsUntouchedExactly(l, key, above, opts, host);
    }
  }

  lemma OpenIsUntouched(s: State, screen: Screen, opts: Options)
    requires Valid(s) && s.done.None? && OptionsOk(opts) && ScreenOk(TtyOf(opts), screen) && RowsCheck(opts)(s)
    ensures UntouchedOf(opts)(Opened(s, screen, opts), screen.rows[..screen.row])
  {
    var above := screen.rows[..screen.row];
    UpAndEraseReaches(TtyOf(opts), screen, above, 0);
    DrawIsPlaced(Live(s, None, screen), above, opts);
  }

  /**
   * For every run of keys, whatever is typed, remembered or offered but escape sequences: no row above
   * the block is touched and the block is placed, or taken down, after each key if and only if every row
   * of every block drawn ends on the row it starts on.
   */
  lemma SessionIsUntouchedExactly(s: State, screen: Screen, keys: seq<Key>, opts: Options, host: Host)
    requires Valid(s) && s.done.None? && OptionsOk(opts) && ScreenOk(TtyOf(opts), screen) && RowsCheck(opts)(s)
    requires ReadCheck(opts)(s) && AlongRun(Opened(s, screen, opts), keys, DriverOf(opts, host), ReadCheck(opts))
    ensures var above, l, step := screen.rows[..screen.row], Opened(s, screen, opts), DriverOf(opts, host);
      && (HoldsAlong(l, keys, above, step, UntouchedOf(opts)) <==> AlongRun(l, keys, step, RowsCheck(opts)))
      && (AlongRun(l, keys, step, RowsCheck(opts)) ==>
            Untouched(RunKeys(l, keys, opts, host), KeptAlong(l, keys, above, step), opts))
  {
    var above, l := screen.rows[..screen.row], Opened(s, screen, opts);
    OpenIsUntouched(s, screen, opts);
    EveryKeyExactly(opts, host);
    HoldsExactly(l, keys, above, DriverOf(opts, host), RowsCheck(opts), UntouchedOf(opts));
  }

  // ---------------------------------------------------------------- a pasted tab

  lemma ShortLineIsOneRow(line: string, prefixWidth: nat, columns: nat, w: Widths)
    requires prefixWidth + Width(line, w) < columns
    ensures LineRows(line, prefixWidth, columns, w) == [line]
  {
    RestRows(line, prefixWidth, columns, w);
    assert line[|line|..] == "";
  }

  lemma OneRowPlan(s: State, line: string, opts: Options)
    requires Valid(s) && s.lines == [line]
    requires VisibleWidth(opts.prompt, opts.w) + Width(line, opts.w) < opts.columns
    ensures LayoutOf(s, opts).rows == [opts.prompt + Plain(line)]
  {
    ShortLineIsOneRow(line, VisibleWidth(opts.prompt, opts.w), opts.columns, opts.w);
    assert RowsUpTo(s.lines, 1, opts) == RowsUpTo(s.lines, 0, opts) + BlockOf(line, 0, opts);
  }

  lemma OneRowView(s: State, line: string, opts: Options)
    requires Valid(s) && OptionsOk(opts) && s.lines == [line]
    requires VisibleWidth(opts.prompt, opts.w) + Width(line, opts.w) < InnerColumns(opts)
    ensures ViewOf(s, opts).bufferRows == [opts.prompt + Plain(line)]
  {
    OneRowPlan(s, line, ContentOptions(opts));
    LayoutAgrees(s, ContentOptions(opts));
    WholeView(PlanOf(s, opts), s.menu, s.menuAt, opts);
  }

  lemma WholeView(plan: Plan, menu: seq<string>, menuAt: nat, opts: Options)
    requires |plan.rows| == 1 && plan.cursorRow == 0
    ensures Divide(plan, menu, menuAt, opts).bufferRows == plan.rows
  {
  }

  lemma PastedIs(history: seq<string>, text: string, host: Host)
    requires NL !in text
    ensures var s := ApplyKey(NewState(history), Text(text), host);
      s.lines == [text] && s.search.None? && s.menu == []
  {
    SplitOfCleanLine(text);
    assert ""[..0] + text + ""[0..] == text;
  }

  /** A text that is one row beside the prompt, with no control character but tabs. */
  predicate OneLineOfTabs(text: string, opts: Options) {
    && (forall k :: 0 <= k < |text| && IsControl(text[k]) ==> text[k] == '\t')
    && VisibleWidth(opts.prompt, opts.w) + Width(text, opts.w) < InnerColumns(opts)
  }

  /**
   * Text with tabs pasted into an empty framed prompt, short enough for one row: the block it is drawn in
   * is erased again exactly when there is no tab in it.
   */
  lemma PastedTabs(above: seq<Row>, top: nat, history: seq<string>, text: string, opts: Options, host: Host)
    requires OptionsOk(opts) && opts.frame.Some? && opts.w('\t') == 0
    requires OneLineOfTabs(text, opts) && ScreenOk(TtyOf(opts), Bare(above, top))
    ensures var s := ApplyKey(NewState(history), Text(text), host);
      var drawn := ExecAll(TtyOf(opts), Bare(above, top), DrawOps(s, opts));
      ExecAll(TtyOf(opts), drawn, ClearBlock(s, opts)) == Bare(above, drawn.top) <==> '\t' !in text
  {
    var s := ApplyKey(NewState(history), Text(text), host);
    PastedIs(history, text, host);
    FramedLine(above, top, s, text, opts);
  }

  lemma FramedLine(above: seq<Row>, top: nat, s: State, text: string, opts: Options)
    requires OptionsOk(opts) && opts.frame.Some? && opts.w('\t') == 0
    requires Valid(s) && s.lines == [text] && s.search.None? && MenuOk(s.menu, opts)
    requires OneLineOfTabs(text, opts) && ScreenOk(TtyOf(opts), Bare(above, top))
    ensures var drawn := ExecAll(TtyOf(opts), Bare(above, top), DrawOps(s, opts));
      ExecAll(TtyOf(opts), drawn, ClearBlock(s, opts)) == Bare(above, drawn.top) <==> '\t' !in text
  {
    FramedLineStays(s, text, opts);
    DrawnIsErased(above, top, s, opts);
  }

  lemma FramedLineStays(s: State, text: string, opts: Options)
    requires OptionsOk(opts) && opts.frame.Some? && opts.w('\t') == 0
    requires Valid(s) && s.lines == [text] && s.search.None? && MenuOk(s.menu, opts)
    requires OneLineOfTabs(text, opts)
    ensures RowsStay(BlockOfState(s, opts), TtyOf(opts)) <==> '\t' !in text
  {
    var row := opts.prompt + Plain(text);
    OneRowView(s, text, opts);
    TabsOfRow(opts.prompt, text);
    OneOfOne(ViewOf(s, opts).bufferRows, row);
    FramedBlockStays(s, opts);
  }

  lemma OneOfOne(rows: seq<Styled>, row: Styled)
    requires rows == [row]
    ensures NoControls(rows) <==> NoControl(row)
    ensures OnlyTabs(row) ==> forall r :: r in rows ==> OnlyTabs(r)
  {
    assert rows[0] == row;
  }

  lemma TabsOfRow(prompt: Styled, text: string)
    requires NoControl(prompt) && forall k :: 0 <= k < |text| && IsControl(text[k]) ==> text[k] == '\t'
    ensures OnlyTabs(prompt + Plain(text)) && (NoControl(prompt + Plain(text)) <==> '\t' !in text)
  {
    PlainIsQuiet(text);
    NoControlConcat(prompt, Plain(text));
  }

  /** A tab and a letter are enough, whatever the width, the frame and the prompt. */
  lemma TabAndLetter(above: seq<Row>, top: nat, history: seq<string>, opts: Options, host: Host)
    requires OptionsOk(opts) && opts.frame.Some? && opts.w('\t') == 0 && opts.w('x') == 1
    requires ScreenOk(TtyOf(opts), Bare(above, top))
    ensures var s := ApplyKey(NewState(history), Text("\tx"), host);
      var drawn := ExecAll(TtyOf(opts), Bare(above, top), DrawOps(s, opts));
      ExecAll(TtyOf(opts), drawn, ClearBlock(s, opts)) != Bare(above, drawn.top)
  {
    var text := "\tx";
    WidthConcat("\t", "x", opts.w);
    OneChar('\t', opts.w);
    OneChar('x', opts.w);
    assert text == "\t" + "x" && text[0] == '\t';
    PastedTabs(above, top, history, text, opts, host);
  }
}
