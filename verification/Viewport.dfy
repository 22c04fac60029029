/**
 * The whole buffer laid out, and how the window is divided between it, the completion menu and
 * the frame (`layout` and `viewport` in src/cli/editor.ts, `inputFrame` in src/cli/render.ts).
 */
module Viewport {
  import opened Strings
  import opened Lines
  import opened EditorState
  import opened Layout

  datatype Frame = Frame(top: Styled, bottom: Styled, left: Styled, right: Styled, gutter: nat)

  /** A colour: what goes before the text it applies to, and what goes after. */
  datatype Paint = Paint(before: string, after: string)

  datatype Palette = Palette(accentBold: Paint, grey: Paint)

  datatype Options = Options(
    prompt: Styled,
    continuation: Styled,
    columns: nat,
    height: Option<int>,
    footer: Styled,
    frame: Option<Frame>,
    palette: Palette,
    w: Widths
  )

  function Painted(paint: Paint, s: Styled): Styled {
    [Sgr(paint.before)] + s + [Sgr(paint.after)]
  }

  // ---------------------------------------------------------------- the buffer laid out

  function PrefixOf(index: nat, opts: Options): Styled {
    if index == 0 then opts.prompt else opts.continuation
  }

  function Columns(opts: Options): (r: nat)
    ensures r > 0
  {
    if opts.columns > 0 then opts.columns else 1
  }

  /** The drawn rows of the logical line at `index`. */
  function BlockOf(line: string, index: nat, opts: Options): (rows: seq<Styled>)
    ensures rows != []
  {
    var prefix := PrefixOf(index, opts);
    WithPrefix(prefix, LineRows(line, VisibleWidth(prefix, opts.w), Columns(opts), opts.w))
  }

  function WithPrefix(prefix: Styled, rows: seq<string>): (r: seq<Styled>)
    requires rows != []
    ensures |r| == |rows|
  {
    seq(|rows|, k requires 0 <= k < |rows| => if k == 0 then prefix + Plain(rows[0]) else Plain(rows[k]))
  }

  /** The drawn rows of the first `n` logical lines. */
  function RowsUpTo(lines: seq<string>, n: nat, opts: Options): (rows: seq<Styled>)
    requires n <= |lines|
    ensures n > 0 ==> rows != []
  {
    if n == 0 then [] else RowsUpTo(lines, n - 1, opts) + BlockOf(lines[n - 1], n - 1, opts)
  }

  datatype Plan = Plan(rows: seq<Styled>, cursorRow: nat, cursorCol: nat)

  function CursorIn(s: State, opts: Options): (nat, nat)
    requires InText(s.lines, s.row, s.col)
  {
    LineCursor(LineOf(s), s.col, VisibleWidth(PrefixOf(s.row, opts), opts.w), Columns(opts), opts.w)
  }

  function LayoutOf(s: State, opts: Options): (plan: Plan)
    requires InText(s.lines, s.row, s.col)
    ensures plan.rows != []
  {
    var cursor := CursorIn(s, opts);
    Plan(RowsUpTo(s.lines, |s.lines|, opts), |RowsUpTo(s.lines, s.row, opts)| + cursor.0, cursor.1)
  }

  lemma RowWidth(prefix: Styled, text: string, w: Widths)
    ensures VisibleWidth(prefix + Plain(text), w) == VisibleWidth(prefix, w) + Width(text, w)
    ensures VisibleWidth(Plain(text), w) == Width(text, w)
  {
    VisibleWidthConcat(prefix, Plain(text), w);
    PlainWidth(text, w);
  }

  /** The pieces that are not empty, each a row of its own. */
  method PushPieces(first: Styled, pieces: seq<string>) returns (out: seq<Styled>)
    ensures out == [first] + PlainRows(NonEmpty(pieces))
  {
    out := [first];
    assert pieces[0..] == pieces;
    for i := 0 to |pieces|
      invariant [first] + PlainRows(NonEmpty(pieces)) == out + PlainRows(NonEmpty(pieces[i..]))
    {
      assert pieces[i..][1..] == pieces[i + 1..];
      if pieces[i] != "" {
        PlainRowsFirst(pieces[i], NonEmpty(pieces[i + 1..]));
        assert out + ([Plain(pieces[i])] + PlainRows(NonEmpty(pieces[i + 1..])))
          == out + [Plain(pieces[i])] + PlainRows(NonEmpty(pieces[i + 1..]));
        out := out + [Plain(pieces[i])];
      }
    }
    assert out + [] == out;
  }

  function PlainRows(texts: seq<string>): (r: seq<Styled>)
    ensures |r| == |texts|
  {
    seq(|texts|, k requires 0 <= k < |texts| => Plain(texts[k]))
  }

  lemma PlainRowsFirst(text: string, more: seq<string>)
    ensures PlainRows([text] + more) == [Plain(text)] + PlainRows(more)
  {
  }

  lemma PrefixedRows(prefix: Styled, texts: seq<string>)
    requires texts != []
    ensures WithPrefix(prefix, texts) == [prefix + Plain(texts[0])] + PlainRows(texts[1..])
    ensures WithPrefix(prefix, texts + [""]) == WithPrefix(prefix, texts) + [[]]
  {
    assert Plain("") == [];
  }

  lemma LastRowOfBlock(prefix: Styled, texts: seq<string>, w: Widths)
    requires texts != []
    ensures VisibleWidth(Last(WithPrefix(prefix, texts)), w) == LastRowWidth(texts, VisibleWidth(prefix, w), w)
  {
    RowWidth(prefix, Last(texts), w);
    assert Last(WithPrefix(prefix, texts)) == if |texts| == 1 then prefix + Plain(texts[0]) else Plain(Last(texts));
  }

  /** The rows that hold one logical line's text. */
  method PushText(line: string, prefix: Styled, columns: nat, w: Widths) returns (out: seq<Styled>)
    ensures out == WithPrefix(prefix, FilledRows(line, VisibleWidth(prefix, w), columns, w))
  {
    var prefixWidth: int := VisibleWidth(prefix, w);
    var head := ChunkByColumns(line, Max(1, columns - prefixWidth), w);
    HeadIsFirst(line, Max(1, columns - prefixWidth), w);
    var pieces := ChunkByColumns(line[|head[0]|..], columns, w);
    out := PushPieces(prefix + Plain(head[0]), pieces);
    ghost var texts := FilledRows(line, prefixWidth, columns, w);
    assert texts[1..] == NonEmpty(pieces);
    PrefixedRows(prefix, texts);
  }

  /** One logical line's rows, pushed the way the source pushes them. */
  method PushLine(rows: seq<Styled>, line: string, index: nat, opts: Options) returns (out: seq<Styled>)
    ensures out == rows + BlockOf(line, index, opts)
  {
    var columns, prefix := Columns(opts), PrefixOf(index, opts);
    out := PushText(line, prefix, columns, opts.w);
    ghost var texts := FilledRows(line, VisibleWidth(prefix, opts.w), columns, opts.w);
    PrefixedRows(prefix, texts);
    LastRowOfBlock(prefix, texts, opts.w);
    if VisibleWidth(Last(out), opts.w) >= columns {
      out := out + [[]];
    }
    out := rows + out;
  }

  /** The rows of one more line. */
  method PushNext(rows: seq<Styled>, lines: seq<string>, index: nat, opts: Options) returns (out: seq<Styled>)
    requires index < |lines| && rows == RowsUpTo(lines, index, opts)
    ensures out == RowsUpTo(lines, index + 1, opts)
  {
    out := PushLine(rows, lines[index], index, opts);
  }

  method ComputeLayout(s: State, opts: Options) returns (plan: Plan)
    requires InText(s.lines, s.row, s.col)
    ensures plan == LayoutOf(s, opts)
  {
    ghost var at, above := CursorIn(s, opts), |RowsUpTo(s.lines, s.row, opts)|;
    var rows: seq<Styled> := [];
    var cursorRow, cursorCol := 0, VisibleWidth(opts.prompt, opts.w);
    for index := 0 to |s.lines|
      invariant rows == RowsUpTo(s.lines, index, opts)
      invariant index > s.row ==> cursorRow == above + at.0 && cursorCol == at.1
    {
      if index == s.row {
        var cursor := CursorIn(s, opts);
        cursorRow, cursorCol := |rows| + cursor.0, cursor.1;
      }
      rows := PushNext(rows, s.lines, index, opts);
    }
    plan := Plan(rows, cursorRow, cursorCol);
  }

  // ---------------------------------------------------------------- what holds of a layout

  ghost predicate RoomBeside(prefix: Styled, columns: nat, w: Widths) {
    VisibleWidth(prefix, w) + 2 <= columns
  }

  ghost predicate AllFit(rows: seq<Styled>, columns: nat, w: Widths) {
    forall k :: 0 <= k < |rows| ==> VisibleWidth(rows[k], w) <= columns
  }

  lemma BlockFits(line: string, index: nat, opts: Options)
    requires RoomBeside(PrefixOf(index, opts), opts.columns, opts.w)
    ensures AllFit(BlockOf(line, index, opts), opts.columns, opts.w)
  {
    var prefix := PrefixOf(index, opts);
    var prefixWidth := VisibleWidth(prefix, opts.w);
    var rows := LineRows(line, prefixWidth, opts.columns, opts.w);
    LineRowsFit(line, prefixWidth, opts.columns, opts.w);
    forall k | 0 <= k < |rows| ensures VisibleWidth(BlockOf(line, index, opts)[k], opts.w) <= opts.columns {
      RowWidth(prefix, rows[k], opts.w);
      assert Margin(k, prefixWidth) + Width(rows[k], opts.w) <= opts.columns;
    }
  }

  lemma FitConcat(a: seq<Styled>, b: seq<Styled>, columns: nat, w: Widths)
    requires AllFit(a, columns, w) && AllFit(b, columns, w)
    ensures AllFit(a + b, columns, w)
  {
  }

  lemma {:induction false} RowsUpToFit(lines: seq<string>, n: nat, opts: Options)
    requires n <= |lines|
    requires RoomBeside(opts.prompt, opts.columns, opts.w) && RoomBeside(opts.continuation, opts.columns, opts.w)
    ensures AllFit(RowsUpTo(lines, n, opts), opts.columns, opts.w)
  {
    if n > 0 {
      var before, block := RowsUpTo(lines, n - 1, opts), BlockOf(lines[n - 1], n - 1, opts);
      RowsUpToFit(lines, n - 1, opts);
      BlockFits(lines[n - 1], n - 1, opts);
      FitConcat(before, block, opts.columns, opts.w);
      assert RowsUpTo(lines, n, opts) == before + block;
    }
  }

  lemma {:induction false} RowsUpToGrows(lines: seq<string>, m: nat, n: nat, opts: Options)
    requires m <= n <= |lines|
    ensures RowsUpTo(lines, m, opts) <= RowsUpTo(lines, n, opts)
    decreases n
  {
    if m < n {
      RowsUpToGrows(lines, m, n - 1, opts);
      GrowsByOne(lines, n, opts);
    }
  }

  lemma GrowsByOne(lines: seq<string>, n: nat, opts: Options)
    requires 0 < n <= |lines|
    ensures RowsUpTo(lines, n - 1, opts) <= RowsUpTo(lines, n, opts)
  {
  }

  /**
   * The layout agrees with itself: every row fits the width, and the cursor is a column of one of
   * the rows, whatever the widths of the characters.
   */
  lemma LayoutAgrees(s: State, opts: Options)
    requires InText(s.lines, s.row, s.col)
    requires RoomBeside(opts.prompt, opts.columns, opts.w) && RoomBeside(opts.continuation, opts.columns, opts.w)
    ensures var plan := LayoutOf(s, opts);
      && AllFit(plan.rows, opts.columns, opts.w)
      && plan.cursorRow < |plan.rows|
      && plan.cursorCol < opts.columns
  {
    RowsUpToFit(s.lines, |s.lines|, opts);
    CursorOnARow(LineOf(s), s.col, VisibleWidth(PrefixOf(s.row, opts), opts.w), opts.columns, opts.w);
    RowsUpToGrows(s.lines, s.row + 1, |s.lines|, opts);
  }

  // ---------------------------------------------------------------- dividing the window

  datatype View = View(
    bufferRows: seq<Styled>,
    cursorRow: nat,
    cursorCol: nat,
    menuItems: seq<string>,
    menuSelected: nat,
    headerRows: nat,
    footerRows: nat,
    total: nat
  )

  function InnerColumns(opts: Options): nat {
    if opts.frame.None? then opts.columns else Max(8, opts.columns - opts.frame.value.gutter)
  }

  function ContentOptions(opts: Options): Options {
    if opts.frame.None? then opts else opts.(columns := InnerColumns(opts))
  }

  function HeaderRows(opts: Options): nat {
    if opts.frame.Some? then 1 else 0
  }

  function FooterRows(opts: Options): nat {
    if opts.frame.Some? || opts.footer != [] then 1 else 0
  }

  function Chrome(opts: Options): nat {
    HeaderRows(opts) + FooterRows(opts)
  }

  function Indent(opts: Options): nat {
    if opts.frame.Some? then opts.frame.value.gutter / 2 else 0
  }

  /** Where a window of `share` items over `n` starts, following `at` and never running off an end. */
  function WindowStart(at: nat, share: nat, n: nat): (start: nat)
    ensures start <= at
    ensures share <= n ==> start + share <= n
    ensures 0 < share <= n && at < n ==> at < start + share
  {
    Min(Max(0, at - share / 2), Max(0, n - share))
  }

  function ContentRows(height: int, opts: Options): (r: nat)
    ensures r >= 1
  {
    Max(1, Max(1, height - 1) - Chrome(opts))
  }

  function BufferShare(forContent: nat, rows: nat, menu: nat): nat {
    Max(1, Min(rows, forContent - Min(menu, forContent / 2)))
  }

  function MenuShare(forContent: nat, rows: nat, menu: nat): nat {
    Min(menu, Max(0, forContent - BufferShare(forContent, rows, menu)))
  }

  /** A laid-out buffer and a menu, divided over the window. */
  function Divide(plan: Plan, menu: seq<string>, menuAt: nat, opts: Options): (view: View)
    requires plan.rows != []
  {
    match opts.height
    case None =>
      View(plan.rows, plan.cursorRow + HeaderRows(opts), plan.cursorCol + Indent(opts), menu, menuAt,
           HeaderRows(opts), FooterRows(opts), |plan.rows| + |menu| + Chrome(opts))
    case Some(height) =>
      var forContent := ContentRows(height, opts);
      var bufferShare := BufferShare(forContent, |plan.rows|, |menu|);
      var menuShare := MenuShare(forContent, |plan.rows|, |menu|);
      var bufferStart := WindowStart(plan.cursorRow, bufferShare, |plan.rows|);
      var menuStart := WindowStart(menuAt, menuShare, |menu|);
      View(plan.rows[bufferStart..bufferStart + bufferShare], plan.cursorRow - bufferStart + HeaderRows(opts),
           plan.cursorCol + Indent(opts), menu[menuStart..menuStart + menuShare], menuAt - menuStart,
           HeaderRows(opts), FooterRows(opts), bufferShare + menuShare + Chrome(opts))
  }

  function PlanOf(s: State, opts: Options): (plan: Plan)
    requires InText(s.lines, s.row, s.col)
    ensures plan.rows != []
  {
    LayoutOf(s, ContentOptions(opts))
  }

  function ViewOf(s: State, opts: Options): View
    requires Valid(s)
  {
    Divide(PlanOf(s, opts), s.menu, s.menuAt, opts)
  }

  /**
   * The division of the window: nothing is wasted, the menu goes past half of the content rows only
   * when the whole buffer is on screen, and each part is within what it has to show.
   */
  lemma WindowIsDivided(forContent: nat, rows: nat, menu: nat)
    requires forContent >= 1 && rows >= 1
    ensures var b, m := BufferShare(forContent, rows, menu), MenuShare(forContent, rows, menu);
      && b + m == Min(forContent, rows + menu)
      && 1 <= b <= rows && m <= menu
      && (m > forContent / 2 ==> b == rows)
  {
  }

  /**
   * With room for the chrome and one row, the block leaves the window's last row alone, no content
   * row is wasted, and the menu passes half of them only when the whole buffer is drawn.
   */
  lemma ViewFitsWindow(plan: Plan, menu: seq<string>, menuAt: nat, opts: Options)
    requires plan.rows != [] && opts.height.Some? && opts.height.value >= Chrome(opts) + 2
    ensures var view := Divide(plan, menu, menuAt, opts);
      var forContent := opts.height.value - 1 - Chrome(opts);
      && view.total == |view.bufferRows| + |view.menuItems| + Chrome(opts)
      && view.total <= opts.height.value - 1
      && |view.bufferRows| + |view.menuItems| == Min(forContent, |plan.rows| + |menu|)
      && (2 * |view.menuItems| > forContent ==> view.bufferRows == plan.rows)
  {
    WindowIsDivided(ContentRows(opts.height.value, opts), |plan.rows|, |menu|);
    assert plan.rows[0..|plan.rows|] == plan.rows;
  }

  /** Without a window height nothing is cut off. */
  lemma NoWindowShowsAll(plan: Plan, menu: seq<string>, menuAt: nat, opts: Options)
    requires plan.rows != [] && opts.height.None?
    ensures var view := Divide(plan, menu, menuAt, opts);
      view.bufferRows == plan.rows && view.menuItems == menu && view.total == |plan.rows| + |menu| + Chrome(opts)
  {
  }

  lemma WindowShows<T>(xs: seq<T>, at: nat, share: nat)
    requires 0 < share <= |xs| && at < |xs|
    ensures var start := WindowStart(at, share, |xs|);
      at - start < share && xs[start..start + share][at - start] == xs[at]
  {
  }

  /** Away from both ends the window has what it follows in its middle. */
  lemma WindowIsCentred(at: nat, share: nat, n: nat)
    requires at < n && share <= n
    ensures var start := WindowStart(at, share, n);
      && (at >= share / 2 && at - share / 2 + share <= n ==> at - start == share / 2)
      && (at < share / 2 ==> start == 0)
      && (at - share / 2 + share > n ==> start + share == n)
  {
  }

  /** The cursor is among the rows drawn, on the very row the layout put it on. */
  lemma ViewShowsCursorRow(plan: Plan, menu: seq<string>, menuAt: nat, opts: Options)
    requires plan.cursorRow < |plan.rows|
    ensures var view := Divide(plan, menu, menuAt, opts);
      && HeaderRows(opts) <= view.cursorRow < HeaderRows(opts) + |view.bufferRows|
      && view.bufferRows[view.cursorRow - HeaderRows(opts)] == plan.rows[plan.cursorRow]
  {
    if opts.height.Some? {
      var forContent := ContentRows(opts.height.value, opts);
      WindowIsDivided(forContent, |plan.rows|, |menu|);
      WindowShows(plan.rows, plan.cursorRow, BufferShare(forContent, |plan.rows|, |menu|));
    }
  }

  /** The selected candidate is among the candidates drawn. */
  lemma ViewShowsSelection(plan: Plan, menu: seq<string>, menuAt: nat, opts: Options)
    requires plan.rows != [] && menuAt < |menu|
    ensures var view := Divide(plan, menu, menuAt, opts);
      view.menuItems != [] ==> view.menuSelected < |view.menuItems| && view.menuItems[view.menuSelected] == menu[menuAt]
  {
    if opts.height.Some? {
      var share := MenuShare(ContentRows(opts.height.value, opts), |plan.rows|, |menu|);
      if share > 0 {
        WindowShows(menu, menuAt, share);
      }
    }
  }
}
