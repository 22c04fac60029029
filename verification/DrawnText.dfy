/**
 * What the rows say on the screen that a redraw leaves: those of the buffer, those of the menu, and the
 * search line (`layout` and `renderEditor` in src/cli/editor.ts).
 */
module DrawnText {
  import opened Strings
  import opened Lines
  import opened EditorState
  import opened Layout
  import opened Viewport
  import opened Terminal
  import opened Redraw
  import opened EditorSession
  import opened CursorOnScreen

  // ---------------------------------------------------------------- colours leave no cell

  /** The characters of a styled text. */
  function TextIn(s: Styled): string {
    if s == [] then "" else (if s[0].Ch? then [s[0].c] else "") + TextIn(s[1..])
  }

  lemma {:induction false} TextInConcat(a: Styled, b: Styled)
    ensures TextIn(a + b) == TextIn(a) + TextIn(b)
  {
    if a == [] {
      assert a + b == b;
    } else {
      assert (a + b)[0] == a[0] && (a + b)[1..] == a[1..] + b;
      TextInConcat(a[1..], b);
      Regroup(if a[0].Ch? then [a[0].c] else "", TextIn(a[1..]), TextIn(b));
    }
  }

  lemma {:induction false} TextInPlain(text: string)
    ensures TextIn(Plain(text)) == text
  {
    if text != "" {
      assert Plain(text)[1..] == Plain(text[1..]);
      TextInPlain(text[1..]);
    }
  }

  lemma TextInPainted(paint: Paint, text: string)
    ensures TextIn(Painted(paint, Plain(text))) == text
  {
    var before, after := [Sgr(paint.before)], [Sgr(paint.after)];
    assert before[1..] == [] && after[1..] == [];
    TextInConcat(before, Plain(text));
    TextInConcat(before + Plain(text), after);
    TextInPlain(text);
  }

  /** A styled text shows what its characters show. */
  lemma {:induction false} ShownIsPlain(s: Styled, w: Widths)
    ensures Shown(s, w) == Shown(Plain(TextIn(s)), w)
  {
    if s == [] {
      assert Plain("") == [];
    } else {
      var front, last := Init(s), Last(s);
      ShownIsPlain(front, w);
      assert s == front + [last] && [last][1..] == [];
      TextInConcat(front, [last]);
      if last.Ch? {
        var text := TextIn(front);
        assert TextIn(s) == text + [last.c];
        assert Plain(text + [last.c]) == Plain(text) + [last];
        assert Init(Plain(text) + [last]) == Plain(text);
      } else {
        assert TextIn(s) == TextIn(front);
      }
    }
  }

  /** A row of a block on screen shows its characters. */
  lemma RowIsShown(scr: Screen, above: seq<Row>, rows: seq<Styled>, i: nat, w: Widths)
    requires scr.rows == above + ShownRows(rows, w) && i < |rows|
    ensures |above| + i < |scr.rows| && scr.rows[|above| + i] == Shown(Plain(TextIn(rows[i])), w)
  {
    ShownIsPlain(rows[i], w);
    assert scr.rows[|above| + i] == ShownRows(rows, w)[i];
  }

  // ---------------------------------------------------------------- the menu

  /** What a candidate's row says: the selected one behind the mark, any other behind blanks. */
  function MenuText(item: string, selected: bool): string {
    (if selected then "  " + [MARK] + " " else "    ") + item
  }

  lemma TextInMenuRow(item: string, selected: bool, opts: Options)
    ensures TextIn(MenuRow(item, selected, opts)) == MenuText(item, selected)
  {
    if selected {
      var a, b, c, d := Plain("  "), Painted(opts.palette.accentBold, Plain([MARK])), Plain(" "),
        Painted(opts.palette.accentBold, Plain(item));
      TextInConcat(a + b + c, d);
      TextInConcat(a + b, c);
      TextInConcat(a, b);
      TextInPlain("  ");
      TextInPlain(" ");
      TextInPainted(opts.palette.accentBold, [MARK]);
      TextInPainted(opts.palette.accentBold, item);
    } else {
      TextInConcat(Plain("    "), Painted(opts.palette.grey, Plain(item)));
      TextInPlain("    ");
      TextInPainted(opts.palette.grey, item);
    }
  }

  lemma MenuRowSays(item: string, selected: bool, opts: Options)
    ensures Shown(MenuRow(item, selected, opts), opts.w) == Shown(Plain(MenuText(item, selected)), opts.w)
  {
    TextInMenuRow(item, selected, opts);
    ShownIsPlain(MenuRow(item, selected, opts), opts.w);
  }

  /** The first candidate drawn. */
  function FirstItem(plan: Plan, menu: seq<string>, menuAt: nat, opts: Options): nat {
    match opts.height
    case None => 0
    case Some(height) => WindowStart(menuAt, MenuShare(ContentRows(height, opts), |plan.rows|, |menu|), |menu|)
  }

  /** The candidates drawn are some of the menu's, one after another, and the selected one is the menu's. */
  lemma DrawnCandidates(plan: Plan, menu: seq<string>, menuAt: nat, k: nat, opts: Options)
    requires plan.rows != [] && k < |Divide(plan, menu, menuAt, opts).menuItems|
    ensures var view, item := Divide(plan, menu, menuAt, opts), FirstItem(plan, menu, menuAt, opts) + k;
      && item < |menu| && view.menuItems[k] == menu[item]
      && (k == view.menuSelected <==> item == menuAt)
  {
  }

  /** Where the rows of the menu begin: below the buffer and its frame. */
  lemma MenuRowAt(view: View, k: nat, opts: Options)
    requires k < |view.menuItems|
    ensures |MainRows(view, opts)| + k < |BlockRows(view, opts)|
    ensures BlockRows(view, opts)[|MainRows(view, opts)| + k]
      == MenuRow(view.menuItems[k], k == view.menuSelected, opts)
  {
  }

  /**
   * On the screen that a redraw leaves, each row of the menu shows its candidate, behind the mark exactly
   * when it is the selected one.
   */
  lemma MenuIsShown(scr: Screen, above: seq<Row>, s: State, view: View, k: nat, opts: Options)
    requires Valid(s) && opts.height.Some? && s.search.None? && Parked(scr, above, s, opts)
    requires view == ViewOf(s, opts) && k < |view.menuItems|
    ensures var at := |above| + |MainRows(view, opts)| + k;
      && at < |scr.rows|
      && scr.rows[at] == Shown(Plain(MenuText(view.menuItems[k], k == view.menuSelected)), opts.w)
  {
    MenuOfAView(scr, above, view, k, opts);
  }

  lemma MenuOfAView(scr: Screen, above: seq<Row>, view: View, k: nat, opts: Options)
    requires k < |view.menuItems| && scr.rows == above + ShownRows(BlockRows(view, opts), opts.w)
    ensures var at := |above| + |MainRows(view, opts)| + k;
      && at < |scr.rows|
      && scr.rows[at] == Shown(Plain(MenuText(view.menuItems[k], k == view.menuSelected)), opts.w)
  {
    var i, rows := |MainRows(view, opts)| + k, BlockRows(view, opts);
    MenuRowAt(view, k, opts);
    MenuRowSays(view.menuItems[k], k == view.menuSelected, opts);
    assert scr.rows[|above| + i] == ShownRows(rows, opts.w)[i];
  }

  // ---------------------------------------------------------------- the buffer

  /** The first row of the layout that is drawn. */
  function FirstRow(s: State, opts: Options): nat
    requires Valid(s)
  {
    FirstOf(PlanOf(s, opts), |s.menu|, opts)
  }

  function FirstOf(plan: Plan, menu: nat, opts: Options): nat {
    match opts.height
    case None => 0
    case Some(height) =>
      WindowStart(plan.cursorRow, BufferShare(ContentRows(height, opts), |plan.rows|, menu), |plan.rows|)
  }

  lemma SliceDrawn(plan: Plan, menu: seq<string>, menuAt: nat, opts: Options)
    requires plan.rows != []
    ensures var rows, first := Divide(plan, menu, menuAt, opts).bufferRows, FirstOf(plan, |menu|, opts);
      first + |rows| <= |plan.rows| && rows == plan.rows[first..first + |rows|]
  {
    if opts.height.Some? {
      WindowIsDivided(ContentRows(opts.height.value, opts), |plan.rows|, |menu|);
    }
  }

  /** The text of row `k` of the logical line `i`: the prompt or its continuation before the first piece of it. */
  function RowText(s: State, i: nat, k: nat, opts: Options): string
    requires i < |s.lines| && k < |PiecesOf(s, i, opts)|
  {
    (if k > 0 then "" else if i == 0 then TextIn(opts.prompt) else TextIn(opts.continuation)) + PiecesOf(s, i, opts)[k]
  }

  /** The pieces that the logical line `i` is cut into. */
  function PiecesOf(s: State, i: nat, opts: Options): seq<string>
    requires i < |s.lines|
  {
    var inner := ContentOptions(opts);
    LineRows(s.lines[i], VisibleWidth(PrefixOf(i, inner), opts.w), Columns(inner), opts.w)
  }

  /** Which row of the layout that is. */
  function RowAt(s: State, i: nat, k: nat, opts: Options): nat
    requires i < |s.lines|
  {
    |RowsUpTo(s.lines, i, ContentOptions(opts))| + k
  }

  lemma TextOfBlockRow(s: State, i: nat, k: nat, opts: Options)
    requires i < |s.lines| && k < |PiecesOf(s, i, opts)|
    ensures var block := BlockOf(s.lines[i], i, ContentOptions(opts));
      k < |block| && TextIn(block[k]) == RowText(s, i, k, opts)
  {
    var margin, piece := MarginOf(k, i, ContentOptions(opts)), PiecesOf(s, i, opts)[k];
    BlockRow(s.lines[i], i, k, ContentOptions(opts));
    TextInConcat(margin, Plain(piece));
    TextInPlain(piece);
    assert TextIn([]) == "";
  }

  lemma RowOfThePlan(s: State, i: nat, k: nat, opts: Options)
    requires Valid(s) && i < |s.lines| && k < |PiecesOf(s, i, opts)|
    ensures var rows, at := PlanOf(s, opts).rows, RowAt(s, i, k, opts);
      at < |rows| && TextIn(rows[at]) == RowText(s, i, k, opts)
  {
    var inner := ContentOptions(opts);
    TextOfBlockRow(s, i, k, opts);
    BlockInRows(s.lines, i, inner);
    InFront(RowsUpTo(s.lines, i, inner), BlockOf(s.lines[i], i, inner), RowsUpTo(s.lines, |s.lines|, inner), k);
  }

  /** The pieces of a line, put together, are the line. */
  lemma PiecesAreTheLine(s: State, i: nat, opts: Options)
    requires i < |s.lines|
    ensures Flatten(PiecesOf(s, i, opts)) == s.lines[i]
  {
    var inner := ContentOptions(opts);
    RowsHoldTheLine(s.lines[i], VisibleWidth(PrefixOf(i, inner), opts.w), Columns(inner), opts.w);
  }

  /** A row of the buffer on screen, between the frame's sides. */
  lemma BufferRowShown(scr: Screen, above: seq<Row>, s: State, view: View, j: nat, opts: Options)
    requires Valid(s) && opts.height.Some? && s.search.None? && Parked(scr, above, s, opts)
    requires view == ViewOf(s, opts) && j < |view.bufferRows|
    ensures var at, row := |above| + HeaderRows(opts) + j, view.bufferRows[j];
      && at < |scr.rows|
      && scr.rows[at] == Shown(Plain(TextIn(LeftOf(opts)) + TextIn(row) + TextIn(RightOf(row, opts))), opts.w)
  {
    var rows, row, i := BlockRows(view, opts), view.bufferRows[j], HeaderRows(opts) + j;
    MainRowAt(view, j, opts);
    BlockStartsWithMain(view, i, opts);
    TextInConcat(LeftOf(opts) + row, RightOf(row, opts));
    TextInConcat(LeftOf(opts), row);
    RowIsShown(scr, above, rows, i, opts.w);
  }

  /** That a drawn row of a line has this text on screen. */
  ghost predicate ShowsRow(scr: Screen, at: int, text: string, row: Styled, opts: Options) {
    && 0 <= at < |scr.rows|
    && scr.rows[at] == Shown(Plain(TextIn(LeftOf(opts)) + text + TextIn(RightOf(row, opts))), opts.w)
  }

  /** Row `k` of line `i` is the drawn row `j` of the buffer. */
  predicate IsDrawnAt(s: State, i: nat, k: nat, j: nat, opts: Options)
    requires Valid(s) && i < |s.lines|
  {
    RowAt(s, i, k, opts) == FirstRow(s, opts) + j && j < |ViewOf(s, opts).bufferRows|
  }

  lemma InSlice<T>(part: seq<T>, all: seq<T>, first: nat, j: nat)
    requires first + |part| <= |all| && part == all[first..first + |part|] && j < |part|
    ensures part[j] == all[first + j]
  {
  }

  lemma RowDrawn(s: State, at: nat, j: nat, opts: Options)
    requires Valid(s) && at == FirstRow(s, opts) + j && j < |ViewOf(s, opts).bufferRows|
    ensures at < |PlanOf(s, opts).rows| && ViewOf(s, opts).bufferRows[j] == PlanOf(s, opts).rows[at]
  {
    var plan := PlanOf(s, opts);
    RowOfSlice(plan, s.menu, s.menuAt, at, j, opts);
  }

  lemma RowOfSlice(plan: Plan, menu: seq<string>, menuAt: nat, at: nat, j: nat, opts: Options)
    requires plan.rows != [] && at == FirstOf(plan, |menu|, opts) + j
    requires j < |Divide(plan, menu, menuAt, opts).bufferRows|
    ensures at < |plan.rows| && Divide(plan, menu, menuAt, opts).bufferRows[j] == plan.rows[at]
  {
    SliceDrawn(plan, menu, menuAt, opts);
    InSlice(Divide(plan, menu, menuAt, opts).bufferRows, plan.rows, FirstOf(plan, |menu|, opts), j);
  }

  lemma TextDrawn(row: Styled, drawn: Styled, text: string)
    requires row == drawn && TextIn(row) == text
    ensures TextIn(drawn) == text
  {
  }

  lemma LineDrawn(s: State, i: nat, k: nat, j: nat, opts: Options)
    requires Valid(s) && i < |s.lines| && k < |PiecesOf(s, i, opts)| && IsDrawnAt(s, i, k, j, opts)
    ensures TextIn(ViewOf(s, opts).bufferRows[j]) == RowText(s, i, k, opts)
  {
    RowDrawn(s, RowAt(s, i, k, opts), j, opts);
    RowOfThePlan(s, i, k, opts);
    TextDrawn(PlanOf(s, opts).rows[RowAt(s, i, k, opts)], ViewOf(s, opts).bufferRows[j], RowText(s, i, k, opts));
  }

  /**
   * On the screen that a redraw leaves, every row of every line that is in the window shows its piece of
   * the line, behind the prompt, its continuation or nothing, and between the frame's sides.
   */
  lemma LinesAreShown(scr: Screen, above: seq<Row>, s: State, i: nat, k: nat, j: nat, opts: Options)
    requires Valid(s) && opts.height.Some? && s.search.None? && Parked(scr, above, s, opts)
    requires i < |s.lines| && k < |PiecesOf(s, i, opts)|
    requires IsDrawnAt(s, i, k, j, opts)
    ensures ShowsRow(scr, |above| + HeaderRows(opts) + j, RowText(s, i, k, opts), ViewOf(s, opts).bufferRows[j], opts)
  {
    LineDrawn(s, i, k, j, opts);
    BufferRowShown(scr, above, s, ViewOf(s, opts), j, opts);
  }

  // ---------------------------------------------------------------- the search line

  /** What a search line says: the query, and the entry found, cut to the room there is. */
  function SearchText(s: State, opts: Options): string
    requires Valid(s) && s.search.Some?
  {
    var caption := SearchLabel(s.search.value.query);
    caption + Truncate(FoundText(s), Max(8, opts.columns - Width(caption, opts.w) - 1), opts.w)
  }

  /** A text cut to `max` columns: whole if it fits, else as much as leaves a column, and the mark that it goes on. */
  lemma TruncatedIs(text: string, max: nat, w: Widths)
    requires max >= 1
    ensures var r := Truncate(text, max, w);
      && (Width(text, w) <= max ==> r == text)
      && (Width(text, w) > max ==>
            && 0 < |r| <= |text| && r == text[..|r| - 1] + [ELLIPSIS]
            && Width(text[..|r| - 1], w) <= max - 1 < Width(text[..|r| - 1], w) + w(text[|r| - 1]))
  {
    if Width(text, w) > max {
      TakenIsLongest(text, max - 1, w);
    }
  }

  lemma {:induction false} TakenIsLongest(text: string, budget: nat, w: Widths)
    requires Width(text, w) > budget
    ensures var n := |TakeWithin(text, budget, w)|;
      n < |text| && Width(text[..n], w) <= budget < Width(text[..n], w) + w(text[n])
  {
    if w(text[0]) <= budget {
      var more := text[1..];
      TakenIsLongest(more, budget - w(text[0]), w);
      var n := |TakeWithin(more, budget - w(text[0]), w)|;
      assert text[..n + 1] == [text[0]] + more[..n] && ([text[0]] + more[..n])[1..] == more[..n];
    } else {
      assert text[..0] == "";
    }
  }

  lemma TextOfTwo(caption: Styled, front: string, found: string)
    requires TextIn(caption) == front
    ensures TextIn(caption + Plain(found)) == front + found
  {
    TextInConcat(caption, Plain(found));
    TextInPlain(found);
  }

  lemma TextInSearchRow(s: State, opts: Options)
    requires Valid(s) && s.search.Some?
    ensures TextIn(SearchRow(s, opts)) == SearchText(s, opts)
  {
    var text := SearchLabel(s.search.value.query);
    PaintedWidth(opts.palette.grey, text, opts.w);
    TextInPainted(opts.palette.grey, text);
    SearchRowIs(s, text, Painted(opts.palette.grey, Plain(text)), opts);
  }

  lemma SearchRowIs(s: State, text: string, caption: Styled, opts: Options)
    requires Valid(s) && s.search.Some? && text == SearchLabel(s.search.value.query)
    requires caption == SearchCaption(s, opts) && TextIn(caption) == text
    requires VisibleWidth(caption, opts.w) == Width(text, opts.w)
    ensures TextIn(SearchRow(s, opts)) == SearchText(s, opts)
  {
    TextOfTwo(caption, text, Truncate(FoundText(s), Max(8, opts.columns - Width(text, opts.w) - 1), opts.w));
  }

  /** While a search is open, the one row of the block says what is searched for and what is found. */
  lemma SearchIsShown(scr: Screen, above: seq<Row>, s: State, opts: Options)
    requires Valid(s) && opts.height.Some? && s.search.Some? && Parked(scr, above, s, opts)
    ensures scr.rows == above + [Shown(Plain(SearchText(s, opts)), opts.w)]
  {
    TextInSearchRow(s, opts);
    ShownIsPlain(SearchRow(s, opts), opts.w);
    assert ShownRows(BlockOfState(s, opts), opts.w) == [Shown(SearchRow(s, opts), opts.w)];
  }

  lemma SearchColumnIs(s: State, opts: Options)
    requires Valid(s) && s.search.Some?
    ensures SearchColumn(s, opts)
      == Width(SearchLabel(s.search.value.query), opts.w) + Width(s.search.value.query, opts.w)
  {
    PaintedWidth(opts.palette.grey, SearchLabel(s.search.value.query), opts.w);
  }

  /**
   * The cursor is not behind what is typed but as many columns further on as it is wide: the label holds
   * the query already. It is right behind the label exactly when the query takes no column, or the row ends.
   */
  lemma SearchCursorIsFurtherOn(scr: Screen, above: seq<Row>, s: State, opts: Options)
    requires Valid(s) && opts.height.Some? && s.search.Some? && Parked(scr, above, s, opts)
    ensures var caption, query := SearchLabel(s.search.value.query), s.search.value.query;
      && scr.col == Max(0, Min(opts.columns - 1, Width(caption, opts.w) + Width(query, opts.w)))
      && (scr.col == Width(caption, opts.w) <==>
            || (Width(query, opts.w) == 0 && Width(caption, opts.w) < opts.columns)
            || Width(caption, opts.w) == opts.columns - 1)
  {
    SearchColumnIs(s, opts);
  }
}
