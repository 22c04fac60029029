/**
 * The reverse search's line on the terminal (`renderEditor` in src/cli/editor.ts): exactly when it leaves
 * the cursor on the row the driver records, and what a caller can check to be sure that it does.
 */
module SearchLine {
  import opened Strings
  import opened Lines
  import opened EditorState
  import opened EditorRuns
  import opened Layout
  import opened Viewport
  import opened Terminal
  import opened Redraw
  import opened QuietRuns
  import opened EditorSession
  import opened CursorOnScreen
  import opened RealEnds

  // ---------------------------------------------------------------- exactly when it parks

  lemma ReturnKeepsTheRow(tty: Tty, screen: Screen, n: nat)
    requires ScreenOk(tty, screen)
    ensures ExecAll(tty, screen, [CarriageReturn, CursorRight(n)]).row == screen.row
  {
    ExecTwo(tty, screen, CarriageReturn, CursorRight(n));
  }

  /**
   * The cursor ends on the row that `cursorRowOf` reports exactly when the search line, tabs and returns
   * expanded, ends on the row it starts on. Otherwise the next redraw starts below the block.
   */
  lemma SearchLineParksWhenOneRow(above: seq<Row>, top: nat, s: State, opts: Options)
    requires Valid(s) && s.search.Some? && opts.height.Some? && ScreenOk(TtyOf(opts), Bare(above, top))
    requires Readable([SearchRow(s, opts)])
    ensures ExecAll(TtyOf(opts), Bare(above, top), DrawOps(s, opts)).row == |above| + CursorRowOf(s, opts)
      <==> EndColumn(SearchRow(s, opts), 0, TtyOf(opts)).Some?
  {
    var tty, row, n := TtyOf(opts), SearchRow(s, opts), SearchColumn(s, opts);
    PutsEnd(tty, Bare(above, top), row);
    ExecConcat(tty, Bare(above, top), Puts(row), [CarriageReturn, CursorRight(n)]);
    ReturnKeepsTheRow(tty, ExecAll(tty, Bare(above, top), Puts(row)), n);
  }

  /** With no control character in it, that is when it fits the width. */
  lemma QuietSearchLineParks(above: seq<Row>, top: nat, s: State, opts: Options)
    requires Valid(s) && s.search.Some? && opts.height.Some? && ScreenOk(TtyOf(opts), Bare(above, top))
    requires NoControl(SearchRow(s, opts))
    ensures ExecAll(TtyOf(opts), Bare(above, top), DrawOps(s, opts)).row == |above| + CursorRowOf(s, opts)
      <==> SearchOk(s, opts)
  {
    SearchLineParksWhenOneRow(above, top, s, opts);
    QuietEnd(SearchRow(s, opts), 0, TtyOf(opts));
  }

  // ---------------------------------------------------------------- what a caller can check

  lemma {:induction false} TakenFits(text: string, budget: nat, w: Widths)
    ensures Width(TakeWithin(text, budget, w), w) <= budget
  {
    if text != "" && w(text[0]) <= budget {
      var more := TakeWithin(text[1..], budget - w(text[0]), w);
      TakenFits(text[1..], budget - w(text[0]), w);
      assert ([text[0]] + more)[1..] == more;
    }
  }

  /** Truncated text is at most one column over: the ellipsis may be wide. */
  lemma TruncatedFits(text: string, max: nat, w: Widths)
    requires max >= 1
    ensures Width(Truncate(text, max, w), w) <= max + 1
    ensures Quiet(text) ==> Quiet(Truncate(text, max, w))
  {
    var taken := TakeWithin(text, max - 1, w);
    TakenFits(text, max - 1, w);
    WidthConcat(taken, [ELLIPSIS], w);
    OneChar(ELLIPSIS, w);
  }

  /** What is searched for, or nothing. */
  function QueryOf(s: State): string {
    if s.search.Some? then s.search.value.query else ""
  }

  lemma Between(before: string, text: string, none: string, after: string, w: Widths)
    requires |none| == 0
    ensures Width(before + text + after, w) == Width(before + none + after, w) + Width(text, w)
    ensures Quiet(before + text + after) <==> Quiet(before) && Quiet(text) && Quiet(after)
  {
    WidthConcat(before, text, w);
    WidthConcat(before + text, after, w);
    WidthConcat(before, none, w);
    WidthConcat(before + none, after, w);
    QuietConcat(before, text);
    QuietConcat(before + text, after);
  }

  lemma LabelWidth(query: string, w: Widths)
    ensures Width(SearchLabel(query), w) == Width(SearchLabel(""), w) + Width(query, w)
    ensures Quiet(query) ==> Quiet(SearchLabel(query))
  {
    LabelIsQuiet();
    Between(SEARCH_OPEN, query, "", SEARCH_CLOSE, w);
  }

  lemma LabelIsQuiet()
    ensures Quiet(SEARCH_OPEN) && Quiet(SEARCH_CLOSE)
  {
  }

  lemma FoundIsQuiet(s: State)
    requires Valid(s) && s.search.Some? && AllQuiet(s.history)
    ensures Quiet(FoundText(s))
  {
  }

  lemma RowOfTwo(caption: Styled, text: string, w: Widths)
    ensures VisibleWidth(caption + Plain(text), w) == VisibleWidth(caption, w) + Width(text, w)
    ensures NoControl(caption) && Quiet(text) ==> NoControl(caption + Plain(text))
  {
    RowWidth(caption, text, w);
    PlainIsQuiet(text);
    NoControlConcat(caption, Plain(text));
  }

  /** Whatever is found beside a caption that leaves nine columns, the row fits. */
  lemma RowFits(caption: Styled, found: string, columns: nat, w: Widths)
    requires NoControl(caption) && Quiet(found) && VisibleWidth(caption, w) + 9 <= columns
    ensures var row := caption + Plain(Truncate(found, Max(8, columns - VisibleWidth(caption, w) - 1), w));
      NoControl(row) && VisibleWidth(row, w) <= columns
  {
    var max := Max(8, columns - VisibleWidth(caption, w) - 1);
    TruncatedFits(found, max, w);
    RowOfTwo(caption, Truncate(found, max, w), w);
  }

  lemma CaptionWidth(s: State, opts: Options)
    requires s.search.Some? && Quiet(QueryOf(s))
    ensures VisibleWidth(SearchCaption(s, opts), opts.w) == Width(SearchLabel(QueryOf(s)), opts.w)
    ensures NoControl(SearchCaption(s, opts))
  {
    LabelWidth(QueryOf(s), opts.w);
    PaintedWidth(opts.palette.grey, SearchLabel(QueryOf(s)), opts.w);
  }

  lemma CaptionLeavesRoom(s: State, opts: Options)
    requires Valid(s) && s.search.Some? && opts.height.Some? && AllQuiet(s.history)
    requires NoControl(SearchCaption(s, opts)) && VisibleWidth(SearchCaption(s, opts), opts.w) + 9 <= opts.columns
    ensures SearchOk(s, opts)
  {
    FoundIsQuiet(s);
    RowFits(SearchCaption(s, opts), FoundText(s), opts.columns, opts.w);
  }

  /** The line is one row while the caption leaves nine columns and neither it nor history holds a control character. */
  lemma ShortSearchIsOk(s: State, opts: Options)
    requires Valid(s) && opts.height.Some? && AllQuiet(s.history) && Quiet(QueryOf(s))
    requires Width(SearchLabel(QueryOf(s)), opts.w) + 9 <= opts.columns
    ensures SearchOk(s, opts)
  {
    if s.search.Some? {
      CaptionWidth(s, opts);
      CaptionLeavesRoom(s, opts);
    }
  }

  // ---------------------------------------------------------------- along a run

  function TextOfKey(key: Key): string {
    if key.Text? then key.text else ""
  }

  /** The columns of everything typed or pasted. */
  function Typed(keys: seq<Key>, w: Widths): nat {
    if keys == [] then 0 else Width(TextOfKey(keys[0]), w) + Typed(keys[1..], w)
  }

  predicate QuietKeys(keys: seq<Key>) {
    forall k :: 0 <= k < |keys| ==> Quiet(TextOfKey(keys[k]))
  }

  /** One key: history stays, and the query grows by what the key types at most. */
  ghost predicate QueryGrows(s: State, t: State, key: Key, w: Widths) {
    && t.history == s.history
    && Width(QueryOf(t), w) <= Width(QueryOf(s), w) + Width(TextOfKey(key), w)
    && (Quiet(QueryOf(s)) && Quiet(TextOfKey(key)) ==> Quiet(QueryOf(t)))
  }

  lemma SearchKeyGrows(s: State, key: Key, host: Host, w: Widths)
    requires Valid(s) && s.search.Some?
    ensures QueryGrows(s, ApplyInSearch(s, key, host), key, w)
  {
    var query := s.search.value.query;
    if key.Text? {
      WidthConcat(query, key.text, w);
    } else if key.Backspace? && query != "" {
      WidthConcat(Init(query), [Last(query)], w);
      assert query == Init(query) + [Last(query)];
    }
  }

  lemma EditKeepsHistory(s: State, key: Key, host: Host)
    requires Valid(s) && s.search.None? && EditsLines(key)
    ensures ApplyInBuffer(s, key, host).history == s.history
  {
  }

  lemma KeyGrows(s: State, key: Key, host: Host, w: Widths)
    requires Valid(s)
    ensures QueryGrows(s, ApplyKey(s, key, host), key, w)
  {
    if s.search.Some? {
      SearchKeyGrows(s, key, host, w);
    } else if MenuTakes(s, key) {
      assert ApplyInMenu(s, key).search.None?;
    } else if EditsLines(key) {
      EditOpensNoSearch(s, key, host);
      EditKeepsHistory(s, key, host);
    } else {
      OnlySearchOpensSearch(s, key, host);
    }
  }

  lemma StepGrows(l: Live, key: Key, opts: Options, host: Host)
    requires Runs(l, opts)
    ensures QueryGrows(l.state, KeyStep(l, key, opts, host).state, key, opts.w)
  {
    if key.Clear? {
      ClearStepIs(l, opts, host);
    } else if !key.CycleMode? {
      StepState(l, key, opts, host);
      KeyGrows(l.state, key, host, opts.w);
    }
  }

  /** A step that keeps `room` for the query: what one key may do to the state of a run. */
  ghost predicate StepsGrow(step: Driver, opts: Options) {
    forall l: Live, key: Key :: Runs(l, opts)
      ==> Runs(step(l, key), opts) && QueryGrows(l.state, step(l, key).state, key, opts.w)
  }

  lemma DriverGrows(opts: Options, host: Host)
    ensures StepsGrow(DriverOf(opts, host), opts)
  {
    var step := DriverOf(opts, host);
    forall l: Live, key: Key | Runs(l, opts)
      ensures Runs(step(l, key), opts) && QueryGrows(l.state, step(l, key).state, key, opts.w)
    {
      StepGrows(l, key, opts, host);
    }
  }

  /** Room for a query `more` columns wider than the one now searched for. */
  ghost predicate Room(s: State, more: nat, opts: Options) {
    && AllQuiet(s.history) && Quiet(QueryOf(s))
    && Width(SearchLabel(""), opts.w) + Width(QueryOf(s), opts.w) + more + 9 <= opts.columns
  }

  lemma RoomIsOk(s: State, more: nat, opts: Options)
    requires Valid(s) && opts.height.Some? && Room(s, more, opts)
    ensures SearchCheck(opts)(s)
  {
    LabelWidth(QueryOf(s), opts.w);
    ShortSearchIsOk(s, opts);
  }

  lemma {:induction false} ShortSearchesFit(l: Live, keys: seq<Key>, step: Driver, opts: Options)
    requires StepsGrow(step, opts) && Runs(l, opts)
    requires QuietKeys(keys) && Room(l.state, Typed(keys, opts.w), opts)
    ensures AlongRun(l, keys, step, SearchCheck(opts))
    decreases |keys|
  {
    if keys != [] && l.state.done.None? {
      var next := step(l, keys[0]);
      assert Quiet(TextOfKey(keys[0]));
      assert Runs(next, opts) && QueryGrows(l.state, next.state, keys[0], opts.w);
      assert forall k :: 0 <= k < |keys| - 1 ==> keys[1..][k] == keys[k + 1];
      RoomIsOk(next.state, Typed(keys[1..], opts.w), opts);
      ShortSearchesFit(next, keys[1..], step, opts);
    }
  }

  // ---------------------------------------------------------------- without a search

  ghost predicate StepsOpenNoSearch(step: Driver, opts: Options) {
    forall l: Live, key: Key :: Runs(l, opts) && l.state.search.None? && !key.Search? ==>
      Runs(step(l, key), opts) && step(l, key).state.search.None?
  }

  lemma KeyOpensNoSearch(s: State, key: Key, host: Host)
    requires Valid(s) && s.search.None? && !key.Search?
    ensures ApplyKey(s, key, host).search.None?
  {
    if !MenuTakes(s, key) {
      if EditsLines(key) {
        EditOpensNoSearch(s, key, host);
      } else {
        OnlySearchOpensSearch(s, key, host);
      }
    }
  }

  lemma StepOpensNoSearch(l: Live, key: Key, opts: Options, host: Host)
    requires Runs(l, opts) && l.state.search.None? && !key.Search?
    ensures KeyStep(l, key, opts, host).state.search.None?
  {
    if key.Clear? {
      ClearStepIs(l, opts, host);
    } else if !key.CycleMode? {
      StepState(l, key, opts, host);
      KeyOpensNoSearch(l.state, key, host);
    }
  }

  lemma DriverOpensNoSearch(opts: Options, host: Host)
    ensures StepsOpenNoSearch(DriverOf(opts, host), opts)
  {
    var step := DriverOf(opts, host);
    forall l: Live, key: Key | Runs(l, opts) && l.state.search.None? && !key.Search?
      ensures Runs(step(l, key), opts) && step(l, key).state.search.None?
    {
      StepOpensNoSearch(l, key, opts, host);
    }
  }

  lemma {:induction false} NoSearchFits(l: Live, keys: seq<Key>, step: Driver, opts: Options)
    requires StepsOpenNoSearch(step, opts) && Runs(l, opts) && l.state.search.None? && Search !in keys
    ensures AlongRun(l, keys, step, SearchCheck(opts))
    decreases |keys|
  {
    if keys != [] && l.state.done.None? {
      var next := step(l, keys[0]);
      assert Runs(next, opts) && next.state.search.None?;
      NoSearchFits(next, keys[1..], step, opts);
    }
  }

  // ---------------------------------------------------------------- sessions a caller can vouch for

  /**
   * What can be checked before a run: no search is opened, or there is room for everything typed beside
   * the search's label and nine columns for what it finds, and no control character to search for or through.
   */
  predicate SearchesAreShort(history: seq<string>, keys: seq<Key>, opts: Options) {
    || Search !in keys
    || (AllQuiet(history) && QuietKeys(keys)
        && Width(SearchLabel(""), opts.w) + Typed(keys, opts.w) + 9 <= opts.columns)
  }

  lemma ShortMeansFit(s: State, l: Live, keys: seq<Key>, opts: Options, host: Host)
    requires Fresh(s, s.history) && Runs(l, opts) && l.state == s && SearchesAreShort(s.history, keys, opts)
    ensures SearchesFit(l, keys, opts, host)
  {
    if Search !in keys {
      DriverOpensNoSearch(opts, host);
      NoSearchFits(l, keys, DriverOf(opts, host), opts);
    } else {
      DriverGrows(opts, host);
      ShortSearchesFit(l, keys, DriverOf(opts, host), opts);
    }
  }

  lemma OpenedIs(s: State, screen: Screen, opts: Options)
    requires Valid(s) && opts.height.Some? && ScreenOk(TtyOf(opts), screen)
    ensures Runs(Opened(s, screen, opts), opts) && Opened(s, screen, opts).state == s
  {
  }

  /** Safety of every run whose searches are short, or that opens none. */
  lemma ShortSessionIsSafe(s: State, screen: Screen, keys: seq<Key>, opts: Options, host: Host)
    requires Fresh(s, s.history) && OptionsOk(opts) && HostOk(host, opts) && ScreenOk(TtyOf(opts), screen)
    requires TameKeys(keys) && SearchesAreShort(s.history, keys, opts)
    ensures var l, above := Opened(s, screen, opts), screen.rows[..screen.row];
      var kept := KeptAlong(l, keys, above, DriverOf(opts, host));
      && Safe(RunKeys(l, keys, opts, host), kept, opts)
      && (NoClear(keys) ==> kept == above)
  {
    OpenedIs(s, screen, opts);
    ShortMeansFit(s, Opened(s, screen, opts), keys, opts, host);
    SessionIsSafe(s, screen, keys, opts, host);
  }

  /** And in every such run the cursor is on its character. */
  lemma ShortSessionShowsTheCursor(s: State, screen: Screen, keys: seq<Key>, opts: Options, host: Host)
    requires Fresh(s, s.history) && OptionsOk(opts) && HostOk(host, opts) && ScreenOk(TtyOf(opts), screen)
    requires TameKeys(keys) && SearchesAreShort(s.history, keys, opts)
    ensures ShowsCursor(RunKeys(Opened(s, screen, opts), keys, opts, host), opts)
  {
    OpenedIs(s, screen, opts);
    ShortMeansFit(s, Opened(s, screen, opts), keys, opts, host);
    SessionShowsTheCursor(s, screen, keys, opts, host);
  }
}
