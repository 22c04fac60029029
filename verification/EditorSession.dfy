/**
 * The driver: keys in, redraws out, the block taken down at the end (`Editor.read` and
 * `renderEditor` in src/cli/editor.ts, `inputFrame` in src/cli/render.ts).
 *
 * `RunKeys` is what a session does to state and screen; the class is the source's driver and is
 * proved to do just that. `SessionIsSafe` is the result about every run.
 */
module EditorSession {
  import opened Strings
  import opened Lines
  import opened EditorState
  import opened EditorRuns
  import opened QuietRuns
  import opened KeyDecoder
  import opened Layout
  import opened Viewport
  import opened Terminal
  import opened Redraw

  /** The state, where the last render parked the cursor, and the screen it left. */
  datatype Live = Live(state: State, cursorRow: Option<nat>, screen: Screen)

  ghost predicate Runs(l: Live, opts: Options) {
    Valid(l.state) && opts.height.Some? && ScreenOk(TtyOf(opts), l.screen)
  }

  function Draw(l: Live, opts: Options): (r: Live)
    requires Runs(l, opts)
    ensures Runs(r, opts)
  {
    l.(screen := ExecAll(TtyOf(opts), l.screen, Render(l.state, opts, l.cursorRow)),
       cursorRow := Some(CursorRowOf(l.state, opts)))
  }

  /** A read begins from a state nothing has been drawn of. */
  function Opened(s: State, screen: Screen, opts: Options): (r: Live)
    requires Valid(s) && opts.height.Some? && ScreenOk(TtyOf(opts), screen)
    ensures Runs(r, opts)
  {
    Draw(Live(s, None, screen), opts)
  }

  /** What a state is before its first key: no menu, no search, nothing decided. */
  ghost predicate Fresh(s: State, history: seq<string>) {
    && Valid(s) && QuietState(s) && s.history == history
    && s.done.None? && s.search.None? && |s.menu| == 0 && |s.undo| == 0 && |s.redo| == 0
  }

  lemma NewStateIsFresh(history: seq<string>)
    requires AllTame(history)
    ensures Fresh(NewState(history), history)
  {
  }

  /** One key through the driver. The read is over once the state is done. */
  function KeyStep(l: Live, key: Key, opts: Options, host: Host): (r: Live)
    requires Runs(l, opts)
    ensures Runs(r, opts)
  {
    if key.Clear? then
      Draw(l.(screen := ExecAll(TtyOf(opts), l.screen, [EraseScreen, CursorHome]), cursorRow := None), opts)
    else if key.CycleMode? then Draw(l, opts)
    else
      var s := ApplyKey(l.state, key, host);
      if s.done.Some? then l.(state := s, screen := ExecAll(TtyOf(opts), l.screen, ClearBlock(s, opts)))
      else if s != l.state then Draw(l.(state := s), opts)
      else l
  }

  type Driver = (Live, Key) -> Live

  /** Keys one after another, until one of them ends the read. */
  ghost function RunWith(l: Live, keys: seq<Key>, step: Driver): Live
    decreases |keys|
  {
    if keys == [] || l.state.done.Some? then l else RunWith(step(l, keys[0]), keys[1..], step)
  }

  ghost function DriverOf(opts: Options, host: Host): Driver {
    (l, key) => if Runs(l, opts) then KeyStep(l, key, opts, host) else l
  }

  ghost function RunKeys(l: Live, keys: seq<Key>, opts: Options, host: Host): Live {
    RunWith(l, keys, DriverOf(opts, host))
  }

  /** Keys after keys, and nothing more once the read is over. */
  lemma {:induction false} RunWithConcat(l: Live, a: seq<Key>, b: seq<Key>, step: Driver)
    ensures RunWith(l, a + b, step) == RunWith(RunWith(l, a, step), b, step)
    decreases |a|
  {
    if a == [] {
      assert a + b == b;
    } else if l.state.done.None? {
      assert (a + b)[0] == a[0] && (a + b)[1..] == a[1..] + b;
      RunWithConcat(step(l, a[0]), a[1..], b, step);
    }
  }

  /** Input in chunks: the keys of the first, then those of the others. */
  lemma FirstChunk(l: Live, inside: bool, chunks: seq<string>, keymap: Keymap, step: Driver)
    requires chunks != []
    ensures var first := ParseChunk(inside, chunks[0], keymap);
      RestOf(l, inside, chunks, keymap, step)
      == RestOf(RunWith(l, first.keys, step), first.inside, chunks[1..], keymap, step)
  {
    var first := ParseChunk(inside, chunks[0], keymap);
    RunWithConcat(l, first.keys, ParseChunks(first.inside, chunks[1..], keymap).keys, step);
  }

  /** The key at `i` of a run that is still on. */
  lemma NextKey(l: Live, keys: seq<Key>, i: nat, opts: Options, host: Host)
    requires i < |keys| && Runs(l, opts) && l.state.done.None?
    ensures var step := DriverOf(opts, host);
      RunWith(l, keys[i..], step) == RunWith(KeyStep(l, keys[i], opts, host), keys[i + 1..], step)
  {
    assert keys[i..][0] == keys[i] && keys[i..][1..] == keys[i + 1..];
  }

  // ---------------------------------------------------------------- what a session keeps

  /** The read is on: the transcript is untouched and the block right below it is this state's. */
  ghost predicate OnScreen(l: Live, above: seq<Row>, opts: Options) {
    && Runs(l, opts) && QuietState(l.state) && l.state.done.None?
    && MenuOk(l.state.menu, opts)
    && Parked(l.screen, above, l.state, opts)
    && l.cursorRow == Some(CursorRowOf(l.state, opts))
  }

  /** The read is over: only the transcript is left, the cursor at the start of the row below it. */
  ghost predicate TakenDown(l: Live, above: seq<Row>) {
    l.state.done.Some? && l.screen == Bare(above, l.screen.top)
  }

  ghost predicate Safe(l: Live, above: seq<Row>, opts: Options) {
    if l.state.done.Some? then TakenDown(l, above) else OnScreen(l, above, opts)
  }

  /** The host offers quiet candidates that fit a row of the menu. */
  ghost predicate HostOk(host: Host, opts: Options)
    requires opts.height.Some?
  {
    QuietHost(host) && forall text :: MenuOk(host.complete(text), opts)
  }

  ghost predicate AlongRun(l: Live, keys: seq<Key>, step: Driver, ok: State -> bool)
    decreases |keys|
  {
    keys == [] || l.state.done.Some? ||
    (ok(step(l, keys[0]).state) && AlongRun(step(l, keys[0]), keys[1..], step, ok))
  }

  ghost function SearchCheck(opts: Options): State -> bool {
    s => Valid(s) && opts.height.Some? && SearchOk(s, opts)
  }

  /** Whatever a reverse search shows along the run fits one row. */
  ghost predicate SearchesFit(l: Live, keys: seq<Key>, opts: Options, host: Host) {
    AlongRun(l, keys, DriverOf(opts, host), SearchCheck(opts))
  }

  /** From a parked block, the next redraw starts on its first row and parks the new one there. */
  lemma RedrawParks(l: Live, s: State, above: seq<Row>, opts: Options)
    requires OnScreen(l, above, opts) && OptionsOk(opts)
    requires Valid(s) && QuietState(s) && s.done.None? && MenuOk(s.menu, opts) && SearchOk(s, opts)
    ensures OnScreen(Draw(l.(state := s), opts), above, opts)
  {
    var tty, top := TtyOf(opts), l.screen.top;
    RenderIs(s, opts, l.cursorRow);
    ExecConcat(tty, l.screen, UpAndErase(l.cursorRow.value), DrawOps(s, opts));
    UpReachesTheBlock(l.screen, above, l.state, opts);
    DrawParks(above, top, s, opts);
  }

  /** Drawing again what is on screen changes nothing, so a key that leaves the state as it was may redraw or not. */
  lemma RedrawChangesNothing(l: Live, above: seq<Row>, opts: Options)
    requires OnScreen(l, above, opts) && OptionsOk(opts) && SearchOk(l.state, opts)
    ensures Draw(l, opts) == l
  {
    var tty, s := TtyOf(opts), l.state;
    RenderIs(s, opts, l.cursorRow);
    ExecConcat(tty, l.screen, UpAndErase(l.cursorRow.value), DrawOps(s, opts));
    UpReachesTheBlock(l.screen, above, s, opts);
    DrawParks(above, l.screen.top, s, opts);
    SameScreen(ExecAll(tty, Bare(above, l.screen.top), DrawOps(s, opts)), l.screen, above, s, opts);
  }

  lemma SameScreen(drawn: Screen, screen: Screen, above: seq<Row>, s: State, opts: Options)
    requires Valid(s) && opts.height.Some? && Parked(drawn, above, s, opts) && Parked(screen, above, s, opts)
    requires drawn.top == TopAfter(TtyOf(opts), |above|, |BlockOfState(s, opts)|, screen.top)
    ensures drawn == screen
  {
  }

  /** A first draw, from the last row of any screen: whatever stood on that row is replaced. */
  lemma FirstDrawParks(s: State, screen: Screen, opts: Options)
    requires OptionsOk(opts) && ScreenOk(TtyOf(opts), screen)
    requires Valid(s) && QuietState(s) && s.done.None? && MenuOk(s.menu, opts) && SearchOk(s, opts)
    ensures OnScreen(Draw(Live(s, None, screen), opts), screen.rows[..screen.row], opts)
  {
    var tty, above := TtyOf(opts), screen.rows[..screen.row];
    RenderIs(s, opts, None);
    ExecConcat(tty, screen, UpAndErase(0), DrawOps(s, opts));
    UpAndEraseReaches(tty, screen, above, 0);
    DrawParks(above, screen.top, s, opts);
  }

  lemma ExecTwo(tty: Tty, screen: Screen, a: Op, b: Op)
    requires ScreenOk(tty, screen)
    ensures ExecAll(tty, screen, [a, b]) == Exec(tty, Exec(tty, screen, a), b)
  {
    assert [a, b] == [a] + [b];
    ExecConcat(tty, screen, [a], [b]);
    ExecOne(tty, screen, a);
    ExecOne(tty, Exec(tty, screen, a), b);
  }

  lemma ClearStarts(tty: Tty, screen: Screen)
    requires ScreenOk(tty, screen)
    ensures var r := ExecAll(tty, screen, [EraseScreen, CursorHome]);
      r.row == r.top == screen.top && r.rows[..r.row] == screen.rows[..screen.top]
  {
    ExecTwo(tty, screen, EraseScreen, CursorHome);
  }

  /** A key that finishes the line changes nothing that is drawn. */
  lemma FinishingKeepsTheBlock(s: State, key: Key, host: Host)
    requires Valid(s) && s.done.None? && ApplyKey(s, key, host).done.Some?
    ensures ApplyKey(s, key, host) == s.(done := ApplyKey(s, key, host).done)
  {
    if s.search.None? && !MenuTakes(s, key) && EditsLines(key) {
      EditsDoNotFinish(s, key, host);
    } else if s.search.None? && !MenuTakes(s, key) {
      QuietKeysFinish(s, key, host);
    }
  }

  lemma EditsDoNotFinish(s: State, key: Key, host: Host)
    requires Valid(s) && s.search.None? && EditsLines(key)
    ensures ApplyInBuffer(s, key, host).done == s.done
    ensures var menu := ApplyInBuffer(s, key, host).menu;
      menu == s.menu || menu == [] || menu == host.complete(TextOf(s))
  {
  }

  lemma QuietKeysFinish(s: State, key: Key, host: Host)
    requires Valid(s) && s.search.None? && s.done.None? && !EditsLines(key)
    ensures var r := ApplyInBuffer(s, key, host);
      && (r.done.Some? ==> r == s.(done := r.done))
      && (r.menu == s.menu || r.menu == [])
  {
  }

  lemma MenuStaysOk(s: State, key: Key, host: Host, opts: Options)
    requires Valid(s) && s.done.None? && opts.height.Some? && HostOk(host, opts) && MenuOk(s.menu, opts)
    ensures MenuOk(ApplyKey(s, key, host).menu, opts)
  {
    assert MenuOk([], opts);
    MenuComesFrom(s, key, host);
  }

  lemma MenuComesFrom(s: State, key: Key, host: Host)
    requires Valid(s) && s.done.None?
    ensures var menu := ApplyKey(s, key, host).menu;
      menu == s.menu || menu == [] || menu == host.complete(TextOf(s))
  {
    if s.search.None? && !MenuTakes(s, key) && EditsLines(key) {
      EditsDoNotFinish(s, key, host);
    } else if s.search.None? && !MenuTakes(s, key) {
      QuietKeysFinish(s, key, host);
    }
  }

  /** The part of the transcript a key leaves: all of it, or what is above the window after Ctrl-L. */
  function Kept(l: Live, key: Key, above: seq<Row>): seq<Row> {
    if key.Clear? && l.screen.top <= |above| then above[..l.screen.top] else above
  }

  lemma FinishTakesDown(l: Live, s: State, above: seq<Row>, opts: Options)
    requires OnScreen(l, above, opts) && s == l.state.(done := s.done) && s.done.Some? && Valid(s)
    ensures TakenDown(l.(state := s, screen := ExecAll(TtyOf(opts), l.screen, ClearBlock(s, opts))), above)
  {
    assert CursorRowOf(s, opts) == CursorRowOf(l.state, opts);
    UpReachesTheBlock(l.screen, above, l.state, opts);
  }

  lemma ClearIsSafe(l: Live, above: seq<Row>, opts: Options, host: Host)
    requires OnScreen(l, above, opts) && OptionsOk(opts) && SearchOk(l.state, opts)
    ensures OnScreen(KeyStep(l, Key.Clear, opts, host), above[..l.screen.top], opts)
  {
    ClearStarts(TtyOf(opts), l.screen);
    var cleared := ExecAll(TtyOf(opts), l.screen, [EraseScreen, CursorHome]);
    assert cleared.rows[..cleared.row] == above[..l.screen.top];
    FirstDrawParks(l.state, cleared, opts);
    ClearStepIs(l, opts, host);
  }

  lemma ClearStepIs(l: Live, opts: Options, host: Host)
    requires Runs(l, opts)
    ensures KeyStep(l, Key.Clear, opts, host)
         == Draw(Live(l.state, None, ExecAll(TtyOf(opts), l.screen, [EraseScreen, CursorHome])), opts)
  {
  }

  lemma BufferKeyIsSafe(l: Live, key: Key, above: seq<Row>, opts: Options, host: Host)
    requires OnScreen(l, above, opts) && OptionsOk(opts) && HostOk(host, opts) && TameKey(key)
    requires !key.Clear? && !key.CycleMode?
    requires SearchOk(ApplyKey(l.state, key, host), opts)
    ensures Safe(KeyStep(l, key, opts, host), above, opts)
  {
    var s := ApplyKey(l.state, key, host);
    KeyKeepsQuiet(l.state, key, host);
    MenuStaysOk(l.state, key, host, opts);
    if s.done.Some? {
      FinishingKeepsTheBlock(l.state, key, host);
      FinishTakesDown(l, s, above, opts);
    } else {
      RedrawParks(l, s, above, opts);
    }
  }

  /** One key keeps the session safe. */
  lemma KeyStepIsSafe(l: Live, key: Key, above: seq<Row>, opts: Options, host: Host)
    requires OnScreen(l, above, opts) && OptionsOk(opts) && HostOk(host, opts) && TameKey(key)
    requires SearchOk(KeyStep(l, key, opts, host).state, opts)
    ensures Safe(KeyStep(l, key, opts, host), Kept(l, key, above), opts)
  {
    if key.Clear? {
      ClearIsSafe(l, above, opts, host);
    } else if key.CycleMode? {
      assert l.(state := l.state) == l;
      RedrawParks(l, l.state, above, opts);
    } else {
      StepState(l, key, opts, host);
      BufferKeyIsSafe(l, key, above, opts, host);
    }
  }

  lemma StepState(l: Live, key: Key, opts: Options, host: Host)
    requires Runs(l, opts) && !key.Clear? && !key.CycleMode?
    ensures KeyStep(l, key, opts, host).state == ApplyKey(l.state, key, host)
  {
  }

  predicate NoClear(keys: seq<Key>) {
    forall k :: 0 <= k < |keys| ==> !keys[k].Clear?
  }

  /** What a run keeps of the transcript: all of it unless Ctrl-L was pressed. */
  ghost function KeptAlong(l: Live, keys: seq<Key>, above: seq<Row>, step: Driver): (kept: seq<Row>)
    ensures kept <= above
    ensures NoClear(keys) ==> kept == above
    decreases |keys|
  {
    if keys == [] || l.state.done.Some? then above
    else KeptAlong(step(l, keys[0]), keys[1..], Kept(l, keys[0], above), step)
  }

  /** What holds of a session and what is left of the transcript. */
  type Invariant = (Live, seq<Row>) -> bool

  ghost predicate KeptByEveryKey(step: Driver, may: Key -> bool, ok: State -> bool, inv: Invariant) {
    forall l, key, above :: inv(l, above) && l.state.done.None? && may(key) && ok(step(l, key).state)
      ==> inv(step(l, key), Kept(l, key, above))
  }

  predicate AllMay(keys: seq<Key>, may: Key -> bool) {
    forall k :: 0 <= k < |keys| ==> may(keys[k])
  }

  /** What every key that may come keeps, every run of them keeps. */
  lemma {:induction false} RunKeepsInvariant(l: Live, keys: seq<Key>, above: seq<Row>,
    step: Driver, may: Key -> bool, ok: State -> bool, inv: Invariant)
    requires KeptByEveryKey(step, may, ok, inv)
    requires inv(l, above) && AllMay(keys, may) && AlongRun(l, keys, step, ok)
    ensures inv(RunWith(l, keys, step), KeptAlong(l, keys, above, step))
    decreases |keys|
  {
    if keys != [] && l.state.done.None? {
      assert may(keys[0]);
      assert forall k :: 0 <= k < |keys| - 1 ==> keys[1..][k] == keys[k + 1];
      RunKeepsInvariant(step(l, keys[0]), keys[1..], Kept(l, keys[0], above), step, may, ok, inv);
    }
  }

  ghost function SafetyOf(opts: Options): Invariant {
    (l, above) => Runs(l, opts) && Safe(l, above, opts)
  }

  lemma EveryKeyIsSafe(opts: Options, host: Host)
    requires OptionsOk(opts) && HostOk(host, opts)
    ensures KeptByEveryKey(DriverOf(opts, host), TameKey, SearchCheck(opts), SafetyOf(opts))
  {
    var step, ok, inv := DriverOf(opts, host), SearchCheck(opts), SafetyOf(opts);
    forall l, key, above | inv(l, above) && l.state.done.None? && TameKey(key) && ok(step(l, key).state)
      ensures inv(step(l, key), Kept(l, key, above))
    {
      KeyStepIsSafe(l, key, above, opts, host);
    }
  }

  /**
   * Main result, for every fresh state, screen and sequence of keys that type no control character but
   * line breaks: while the read is on, everything above the prompt's row is as it was, the block below is
   * exactly the current view's rows and the cursor is parked at its cursor cell; once the read is over,
   * the block is gone. Only Ctrl-L may cost transcript rows, and only those in the window.
   */
  lemma SessionIsSafe(s: State, screen: Screen, keys: seq<Key>, opts: Options, host: Host)
    requires Fresh(s, s.history) && OptionsOk(opts) && HostOk(host, opts) && ScreenOk(TtyOf(opts), screen)
    requires TameKeys(keys) && SearchesFit(Opened(s, screen, opts), keys, opts, host)
    ensures var above, l := screen.rows[..screen.row], Opened(s, screen, opts);
      var r := RunKeys(l, keys, opts, host);
      var kept := KeptAlong(l, keys, above, DriverOf(opts, host));
      && Safe(r, kept, opts)
      && (NoClear(keys) ==> kept == above)
  {
    var above, l := screen.rows[..screen.row], Opened(s, screen, opts);
    OpenIsSafe(s, screen, opts);
    EveryKeyIsSafe(opts, host);
    RunFromSafe(l, keys, above, opts, host);
  }

  lemma OpenIsSafe(s: State, screen: Screen, opts: Options)
    requires Fresh(s, s.history) && OptionsOk(opts) && ScreenOk(TtyOf(opts), screen)
    ensures SafetyOf(opts)(Opened(s, screen, opts), screen.rows[..screen.row])
  {
    FirstDrawParks(s, screen, opts);
    SafetyIs(Opened(s, screen, opts), screen.rows[..screen.row], opts);
  }

  lemma SafetyIs(l: Live, above: seq<Row>, opts: Options)
    requires OnScreen(l, above, opts)
    ensures SafetyOf(opts)(l, above)
  {
  }

  lemma RunFromSafe(l: Live, keys: seq<Key>, above: seq<Row>, opts: Options, host: Host)
    requires KeptByEveryKey(DriverOf(opts, host), TameKey, SearchCheck(opts), SafetyOf(opts))
    requires SafetyOf(opts)(l, above) && TameKeys(keys) && SearchesFit(l, keys, opts, host)
    ensures Safe(RunKeys(l, keys, opts, host), KeptAlong(l, keys, above, DriverOf(opts, host)), opts)
  {
    RunKeepsInvariant(l, keys, above, DriverOf(opts, host), TameKey, SearchCheck(opts), SafetyOf(opts));
  }

  // ---------------------------------------------------------------- the frame the prompt is drawn in

  function InputFrame(paint: Paint, g: Glyphs, columns: int): Frame {
    var bar := Repeat(g.horizontal, Max(8, columns - 2));
    Frame(
      Painted(paint, Plain([g.topLeft] + bar + [g.topRight])),
      Painted(paint, Plain([g.bottomLeft] + bar + [g.bottomRight])),
      Painted(paint, Plain([g.vertical])),
      Painted(paint, Plain([g.vertical])),
      4)
  }

  lemma PaintedWidth(paint: Paint, text: string, w: Widths)
    ensures VisibleWidth(Painted(paint, Plain(text)), w) == Width(text, w)
    ensures Quiet(text) ==> NoControl(Painted(paint, Plain(text)))
  {
    var before, after := [Sgr(paint.before)], [Sgr(paint.after)];
    assert before[1..] == [] && after[1..] == [];
    VisibleWidthConcat(before, Plain(text), w);
    VisibleWidthConcat(before + Plain(text), after, w);
    PlainWidth(text, w);
    PlainIsQuiet(text);
    NoControlConcat(before, Plain(text));
    NoControlConcat(before + Plain(text), after);
  }

  /** With glyphs one column wide and twelve columns, the input frame closes on all four sides. */
  lemma InputFrameIsOk(paint: Paint, g: Glyphs, opts: Options)
    requires opts.columns >= 12
    requires forall c ::
      c in {g.topLeft, g.topRight, g.bottomLeft, g.bottomRight, g.horizontal, g.vertical} ==>
        opts.w(c) == 1 && !IsControl(c)
    ensures FrameOk(InputFrame(paint, g, opts.columns), opts)
    ensures VisibleWidth(InputFrame(paint, g, opts.columns).top, opts.w) == opts.columns
  {
    var bar := Repeat(g.horizontal, opts.columns - 2);
    NarrowWidth([g.topLeft] + bar + [g.topRight], opts.w);
    NarrowWidth([g.bottomLeft] + bar + [g.bottomRight], opts.w);
    NarrowWidth([g.vertical], opts.w);
    PaintedWidth(paint, [g.topLeft] + bar + [g.topRight], opts.w);
    PaintedWidth(paint, [g.bottomLeft] + bar + [g.bottomRight], opts.w);
    PaintedWidth(paint, [g.vertical], opts.w);
  }

  // ---------------------------------------------------------------- the driver

  predicate IsBlank(text: string) {
    forall k :: 0 <= k < |text| ==> IsSpace(text[k])
  }

  /** What a finished read adds to history: the line, unless it is blank or was abandoned. */
  function Remembered(history: seq<string>, outcome: Outcome): seq<string> {
    if outcome.Line? && !IsBlank(outcome.text) then history + [outcome.text] else history
  }

  lemma RunEnds(l: Live, keys: seq<Key>, step: Driver)
    requires keys == [] || l.state.done.Some?
    ensures RunWith(l, keys, step) == l
  {
  }

  /** Chunk by chunk, what is still to come of a read. */
  ghost function RestOf(l: Live, inside: bool, chunks: seq<string>, keymap: Keymap, step: Driver): Live {
    RunWith(l, ParseChunks(inside, chunks, keymap).keys, step)
  }

  lemma RestEnds(l: Live, inside: bool, chunks: seq<string>, keymap: Keymap, step: Driver)
    requires chunks == [] || l.state.done.Some?
    ensures RestOf(l, inside, chunks, keymap, step) == l
  {
    RunEnds(l, ParseChunks(inside, chunks, keymap).keys, step);
  }

  /** The session and the paste's flag, one chunk after another. */
  datatype Fed = Fed(live: Live, inside: bool)

  type Feeder = (Fed, string) -> Fed

  ghost function FeederOf(keymap: Keymap, opts: Options, host: Host): Feeder {
    (f: Fed, chunk: string) =>
      var p := ParseChunk(f.inside, chunk, keymap);
      Fed(RunKeys(f.live, p.keys, opts, host), p.inside)
  }

  ghost function FeedWith(f: Fed, chunks: seq<string>, feed: Feeder): Fed
    decreases |chunks|
  {
    if chunks == [] || f.live.state.done.Some? then f else FeedWith(feed(f, chunks[0]), chunks[1..], feed)
  }

  /** Chunk by chunk is as the keys of all chunks at once. */
  lemma {:induction false} FeedIsRest(f: Fed, chunks: seq<string>, keymap: Keymap, opts: Options, host: Host)
    ensures FeedWith(f, chunks, FeederOf(keymap, opts, host)).live
      == RestOf(f.live, f.inside, chunks, keymap, DriverOf(opts, host))
    decreases |chunks|
  {
    var step, feed := DriverOf(opts, host), FeederOf(keymap, opts, host);
    if chunks == [] || f.live.state.done.Some? {
      RestEnds(f.live, f.inside, chunks, keymap, step);
    } else {
      FirstChunk(f.live, f.inside, chunks, keymap, step);
      FeedIsRest(feed(f, chunks[0]), chunks[1..], keymap, opts, host);
    }
  }

  lemma ReadIsFed(history: seq<string>, screen: Screen, chunks: seq<string>, keymap: Keymap, opts: Options, host: Host)
    requires opts.height.Some? && ScreenOk(TtyOf(opts), screen)
    ensures ReadOf(history, screen, chunks, keymap, opts, host)
      == FeedWith(Fed(Opened(NewState(history), screen, opts), false), chunks, FeederOf(keymap, opts, host)).live
  {
    FeedIsRest(Fed(Opened(NewState(history), screen, opts), false), chunks, keymap, opts, host);
  }

  lemma {:induction false} RunStaysOn(l: Live, keys: seq<Key>, opts: Options, host: Host)
    requires Runs(l, opts)
    ensures Runs(RunKeys(l, keys, opts, host), opts)
    decreases |keys|
  {
    if keys != [] && l.state.done.None? {
      RunStaysOn(KeyStep(l, keys[0], opts, host), keys[1..], opts, host);
    }
  }

  /** What a read leaves, given the chunks of input that come while it is on. */
  ghost function ReadOf(history: seq<string>, screen: Screen, chunks: seq<string>, keymap: Keymap, opts: Options,
    host: Host): (r: Live)
    requires opts.height.Some? && ScreenOk(TtyOf(opts), screen)
    ensures Runs(r, opts)
  {
    RunStaysOn(Opened(NewState(history), screen, opts), ParseChunks(false, chunks, keymap).keys, opts, host);
    RunKeys(Opened(NewState(history), screen, opts), ParseChunks(false, chunks, keymap).keys, opts, host)
  }

  /** No control character but line breaks in what is typed, and every search shows one row. */
  ghost predicate ReadFits(history: seq<string>, screen: Screen, chunks: seq<string>, keymap: Keymap,
    opts: Options, host: Host)
    requires opts.height.Some? && ScreenOk(TtyOf(opts), screen)
  {
    var keys := ParseChunks(false, chunks, keymap).keys;
    TameKeys(keys) && SearchesFit(Opened(NewState(history), screen, opts), keys, opts, host)
  }

  // ---------------------------------------------------------------- read after read

  /** The line a read ends with is the text on screen, so with quiet lines it is tame. */
  ghost predicate EndsTame(s: State) {
    && Valid(s) && QuietState(s)
    && (s.done.Some? && s.done.value.Line? ==> Tame(s.done.value.text))
  }

  lemma DoneIsTheText(s: State, key: Key, host: Host)
    requires Valid(s) && s.done.None?
    ensures var done := ApplyKey(s, key, host).done;
      done.Some? && done.value.Line? ==> done.value.text == TextOf(s)
  {
    if s.search.None? && !MenuTakes(s, key) && EditsLines(key) {
      EditsDoNotFinish(s, key, host);
    }
  }

  lemma StepEndsTame(l: Live, key: Key, opts: Options, host: Host)
    requires Runs(l, opts) && QuietState(l.state) && l.state.done.None? && QuietHost(host) && TameKey(key)
    ensures EndsTame(KeyStep(l, key, opts, host).state)
  {
    if key.Clear? {
      ClearStepIs(l, opts, host);
    } else if !key.CycleMode? {
      StepState(l, key, opts, host);
      KeyKeepsQuiet(l.state, key, host);
      DoneIsTheText(l.state, key, host);
      JoinIsTame(l.state.lines);
    }
  }

  ghost function TameOf(opts: Options): Invariant {
    (l, above) => Runs(l, opts) && EndsTame(l.state)
  }

  lemma EveryKeyEndsTame(opts: Options, host: Host)
    requires QuietHost(host)
    ensures KeptByEveryKey(DriverOf(opts, host), TameKey, SearchCheck(opts), TameOf(opts))
  {
    var step, ok, inv := DriverOf(opts, host), SearchCheck(opts), TameOf(opts);
    forall l, key, above | inv(l, above) && l.state.done.None? && TameKey(key) && ok(step(l, key).state)
      ensures inv(step(l, key), Kept(l, key, above))
    {
      StepEndsTame(l, key, opts, host);
    }
  }

  /** History once a read has got where `s` is. */
  function After(history: seq<string>, s: State): seq<string> {
    if s.done.Some? then Remembered(history, s.done.value) else history
  }

  /** Where a read got to, and the history it leaves. */
  datatype Console = Console(last: Live, history: seq<string>)

  /** A read, and what it adds to history. */
  ghost function ReadTo(history: seq<string>, screen: Screen, chunks: seq<string>, keymap: Keymap, opts: Options,
    host: Host): (r: Console)
    requires opts.height.Some? && ScreenOk(TtyOf(opts), screen)
    ensures Runs(r.last, opts)
  {
    var l := ReadOf(history, screen, chunks, keymap, opts, host);
    Console(l, After(history, l.state))
  }

  lemma AfterIsTame(history: seq<string>, s: State)
    requires AllTame(history) && EndsTame(s)
    ensures AllTame(After(history, s))
  {
  }

  /** What a read keeps of the transcript. */
  ghost function ReadKeeps(history: seq<string>, screen: Screen, chunks: seq<string>, above: seq<Row>, keymap: Keymap,
    opts: Options, host: Host): (kept: seq<Row>)
    requires opts.height.Some? && ScreenOk(TtyOf(opts), screen)
    ensures kept <= above
    ensures NoClear(ParseChunks(false, chunks, keymap).keys) ==> kept == above
  {
    KeptAlong(Opened(NewState(history), screen, opts), ParseChunks(false, chunks, keymap).keys, above,
      DriverOf(opts, host))
  }

  /** A read is safe, over any chunks, and what it leaves in history is fit for the next. */
  lemma ReadIsSafe(history: seq<string>, screen: Screen, chunks: seq<string>, keymap: Keymap, opts: Options, host: Host)
    requires AllTame(history) && OptionsOk(opts) && HostOk(host, opts) && ScreenOk(TtyOf(opts), screen)
    requires ReadFits(history, screen, chunks, keymap, opts, host)
    ensures var c, above := ReadTo(history, screen, chunks, keymap, opts, host), screen.rows[..screen.row];
      && Safe(c.last, ReadKeeps(history, screen, chunks, above, keymap, opts, host), opts)
      && AllTame(c.history)
  {
    var keys, above := ParseChunks(false, chunks, keymap).keys, screen.rows[..screen.row];
    var l := Opened(NewState(history), screen, opts);
    NewStateIsFresh(history);
    SessionIsSafe(NewState(history), screen, keys, opts, host);
    EveryKeyEndsTame(opts, host);
    RunEndsTame(l, keys, above, opts, host);
    AfterIsTame(history, RunKeys(l, keys, opts, host).state);
  }

  lemma RunEndsTame(l: Live, keys: seq<Key>, above: seq<Row>, opts: Options, host: Host)
    requires KeptByEveryKey(DriverOf(opts, host), TameKey, SearchCheck(opts), TameOf(opts))
    requires Runs(l, opts) && EndsTame(l.state) && TameKeys(keys) && SearchesFit(l, keys, opts, host)
    ensures EndsTame(RunKeys(l, keys, opts, host).state)
  {
    RunKeepsInvariant(l, keys, above, DriverOf(opts, host), TameKey, SearchCheck(opts), TameOf(opts));
  }

  /** The terminal between two reads, and what is remembered. */
  datatype Rest = Rest(screen: Screen, history: seq<string>)

  type Reader = (Rest, seq<string>) -> Rest

  /** Reads one after another. */
  ghost function ReadsWith(r: Rest, inputs: seq<seq<string>>, read: Reader): Rest
    decreases |inputs|
  {
    if inputs == [] then r else ReadsWith(read(r, inputs[0]), inputs[1..], read)
  }

  ghost predicate AlongReads(r: Rest, inputs: seq<seq<string>>, read: Reader, ok: (Rest, seq<string>) -> bool)
    decreases |inputs|
  {
    inputs == [] || (ok(r, inputs[0]) && AlongReads(read(r, inputs[0]), inputs[1..], read, ok))
  }

  type Keeper = (Rest, seq<string>, seq<Row>) -> seq<Row>

  /** What some reads keep of the transcript. */
  ghost function KeptOver(r: Rest, inputs: seq<seq<string>>, above: seq<Row>, read: Reader, keep: Keeper): seq<Row>
    decreases |inputs|
  {
    if inputs == [] then above
    else KeptOver(read(r, inputs[0]), inputs[1..], keep(r, inputs[0], above), read, keep)
  }

  ghost predicate EveryReadKeeps(read: Reader, ok: (Rest, seq<string>) -> bool, keep: Keeper,
    inv: (Rest, seq<Row>) -> bool)
  {
    forall r, chunks, above :: inv(r, above) && ok(r, chunks) ==> inv(read(r, chunks), keep(r, chunks, above))
  }

  /** What every read keeps, any number of them keep. */
  lemma {:induction false} ReadsKeep(r: Rest, inputs: seq<seq<string>>, above: seq<Row>, read: Reader,
    ok: (Rest, seq<string>) -> bool, keep: Keeper, inv: (Rest, seq<Row>) -> bool)
    requires EveryReadKeeps(read, ok, keep, inv) && inv(r, above) && AlongReads(r, inputs, read, ok)
    ensures inv(ReadsWith(r, inputs, read), KeptOver(r, inputs, above, read, keep))
    decreases |inputs|
  {
    if inputs != [] {
      ReadsKeep(read(r, inputs[0]), inputs[1..], keep(r, inputs[0], above), read, ok, keep, inv);
    }
  }

  ghost predicate AtRest(r: Rest, opts: Options) {
    opts.height.Some? && ScreenOk(TtyOf(opts), r.screen)
  }

  ghost function ReaderOf(keymap: Keymap, opts: Options, host: Host): Reader {
    (r, chunks) =>
      if AtRest(r, opts) then
        var c := ReadTo(r.history, r.screen, chunks, keymap, opts, host);
        Rest(c.last.screen, c.history)
      else r
  }

  /** The read ends, and nothing typed in it is out of the way. */
  ghost function EndsCheck(keymap: Keymap, opts: Options, host: Host): (Rest, seq<string>) -> bool {
    (r, chunks) =>
      && AtRest(r, opts) && ReadFits(r.history, r.screen, chunks, keymap, opts, host)
      && ReadTo(r.history, r.screen, chunks, keymap, opts, host).last.state.done.Some?
  }

  ghost function KeeperOf(keymap: Keymap, opts: Options, host: Host): Keeper {
    (r, chunks, above) =>
      if AtRest(r, opts) then ReadKeeps(r.history, r.screen, chunks, above, keymap, opts, host) else above
  }

  /** Above the cursor's row is the transcript, and what is remembered is tame. */
  ghost function RestsOn(opts: Options): (Rest, seq<Row>) -> bool {
    (r, above) => AtRest(r, opts) && AllTame(r.history) && r.screen.rows[..r.screen.row] == above
  }

  /** A read that has ended leaves the cursor on the row below what was kept. */
  lemma NextReadIsBelow(l: Live, kept: seq<Row>, opts: Options)
    requires Runs(l, opts) && Safe(l, kept, opts) && l.state.done.Some?
    ensures l.screen.rows[..l.screen.row] == kept
  {
  }

  lemma EachReadKeeps(keymap: Keymap, opts: Options, host: Host)
    requires OptionsOk(opts) && HostOk(host, opts)
    ensures EveryReadKeeps(ReaderOf(keymap, opts, host), EndsCheck(keymap, opts, host), KeeperOf(keymap, opts, host),
      RestsOn(opts))
  {
    var read, ok, keep := ReaderOf(keymap, opts, host), EndsCheck(keymap, opts, host), KeeperOf(keymap, opts, host);
    forall r, chunks, above | RestsOn(opts)(r, above) && ok(r, chunks)
      ensures RestsOn(opts)(read(r, chunks), keep(r, chunks, above))
    {
      ReadIsSafe(r.history, r.screen, chunks, keymap, opts, host);
      NextReadIsBelow(ReadTo(r.history, r.screen, chunks, keymap, opts, host).last, keep(r, chunks, above), opts);
    }
  }

  ghost predicate KeepsFronts(keep: Keeper, still: seq<string> -> bool) {
    forall r, chunks, above ::
      keep(r, chunks, above) <= above && (still(chunks) ==> keep(r, chunks, above) == above)
  }

  /** What is kept over some reads is a front of the transcript, all of it unless one of them clears. */
  lemma {:induction false} KeptOverIsAFront(r: Rest, inputs: seq<seq<string>>, above: seq<Row>, read: Reader,
    keep: Keeper, still: seq<string> -> bool)
    requires KeepsFronts(keep, still)
    ensures KeptOver(r, inputs, above, read, keep) <= above
    ensures (forall k :: 0 <= k < |inputs| ==> still(inputs[k])) ==> KeptOver(r, inputs, above, read, keep) == above
    decreases |inputs|
  {
    if inputs != [] {
      assert keep(r, inputs[0], above) <= above;
      KeptOverIsAFront(read(r, inputs[0]), inputs[1..], keep(r, inputs[0], above), read, keep, still);
      assert forall k :: 0 <= k < |inputs| - 1 ==> inputs[1..][k] == inputs[k + 1];
    }
  }

  ghost function StillOf(keymap: Keymap): seq<string> -> bool {
    chunks => NoClear(ParseChunks(false, chunks, keymap).keys)
  }

  lemma KeeperKeepsFronts(keymap: Keymap, opts: Options, host: Host)
    ensures KeepsFronts(KeeperOf(keymap, opts, host), StillOf(keymap))
  {
  }

  /** After any number of reads that have ended, the transcript is above, all of it unless one of them clears. */
  lemma ReadsAreSafe(r: Rest, inputs: seq<seq<string>>, keymap: Keymap, opts: Options, host: Host)
    requires AtRest(r, opts) && AllTame(r.history) && OptionsOk(opts) && HostOk(host, opts)
    requires AlongReads(r, inputs, ReaderOf(keymap, opts, host), EndsCheck(keymap, opts, host))
    ensures var read, keep := ReaderOf(keymap, opts, host), KeeperOf(keymap, opts, host);
      var above := r.screen.rows[..r.screen.row];
      var kept := KeptOver(r, inputs, above, read, keep);
      && RestsOn(opts)(ReadsWith(r, inputs, read), kept)
      && kept <= above
      && ((forall k :: 0 <= k < |inputs| ==> StillOf(keymap)(inputs[k])) ==> kept == above)
  {
    KeeperKeepsFronts(keymap, opts, host);
    KeptOverIsAFront(r, inputs, r.screen.rows[..r.screen.row], ReaderOf(keymap, opts, host),
      KeeperOf(keymap, opts, host), StillOf(keymap));
    EachReadKeeps(keymap, opts, host);
    ReadsKeep(r, inputs, r.screen.rows[..r.screen.row], ReaderOf(keymap, opts, host), EndsCheck(keymap, opts, host),
      KeeperOf(keymap, opts, host), RestsOn(opts));
  }

  class Editor {
    const opts: Options
    const host: Host
    const keymap: Keymap
    var state: State
    var cursorRow: Option<nat>
    var screen: Screen
    var history: seq<string>

    ghost function Now(): Live
      reads this
    {
      Live(state, cursorRow, screen)
    }

    constructor (opts: Options, host: Host, keymap: Keymap, screen: Screen)
      requires opts.height.Some? && ScreenOk(TtyOf(opts), screen)
      ensures this.opts == opts && this.host == host && this.keymap == keymap
      ensures history == [] && this.screen == screen && Runs(Now(), opts)
    {
      this.opts, this.host, this.keymap, this.screen := opts, host, keymap, screen;
      state, cursorRow, history := NewState([]), None, [];
    }

    method Write(ops: seq<Op>)
      requires Runs(Now(), opts)
      modifies this`screen
      ensures screen == ExecAll(TtyOf(opts), old(screen), ops) && Runs(Now(), opts)
    {
      screen := ExecAll(TtyOf(opts), screen, ops);
    }

    method DrawNow()
      requires Runs(Now(), opts)
      modifies this`screen, this`cursorRow
      ensures Runs(Now(), opts) && Now() == Draw(old(Now()), opts)
    {
      Write(Render(state, opts, cursorRow));
      cursorRow := Some(CursorRowOf(state, opts));
    }

    /** A read begins. */
    method Open(s: State)
      requires Runs(Now(), opts) && Valid(s)
      modifies this`state, this`screen, this`cursorRow
      ensures Runs(Now(), opts) && Now() == Opened(s, old(screen), opts)
    {
      state, cursorRow := s, None;
      DrawNow();
    }

    method Read()
      requires Runs(Now(), opts)
      modifies this`state, this`screen, this`cursorRow
      ensures state == NewState(history)
      ensures Runs(Now(), opts) && Now() == Opened(state, old(screen), opts)
    {
      var s := NewState(history);
      Open(s);
    }

    /** One key. The block is taken down, and the line remembered, when it ends the read. */
    method Press(key: Key)
      requires Runs(Now(), opts) && state.done.None?
      modifies this`state, this`screen, this`cursorRow, this`history
      ensures Runs(Now(), opts) && Now() == KeyStep(old(Now()), key, opts, host)
      ensures history == After(old(history), state)
    {
      if key.Clear? {
        Write([EraseScreen, CursorHome]);
        cursorRow := None;
        DrawNow();
      } else if key.CycleMode? {
        DrawNow();
      } else {
        var before := state;
        state := ApplyKey(state, key, host);
        if state.done.Some? {
          Write(ClearBlock(state, opts));
          history := Remembered(history, state.done.value);
        } else if state != before {
          DrawNow();
        }
      }
    }

    /** Keys in order, until one of them ends the read. */
    method PressAll(keys: seq<Key>)
      requires Runs(Now(), opts) && state.done.None?
      modifies this`state, this`screen, this`cursorRow, this`history
      ensures Runs(Now(), opts) && Now() == RunKeys(old(Now()), keys, opts, host)
      ensures history == After(old(history), state)
    {
      ghost var step := DriverOf(opts, host);
      ghost var all := RunWith(Now(), keys, step);
      var i := 0;
      assert keys[0..] == keys;
      while i < |keys| && state.done.None?
        invariant 0 <= i <= |keys| && Runs(Now(), opts)
        invariant all == RunWith(Now(), keys[i..], step)
        invariant history == After(old(history), state)
      {
        NextKey(Now(), keys, i, opts, host);
        Press(keys[i]);
        i := i + 1;
      }
    }

    /** One chunk of input. */
    method OnData(chunk: string, paste: PasteState)
      requires Runs(Now(), opts) && state.done.None?
      modifies this`state, this`screen, this`cursorRow, this`history, paste
      ensures Runs(Now(), opts)
      ensures Now() == RunKeys(old(Now()), ParseChunk(old(paste.inside), chunk, keymap).keys, opts, host)
      ensures paste.inside == ParseChunk(old(paste.inside), chunk, keymap).inside
      ensures history == After(old(history), state)
    {
      var keys := ParseInput(chunk, keymap, paste);
      PressAll(keys);
    }

    /** Chunks of input as they come, until a key ends the read. */
    method Feed(chunks: seq<string>, paste: PasteState)
      requires Runs(Now(), opts) && state.done.None?
      modifies this`state, this`screen, this`cursorRow, this`history, paste
      ensures Runs(Now(), opts)
      ensures Fed(Now(), paste.inside)
        == FeedWith(Fed(old(Now()), old(paste.inside)), chunks, FeederOf(keymap, opts, host))
      ensures history == After(old(history), state)
      decreases |chunks|
    {
      if chunks != [] {
        OnData(chunks[0], paste);
        if state.done.None? {
          Feed(chunks[1..], paste);
        }
      }
    }

    /** A whole read. */
    method ReadLine(chunks: seq<string>)
      requires Runs(Now(), opts)
      modifies this`state, this`screen, this`cursorRow, this`history
      ensures Runs(Now(), opts)
      ensures Console(Now(), history) == ReadTo(old(history), old(screen), chunks, keymap, opts, host)
    {
      ReadIsFed(history, screen, chunks, keymap, opts, host);
      Read();
      var paste := new PasteState();
      Feed(chunks, paste);
    }
  }
}
