/**
 * The line editor's state machine: one key, one new state (src/cli/editor.ts).
 *
 * Positions are offsets in logical lines, never columns. A function that takes a state requires
 * only what every state reachable from `NewState` satisfies, and ensures it again.
 */
module EditorState {
  import opened Strings
  import opened Lines

  const MAX_UNDO: nat := 200

  datatype Key =
    | Text(text: string)
    | Enter
    | Newline
    | Backspace
    | Delete
    | Left
    | Right
    | Up
    | Down
    | Home
    | End
    | WordLeft
    | WordRight
    | KillToEnd
    | KillToStart
    | KillWord
    | Yank
    | Tab
    | Cancel
    | Eof
    | Escape
    | Clear
    | Undo
    | Redo
    | Search
    | CycleMode

  datatype Outcome = Line(text: string) | Cancelled | EndOfInput

  datatype Snapshot = Snapshot(lines: seq<string>, row: nat, col: nat)

  datatype SearchState = SearchState(query: string, matches: seq<nat>, at: nat)

  datatype State = State(
    lines: seq<string>,
    row: nat,
    col: nat,
    history: seq<string>,
    historyAt: nat,
    draft: Option<string>,
    killRing: string,
    done: Option<Outcome>,
    menu: seq<string>,
    menuAt: nat,
    undo: seq<Snapshot>,
    redo: seq<Snapshot>,
    search: Option<SearchState>
  )

  /** What the host supplies: candidates for the whole buffer, and Unicode lower-casing. */
  datatype Host = Host(complete: string -> seq<string>, lower: string -> string)

  // ---------------------------------------------------------------- well-formedness

  ghost predicate InText(lines: seq<string>, row: nat, col: nat) {
    row < |lines| && col <= |lines[row]|
  }

  ghost predicate ValidSnapshots(stack: seq<Snapshot>) {
    forall k :: 0 <= k < |stack| ==> InText(stack[k].lines, stack[k].row, stack[k].col)
  }

  ghost predicate ValidSearch(search: Option<SearchState>, history: seq<string>) {
    search.Some? ==>
      && (search.value.at < |search.value.matches| || search.value.at == 0)
      && forall k :: 0 <= k < |search.value.matches| ==> search.value.matches[k] < |history|
  }

  ghost predicate Valid(s: State) {
    && InText(s.lines, s.row, s.col)
    && s.historyAt <= |s.history|
    && (s.historyAt < |s.history| ==> s.draft.Some?)
    && (s.menuAt < |s.menu| || s.menuAt == 0)
    && |s.undo| + |s.redo| <= MAX_UNDO
    && ValidSnapshots(s.undo)
    && ValidSnapshots(s.redo)
    && ValidSearch(s.search, s.history)
  }

  function NewState(history: seq<string>): (s: State)
    ensures Valid(s)
  {
    State([""], 0, 0, history, |history|, None, "", None, [], 0, [], [], None)
  }

  function TextOf(s: State): string
    requires s.lines != []
  {
    Join(s.lines)
  }

  function LineOf(s: State): string
    requires s.row < |s.lines|
  {
    s.lines[s.row]
  }

  function Snap(s: State): Snapshot {
    Snapshot(s.lines, s.row, s.col)
  }

  // ---------------------------------------------------------------- scanning a line

  /** `/[\w$-]/`. */
  predicate IsWord(c: char) {
    'a' <= c <= 'z' || 'A' <= c <= 'Z' || '0' <= c <= '9' || c == '_' || c == '$' || c == '-'
  }

  /** The character classes the editor scans over. */
  datatype CharClass = WordChars | NonWordChars | NonSpaces | CsiParameters | Printables

  predicate InClass(c: char, run: CharClass) {
    match run
    case WordChars => IsWord(c)
    case NonWordChars => !IsWord(c)
    case NonSpaces => !IsSpace(c)
    case CsiParameters => '\U{30}' <= c <= '\U{3F}'
    case Printables => c >= '\U{20}' && c != '\U{7F}'
  }

  /** Where the run of such characters that ends at `at` starts. */
  function BackWhile(line: string, at: nat, run: CharClass): (start: nat)
    requires at <= |line|
    ensures start <= at
  {
    if at > 0 && InClass(line[at - 1], run) then BackWhile(line, at - 1, run) else at
  }

  /** Where the run of such characters that starts at `at` ends. */
  function ForwardWhile(line: string, at: nat, run: CharClass): (end: nat)
    requires at <= |line|
    ensures at <= end <= |line|
    decreases |line| - at
  {
    if at < |line| && InClass(line[at], run) then ForwardWhile(line, at + 1, run) else at
  }

  function WordStart(line: string, col: nat): (start: nat)
    requires col <= |line|
    ensures start <= col
  {
    BackWhile(line, BackWhile(line, col, NonWordChars), WordChars)
  }

  function WordEnd(line: string, col: nat): (end: nat)
    requires col <= |line|
    ensures col <= end <= |line|
  {
    ForwardWhile(line, ForwardWhile(line, col, NonWordChars), WordChars)
  }

  /** Where the token under the cursor begins. */
  function TokenStart(line: string, col: nat): (start: nat)
    requires col <= |line|
    ensures start <= col
  {
    BackWhile(line, col, NonSpaces)
  }

  method ComputeTokenStart(line: string, col: nat) returns (start: nat)
    requires col <= |line|
    ensures start == TokenStart(line, col)
    ensures start <= col && forall k :: start <= k < col ==> !IsSpace(line[k])
    ensures start == 0 || IsSpace(line[start - 1])
  {
    start := col;
    while start > 0 && !IsSpace(line[start - 1])
      invariant start <= col
      invariant forall k :: start <= k < col ==> !IsSpace(line[k])
      invariant TokenStart(line, col) == TokenStart(line, start)
    {
      start := start - 1;
    }
  }

  // ---------------------------------------------------------------- history search

  predicate Matches(host: Host, entry: string, query: string) {
    Contains(host.lower(entry), host.lower(query))
  }

  /** The matching indices below `n`, newest first. */
  function MatchesBelow(host: Host, history: seq<string>, query: string, n: nat): (out: seq<nat>)
    requires n <= |history|
    ensures forall i: nat :: i in out <==> i < n && Matches(host, history[i], query)
    ensures forall k :: 0 <= k < |out| ==> out[k] < n
    ensures forall j, k :: 0 <= j < k < |out| ==> out[j] > out[k]
  {
    if n == 0 then []
    else
      var older := MatchesBelow(host, history, query, n - 1);
      if Matches(host, history[n - 1], query) then [n - 1] + older else older
  }

  lemma OneMoreMatch(host: Host, history: seq<string>, query: string, out: seq<nat>, i: nat)
    requires i < |history|
    ensures out + MatchesBelow(host, history, query, i + 1)
         == (if Matches(host, history[i], query) then out + [i] else out) + MatchesBelow(host, history, query, i)
  {
    var rest := MatchesBelow(host, history, query, i);
    assert out + ([i] + rest) == out + [i] + rest;
  }

  method MatchHistory(host: Host, history: seq<string>, query: string) returns (out: seq<nat>)
    ensures out == MatchesBelow(host, history, query, |history|)
  {
    ghost var all := MatchesBelow(host, history, query, |history|);
    out := [];
    var i := |history|;
    assert out + all == all;
    while i > 0
      invariant 0 <= i <= |history|
      invariant all == out + MatchesBelow(host, history, query, i)
    {
      i := i - 1;
      OneMoreMatch(host, history, query, out, i);
      if Matches(host, history[i], query) {
        out := out + [i];
      }
    }
    assert out + [] == out;
  }

  // ---------------------------------------------------------------- edits

  function LastN<T>(xs: seq<T>, n: nat): seq<T> {
    if |xs| <= n then xs else xs[|xs| - n..]
  }

  /** `t`, reached from `s` by an edit that Ctrl-Z can take back. */
  function Remember(s: State, t: State): (r: State)
    requires Valid(s)
    requires InText(t.lines, t.row, t.col)
    requires t.history == s.history && t.historyAt == s.historyAt && t.draft == s.draft && t.search == s.search
    requires t.menuAt < |t.menu| || t.menuAt == 0
    ensures Valid(r)
    ensures Snap(r) == Snap(t) && r.redo == [] && |r.undo| > 0 && Last(r.undo) == Snap(s)
  {
    t.(undo := LastN(s.undo + [Snap(s)], MAX_UNDO), redo := [])
  }

  /** The buffer replaced wholesale, cursor at its very end. */
  function Load(s: State, text: string): (r: State)
    ensures InText(r.lines, r.row, r.col)
  {
    var lines := Split(text);
    s.(lines := lines, row := |lines| - 1, col := |Last(lines)|)
  }

  /** The parts of an inserted text set into the cursor's line. */
  function Inserted(head: string, parts: seq<string>, tail: string): (r: seq<string>)
    requires |parts| > 1
    ensures |r| == |parts|
  {
    [head + parts[0]] + parts[1..|parts| - 1] + [Last(parts) + tail]
  }

  function ApplyText(s: State, text: string): (r: State)
    requires Valid(s)
    ensures Valid(r)
  {
    var line := LineOf(s);
    var parts := Split(text);
    var head, tail := line[..s.col], line[s.col..];
    if |parts| == 1 then
      Remember(s,
        s.(lines := s.lines[s.row := head + parts[0] + tail], col := s.col + |parts[0]|, menu := [], menuAt := 0))
    else
      var lines := s.lines[..s.row] + Inserted(head, parts, tail) + s.lines[s.row + 1..];
      assert lines[s.row + |parts| - 1] == Last(parts) + tail;
      Remember(s, s.(lines := lines, row := s.row + |parts| - 1, col := |Last(parts)|, menu := [], menuAt := 0))
  }

  function ApplyNewline(s: State): (r: State)
    requires Valid(s)
    ensures Valid(r)
  {
    var line := LineOf(s);
    s.(lines := s.lines[..s.row] + [line[..s.col], line[s.col..]] + s.lines[s.row + 1..], row := s.row + 1, col := 0)
  }

  function ApplyBackspace(s: State): (r: State)
    requires Valid(s)
    ensures Valid(r)
  {
    var line := LineOf(s);
    if s.col > 0 then
      Remember(s,
        s.(lines := s.lines[s.row := line[..s.col - 1] + line[s.col..]], col := s.col - 1, menu := [], menuAt := 0))
    else if s.row == 0 then s
    else
      var previous := s.lines[s.row - 1];
      Remember(s,
        s.(lines := s.lines[..s.row - 1] + [previous + line] + s.lines[s.row + 1..],
           row := s.row - 1, col := |previous|))
  }

  function ApplyDelete(s: State): (r: State)
    requires Valid(s)
    ensures Valid(r)
  {
    var line := LineOf(s);
    if s.col < |line| then s.(lines := s.lines[s.row := line[..s.col] + line[s.col + 1..]])
    else if s.row >= |s.lines| - 1 then s
    else s.(lines := s.lines[..s.row] + [line + s.lines[s.row + 1]] + s.lines[s.row + 2..])
  }

  function ApplyLeft(s: State): (r: State)
    requires Valid(s)
    ensures Valid(r)
  {
    if s.col > 0 then s.(col := s.col - 1)
    else if s.row == 0 then s
    else s.(row := s.row - 1, col := |s.lines[s.row - 1]|)
  }

  function ApplyRight(s: State): (r: State)
    requires Valid(s)
    ensures Valid(r)
  {
    if s.col < |LineOf(s)| then s.(col := s.col + 1)
    else if s.row >= |s.lines| - 1 then s
    else s.(row := s.row + 1, col := 0)
  }

  /** Cut `line[from..to]` out, leaving the cursor at `from`. Ctrl-K, Ctrl-U and Ctrl-W. */
  function ApplyKill(s: State, from: nat, to: nat): (r: State)
    requires Valid(s)
    requires from <= to <= |LineOf(s)|
    ensures Valid(r)
  {
    var line := LineOf(s);
    Remember(s, s.(lines := s.lines[s.row := line[..from] + line[to..]], col := from, killRing := line[from..to]))
  }

  function ApplyYank(s: State): (r: State)
    requires Valid(s)
    ensures Valid(r)
  {
    var line := LineOf(s);
    if s.killRing == "" then s
    else Remember(s,
      s.(lines := s.lines[s.row := line[..s.col] + s.killRing + line[s.col..]], col := s.col + |s.killRing|))
  }

  function ApplyUp(s: State): (r: State)
    requires Valid(s)
    ensures Valid(r)
  {
    if s.row > 0 then s.(row := s.row - 1, col := Min(s.col, |s.lines[s.row - 1]|))
    else if s.historyAt == 0 || s.history == [] then s
    else
      var draft := if s.historyAt == |s.history| then Some(TextOf(s)) else s.draft;
      Load(s, s.history[s.historyAt - 1]).(historyAt := s.historyAt - 1, draft := draft)
  }

  function ApplyDown(s: State): (r: State)
    requires Valid(s)
    ensures Valid(r)
  {
    if s.row < |s.lines| - 1 then s.(row := s.row + 1, col := Min(s.col, |s.lines[s.row + 1]|))
    else if s.historyAt >= |s.history| then s
    else
      var at := s.historyAt + 1;
      Load(s, if at == |s.history| then s.draft.value else s.history[at]).(historyAt := at)
  }

  /** A candidate put in place of the token the cursor stands in. */
  function Complete(s: State, picked: string): (r: State)
    requires Valid(s)
    ensures Valid(r)
  {
    var line := LineOf(s);
    var start := TokenStart(line, s.col);
    s.(lines := s.lines[s.row := line[..start] + picked + line[s.col..]], col := start + |picked|)
  }

  function ApplyTab(s: State, host: Host): (r: State)
    requires Valid(s)
    ensures Valid(r)
  {
    var candidates := host.complete(TextOf(s));
    if candidates == [] then s
    else if |candidates| == 1 then Complete(s, candidates[0])
    else s.(menu := candidates, menuAt := 0)
  }

  /** The buffer a snapshot holds; its row is clamped the way the source clamps it. */
  function Restore(s: State, shot: Snapshot): (r: State)
    requires shot.lines != []
  {
    s.(lines := shot.lines, row := Min(shot.row, |shot.lines| - 1), col := shot.col, menu := [], menuAt := 0)
  }

  function ApplyUndo(s: State): (r: State)
    requires Valid(s)
    ensures Valid(r)
  {
    if s.undo == [] then s
    else Restore(s, Last(s.undo)).(undo := Init(s.undo), redo := LastN(s.redo + [Snap(s)], MAX_UNDO))
  }

  function ApplyRedo(s: State): (r: State)
    requires Valid(s)
    ensures Valid(r)
  {
    if s.redo == [] then s
    else Restore(s, Last(s.redo)).(redo := Init(s.redo), undo := LastN(s.undo + [Snap(s)], MAX_UNDO))
  }

  // ---------------------------------------------------------------- reverse search

  function StartSearch(host: Host, history: seq<string>, query: string): SearchState {
    SearchState(query, MatchesBelow(host, history, query, |history|), 0)
  }

  /** The history entry the search points at, if it points at one. */
  function Found(s: State): (r: Option<string>)
    requires s.search.Some? && ValidSearch(s.search, s.history)
  {
    var search := s.search.value;
    if search.at < |search.matches| then Some(s.history[search.matches[search.at]]) else None
  }

  function ApplyInSearch(s: State, key: Key, host: Host): (r: State)
    requires Valid(s) && s.search.Some?
    ensures Valid(r)
  {
    var search := s.search.value;
    match key
    case Search => s.(search := Some(search.(at := Min(search.at + 1, Max(0, |search.matches| - 1)))))
    case Escape => s.(search := None)
    case Cancel => s.(search := None)
    case Enter => if Found(s).None? then s.(search := None) else Load(s, Found(s).value).(search := None)
    case Backspace =>
      var query := if search.query == "" then "" else Init(search.query);
      s.(search := Some(StartSearch(host, s.history, query)))
    case Text(t) => s.(search := Some(StartSearch(host, s.history, search.query + t)))
    case _ => s
  }

  // ---------------------------------------------------------------- one key

  /** The keys a menu on screen takes before the buffer sees them. */
  predicate MenuTakes(s: State, key: Key) {
    s.menu != [] && (key.Up? || key.Down? || key.Escape? || key.Enter? || key.Tab?)
  }

  function ApplyInMenu(s: State, key: Key): (r: State)
    requires Valid(s) && MenuTakes(s, key)
    ensures Valid(r)
  {
    match key
    case Up => s.(menuAt := (s.menuAt - 1 + |s.menu|) % |s.menu|)
    case Down => s.(menuAt := (s.menuAt + 1) % |s.menu|)
    case Escape => s.(menu := [], menuAt := 0)
    case _ => Complete(s, s.menu[s.menuAt]).(menu := [], menuAt := 0)
  }

  function ApplyInBuffer(s: State, key: Key, host: Host): (r: State)
    requires Valid(s) && s.search.None?
    ensures Valid(r)
  {
    var line := LineOf(s);
    match key
    case Text(t) => ApplyText(s, t)
    case Enter => s.(done := Some(Line(TextOf(s))))
    case Newline => ApplyNewline(s)
    case Backspace => ApplyBackspace(s)
    case Delete => ApplyDelete(s)
    case Left => ApplyLeft(s)
    case Right => ApplyRight(s)
    case Home => s.(col := 0)
    case End => s.(col := |line|)
    case WordLeft => s.(col := WordStart(line, s.col))
    case WordRight => s.(col := WordEnd(line, s.col))
    case KillToEnd => ApplyKill(s, s.col, |line|)
    case KillToStart => ApplyKill(s, 0, s.col)
    case KillWord => ApplyKill(s, WordStart(line, s.col), s.col)
    case Yank => ApplyYank(s)
    case Up => ApplyUp(s)
    case Down => ApplyDown(s)
    case Tab => ApplyTab(s, host)
    case Cancel => s.(done := Some(Cancelled))
    case Eof => if TextOf(s) == "" then s.(done := Some(EndOfInput)) else s
    case Escape => if s.menu != [] then s.(menu := [], menuAt := 0) else s
    case Undo => ApplyUndo(s)
    case Redo => ApplyRedo(s)
    case Search => s.(search := Some(StartSearch(host, s.history, "")), menu := [], menuAt := 0)
    case Clear => s
    case CycleMode => s
  }

  /** `applyKey`: search owns the keyboard, then the menu, then the buffer. */
  function ApplyKey(s: State, key: Key, host: Host): (r: State)
    requires Valid(s)
    ensures Valid(r)
  {
    if s.search.Some? then ApplyInSearch(s, key, host)
    else if MenuTakes(s, key) then ApplyInMenu(s, key)
    else ApplyInBuffer(s, key, host)
  }

  function ApplyKeys(s: State, keys: seq<Key>, host: Host): (r: State)
    requires Valid(s)
    ensures Valid(r)
    decreases |keys|
  {
    if keys == [] then s else ApplyKeys(ApplyKey(s, keys[0], host), keys[1..], host)
  }

  lemma {:induction false} ApplyKeysConcat(s: State, a: seq<Key>, b: seq<Key>, host: Host)
    requires Valid(s)
    ensures ApplyKeys(s, a + b, host) == ApplyKeys(ApplyKeys(s, a, host), b, host)
    decreases |a|
  {
    if a == [] {
      assert a + b == b;
    } else {
      assert (a + b)[1..] == a[1..] + b;
      ApplyKeysConcat(ApplyKey(s, a[0], host), a[1..], b, host);
    }
  }
}
