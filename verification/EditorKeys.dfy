/**
 * What single keys do, said without their code: words, rows, history steps, the menu, the search, and
 * which key ends a read (`applyKey` in src/cli/editor.ts).
 */
module EditorKeys {
  import opened Strings
  import opened Lines
  import opened EditorState
  import opened EditorRuns
  import opened KeyDecoder
  import opened EditorSession

  // ---------------------------------------------------------------- words

  predicate AllIn(line: string, from: nat, to: nat, run: CharClass)
    requires to <= |line|
  {
    forall k :: from <= k < to ==> InClass(line[k], run)
  }

  lemma {:induction false} BackRun(line: string, at: nat, run: CharClass)
    requires at <= |line|
    ensures var start := BackWhile(line, at, run);
      AllIn(line, start, at, run) && (start == 0 || !InClass(line[start - 1], run))
    decreases at
  {
    if at > 0 && InClass(line[at - 1], run) {
      BackRun(line, at - 1, run);
    }
  }

  /** A whole word from `start` to `mid`, then no word character up to `col`. Without a word, all of the line's
      start. */
  predicate WordThenGap(line: string, start: nat, mid: nat, col: nat) {
    && start <= mid <= col <= |line|
    && AllIn(line, start, mid, WordChars) && AllIn(line, mid, col, NonWordChars)
    && (start == 0 || !IsWord(line[start - 1]))
    && (start == mid ==> start == 0)
  }

  /** Word-left, and the kill of a word, go to the start of the word before the cursor. */
  lemma WordStartIsAWord(line: string, col: nat)
    requires col <= |line|
    ensures exists mid :: WordThenGap(line, WordStart(line, col), mid, col)
  {
    var mid := BackWhile(line, col, NonWordChars);
    BackRun(line, col, NonWordChars);
    BackRun(line, mid, WordChars);
    assert WordThenGap(line, WordStart(line, col), mid, col);
  }

  /** No word character from `col` to `mid`, then a whole word to `end`. Without a word, all of the line's end. */
  predicate GapThenWord(line: string, col: nat, mid: nat, end: nat) {
    && col <= mid <= end <= |line|
    && AllIn(line, col, mid, NonWordChars) && AllIn(line, mid, end, WordChars)
    && (end == |line| || !IsWord(line[end]))
    && (mid == end ==> end == |line|)
  }

  /** Word-right goes to the end of the word after the cursor. */
  lemma WordEndIsAWord(line: string, col: nat)
    requires col <= |line|
    ensures exists mid :: GapThenWord(line, col, mid, WordEnd(line, col))
  {
    var mid := ForwardWhile(line, col, NonWordChars);
    RunEndIsRun(line, col, NonWordChars);
    RunEndIsRun(line, mid, WordChars);
    assert GapThenWord(line, col, mid, WordEnd(line, col));
  }

  // ---------------------------------------------------------------- rows and history

  lemma TwoKeys(s: State, first: Key, second: Key, host: Host)
    requires Valid(s)
    ensures ApplyKeys(s, [first, second], host) == ApplyKey(ApplyKey(s, first, host), second, host)
  {
    var keys, t := [first, second], ApplyKey(s, first, host);
    assert keys[1..] == [second] && [second][1..] == [];
    assert ApplyKeys(s, keys, host) == ApplyKeys(t, [second], host);
    assert ApplyKeys(t, [second], host) == ApplyKeys(ApplyKey(t, second, host), [], host);
  }

  /** Up and then Down, inside the buffer, comes back exactly when the row above was long enough. */
  lemma UpThenDown(s: State, host: Host)
    requires Valid(s) && s.search.None? && s.menu == [] && s.row > 0
    ensures Snap(ApplyKeys(s, [Up, Down], host)) == Snap(s) <==> s.col <= |s.lines[s.row - 1]|
  {
    TwoKeys(s, Up, Down, host);
    assert ApplyKey(s, Up, host) == ApplyUp(s);
    assert ApplyKey(ApplyUp(s), Down, host) == ApplyDown(ApplyUp(s));
  }

  lemma LoadedIs(s: State, text: string)
    ensures TextOf(Load(s, text)) == text
  {
    JoinSplit(text);
  }

  /** Up on the first row shows the entry before, with the cursor at its end. */
  lemma UpShowsTheEntry(s: State, host: Host)
    requires Valid(s) && s.search.None? && s.menu == [] && s.row == 0 && s.historyAt > 0
    ensures var r := ApplyKey(s, Up, host);
      && TextOf(r) == s.history[s.historyAt - 1] && r.historyAt == s.historyAt - 1
      && r.row == |r.lines| - 1 && r.col == |LineOf(r)|
  {
    LoadedIs(s, s.history[s.historyAt - 1]);
    assert ApplyKey(s, Up, host) == ApplyUp(s);
  }

  /** Down on the last row shows the entry after, or what was typed, with the cursor at its end. */
  lemma DownShowsTheNext(s: State, host: Host)
    requires Valid(s) && s.search.None? && s.menu == [] && s.row == |s.lines| - 1 && s.historyAt < |s.history|
    ensures var r, at := ApplyKey(s, Down, host), s.historyAt + 1;
      && TextOf(r) == (if at == |s.history| then s.draft.value else s.history[at]) && r.historyAt == at
      && r.row == |r.lines| - 1 && r.col == |LineOf(r)|
  {
    var at := s.historyAt + 1;
    LoadedIs(s, if at == |s.history| then s.draft.value else s.history[at]);
    assert ApplyKey(s, Down, host) == ApplyDown(s);
  }

  /** Between two rows the column stays, or is the end of a row that is too short for it. */
  ghost predicate MovedTo(r: State, s: State, row: nat)
    requires row < |s.lines|
  {
    && r == s.(row := row, col := r.col) && r.col <= |s.lines[row]|
    && (r.col == s.col || (s.col > |s.lines[row]| && r.col == |s.lines[row]|))
  }

  lemma RowMotions(s: State, host: Host)
    requires Valid(s) && s.search.None? && s.menu == []
    ensures s.row > 0 ==> MovedTo(ApplyKey(s, Up, host), s, s.row - 1)
    ensures s.row < |s.lines| - 1 ==> MovedTo(ApplyKey(s, Down, host), s, s.row + 1)
  {
    assert ApplyKey(s, Up, host) == ApplyUp(s) && ApplyKey(s, Down, host) == ApplyDown(s);
  }

  /**
   * Up and then Down gives the text back exactly when it was being typed or is the entry itself: what
   * was edited in an entry is lost on leaving it.
   */
  lemma StepBackAndForth(s: State, host: Host)
    requires Valid(s) && s.search.None? && s.menu == [] && s.row == 0 && s.historyAt > 0
    ensures TextOf(ApplyKeys(s, [Up, Down], host)) == TextOf(s) <==>
      s.historyAt == |s.history| || TextOf(s) == s.history[s.historyAt]
  {
    var r := ApplyUp(s);
    TwoKeys(s, Up, Down, host);
    UpShowsTheEntry(s, host);
    assert ApplyKey(s, Up, host) == r;
    assert ApplyKey(r, Down, host) == ApplyDown(r);
    LoadedIs(r, if s.historyAt == |s.history| then r.draft.value else s.history[s.historyAt]);
  }

  /** What Down loads on the last row: the text that was being typed, or the later entry. */
  function Later(s: State): string
    requires Valid(s) && s.historyAt < |s.history|
  {
    if s.historyAt + 1 == |s.history| then s.draft.value else s.history[s.historyAt + 1]
  }

  lemma {:induction false} OneLine(s: string)
    ensures |Split(s)| == 1 <==> NL !in s
  {
    if s != "" {
      OneLine(s[1..]);
      assert s == [s[0]] + s[1..];
    }
  }

  lemma DownLoads(s: State, host: Host)
    requires Valid(s) && s.search.None? && s.menu == [] && s.row == |s.lines| - 1 && s.historyAt < |s.history|
    ensures ApplyKey(s, Down, host) == Load(s, Later(s)).(historyAt := s.historyAt + 1)
  {
    assert ApplyKey(s, Down, host) == ApplyDown(s);
  }

  /**
   * Down and then Up gives the text back exactly when the later text is one line and the earlier one is
   * the entry unchanged, or the two are the same: Down leaves the cursor on the last row of what it loads.
   */
  lemma StepForthAndBack(s: State, host: Host)
    requires Valid(s) && s.search.None? && s.menu == [] && s.row == |s.lines| - 1 && s.historyAt < |s.history|
    ensures TextOf(ApplyKeys(s, [Down, Up], host)) == TextOf(s) <==>
      TextOf(s) == if NL in Later(s) then Later(s) else s.history[s.historyAt]
  {
    var r := ApplyKey(s, Down, host);
    TwoKeys(s, Down, Up, host);
    DownLoads(s, host);
    LoadedIs(s, Later(s));
    OneLine(Later(s));
    assert ApplyKey(r, Up, host) == ApplyUp(r);
    if NL !in Later(s) {
      LoadedIs(r, s.history[s.historyAt]);
    }
  }

  // ---------------------------------------------------------------- the menu and the search

  lemma OnceAround(x: nat, n: nat)
    requires n <= x < n + n
    ensures x % n == x - n
  {
    assert x == n * (x / n) + x % n;
  }

  lemma StepsWrap(at: nat, n: nat)
    requires at < n
    ensures (at + 1) % n == if at + 1 == n then 0 else at + 1
    ensures (at - 1 + n) % n == if at == 0 then n - 1 else at - 1
  {
    if at + 1 == n {
      OnceAround(at + 1, n);
    }
    if at > 0 {
      OnceAround(at - 1 + n, n);
    }
  }

  /** In a menu Up and Down undo each other, round both ends. */
  lemma MenuStepsUndo(s: State, host: Host)
    requires Valid(s) && s.search.None? && s.menu != []
    ensures ApplyKeys(s, [Up, Down], host) == s && ApplyKeys(s, [Down, Up], host) == s
  {
    TwoKeys(s, Up, Down, host);
    TwoKeys(s, Down, Up, host);
    StepsWrap(s.menuAt, |s.menu|);
    var up, down := ApplyKey(s, Up, host), ApplyKey(s, Down, host);
    assert up == s.(menuAt := if s.menuAt == 0 then |s.menu| - 1 else s.menuAt - 1);
    assert down == s.(menuAt := if s.menuAt + 1 == |s.menu| then 0 else s.menuAt + 1);
    StepsWrap(up.menuAt, |s.menu|);
    StepsWrap(down.menuAt, |s.menu|);
  }

  /** The keys that close a menu that does not take them itself. */
  predicate ClosesMenu(s: State, key: Key) {
    || key.Text? || key.Search? || (key.Backspace? && s.col > 0)
    || (key.Undo? && s.undo != []) || (key.Redo? && s.redo != [])
  }

  /**
   * A menu is opened by Tab, with all the candidates of the text, and stays as it is until one of these
   * keys; a newline, a deletion, a kill or a join of two lines leaves it open.
   */
  lemma MenuStaysExactly(s: State, key: Key, host: Host)
    requires Valid(s) && s.search.None? && !MenuTakes(s, key)
    ensures var r, candidates := ApplyKey(s, key, host), host.complete(TextOf(s));
      r.menu == if ClosesMenu(s, key) then [] else if key.Tab? && |candidates| > 1 then candidates else s.menu
  {
    if EditsLines(key) {
      EditedMenu(s, key, host);
    } else {
      UneditedMenu(s, key, host);
    }
  }

  lemma EditedMenu(s: State, key: Key, host: Host)
    requires Valid(s) && s.search.None? && EditsLines(key)
    ensures var candidates := host.complete(TextOf(s));
      ApplyInBuffer(s, key, host).menu
      == if ClosesMenu(s, key) then [] else if key.Tab? && |candidates| > 1 then candidates else s.menu
  {
  }

  lemma UneditedMenu(s: State, key: Key, host: Host)
    requires Valid(s) && s.search.None? && !MenuTakes(s, key) && !EditsLines(key)
    ensures ApplyInBuffer(s, key, host).menu == if ClosesMenu(s, key) then [] else s.menu
  {
  }

  lemma EnterTakesFound(s: State, host: Host)
    requires Valid(s) && s.search.Some?
    ensures var r := ApplyKey(s, Enter, host);
      r.search.None? && (if Found(s).Some? then TextOf(r) == Found(s).value else Snap(r) == Snap(s))
  {
    if Found(s).Some? {
      LoadedIs(s, Found(s).value);
    }
  }

  /** In any state a run reaches: Enter closes the search and takes an entry that contains the query, if there is
      one. */
  lemma EnterTakesAMatch(history: seq<string>, keys: seq<Key>, host: Host)
    ensures var s := ApplyKeys(NewState(history), keys, host);
      s.search.Some? ==>
        var r, query := ApplyKey(s, Enter, host), s.search.value.query;
        && r.search.None?
        && (if exists e :: e in s.history && Matches(host, e, query)
            then TextOf(r) in s.history && Matches(host, TextOf(r), query)
            else Snap(r) == Snap(s))
  {
    var s := ApplyKeys(NewState(history), keys, host);
    if s.search.Some? {
      SearchIsExact(history, keys, host);
      EnterTakesFound(s, host);
      var search := s.search.value;
      if search.matches != [] {
        assert search.matches[search.at] in search.matches;
        assert Matches(host, s.history[search.matches[search.at]], search.query);
      } else {
        forall e | e in s.history
          ensures !Matches(host, e, search.query)
        {
          var i: nat :| i < |s.history| && s.history[i] == e;
          assert i !in search.matches;
        }
      }
    }
  }

  // ---------------------------------------------------------------- the end of a read

  /** How a key ends the read, if it does. */
  function Ending(s: State, key: Key): Option<Outcome>
    requires Valid(s)
  {
    if s.search.Some? then None
    else if key.Enter? && s.menu == [] then Some(Line(TextOf(s)))
    else if key.Cancel? then Some(Cancelled)
    else if key.Eof? && TextOf(s) == "" then Some(EndOfInput)
    else None
  }

  lemma QuietKeyEnds(s: State, key: Key, host: Host)
    requires Valid(s) && s.done.None? && s.search.None? && !MenuTakes(s, key) && !EditsLines(key)
    ensures ApplyInBuffer(s, key, host).done == Ending(s, key)
  {
  }

  /** A read ends by Enter without a menu, by Ctrl-C, or by Ctrl-D on an empty buffer, and never while searching. */
  lemma ReadEndsExactly(s: State, key: Key, host: Host)
    requires Valid(s) && s.done.None?
    ensures ApplyKey(s, key, host).done == Ending(s, key)
  {
    if s.search.None? && !MenuTakes(s, key) {
      if EditsLines(key) {
        EditsDoNotFinish(s, key, host);
      } else {
        QuietKeyEnds(s, key, host);
      }
    }
  }
}
