/**
 * What keeps control characters out of the editor's state: a pasted text reaches the buffer as it is
 * (src/cli/editor.ts), so nothing but what is typed, remembered and offered decides.
 */
module QuietRuns {
  import opened Lines
  import opened EditorState
  import opened EditorRuns

  ghost predicate QuietSnapshots(stack: seq<Snapshot>) {
    forall k :: 0 <= k < |stack| ==> AllQuiet(stack[k].lines)
  }

  /** No control character in what is drawn or can come back to be drawn, line breaks in history apart. */
  ghost predicate QuietState(s: State) {
    && AllQuiet(s.lines) && Quiet(s.killRing) && AllQuiet(s.menu)
    && QuietSnapshots(s.undo) && QuietSnapshots(s.redo)
    && AllTame(s.history) && (s.draft.Some? ==> Tame(s.draft.value))
  }

  ghost predicate QuietHost(host: Host) {
    forall text :: AllQuiet(host.complete(text))
  }

  /** What a key types holds no control character but line breaks. */
  predicate TameKey(key: Key) {
    key.Text? ==> Tame(key.text)
  }

  predicate TameKeys(keys: seq<Key>) {
    forall k :: 0 <= k < |keys| ==> TameKey(keys[k])
  }

  // ---------------------------------------------------------------- texts

  lemma QuietConcat(a: string, b: string)
    ensures Quiet(a + b) <==> Quiet(a) && Quiet(b)
  {
    if Quiet(a + b) {
      assert forall k :: 0 <= k < |a| ==> (a + b)[k] == a[k];
      assert forall k :: 0 <= k < |b| ==> (a + b)[|a| + k] == b[k];
    }
  }

  /** The lines of a tame text are quiet. */
  lemma {:induction false} SplitIsQuiet(text: string)
    requires Tame(text)
    ensures AllQuiet(Split(text))
  {
    if text != "" {
      assert forall k :: 0 <= k < |text| - 1 ==> text[1..][k] == text[k + 1];
      SplitIsQuiet(text[1..]);
      FrontIsQuiet(text[0], Split(text[1..]));
    }
  }

  lemma FrontIsQuiet(c: char, lines: seq<string>)
    requires lines != [] && AllQuiet(lines) && (!IsControl(c) || c == NL)
    ensures AllQuiet(PushFront(c, lines))
  {
    if c != NL {
      QuietConcat([c], lines[0]);
      assert Quiet([c] + lines[0]);
    }
  }

  /** Quiet lines joined are a tame text. */
  lemma {:induction false} JoinIsTame(lines: seq<string>)
    requires lines != [] && AllQuiet(lines)
    ensures Tame(Join(lines))
  {
    if |lines| > 1 {
      assert forall k :: 0 <= k < |lines| - 1 ==> lines[1..][k] == lines[k + 1];
      JoinIsTame(lines[1..]);
    }
  }

  // ---------------------------------------------------------------- the buffer's lines

  lemma QuietSlices(line: string, from: nat, to: nat)
    requires Quiet(line) && from <= |line| && to <= |line|
    ensures Quiet(line[..from]) && Quiet(line[to..])
  {
  }

  /** The cursor's line replaced. */
  lemma OneLineReplaced(lines: seq<string>, row: nat, line: string)
    requires AllQuiet(lines) && row < |lines| && Quiet(line)
    ensures AllQuiet(lines[row := line])
  {
  }

  /** Some lines replaced by others. */
  lemma LinesReplaced(lines: seq<string>, from: nat, others: seq<string>, to: nat)
    requires AllQuiet(lines) && AllQuiet(others) && from <= |lines| && to <= |lines|
    ensures AllQuiet(lines[..from] + others + lines[to..])
  {
  }

  lemma PartsAreQuiet(line: string, from: nat, middle: string, to: nat)
    requires Quiet(line) && Quiet(middle) && from <= |line| && to <= |line|
    ensures Quiet(line[..from] + middle + line[to..])
  {
    QuietSlices(line, from, to);
    QuietConcat(line[..from], middle);
    QuietConcat(line[..from] + middle, line[to..]);
  }

  lemma InsertedIsQuiet(head: string, parts: seq<string>, tail: string)
    requires |parts| > 1 && Quiet(head) && AllQuiet(parts) && Quiet(tail)
    ensures AllQuiet(Inserted(head, parts, tail))
  {
    var ins := Inserted(head, parts, tail);
    QuietConcat(head, parts[0]);
    QuietConcat(Last(parts), tail);
    forall k | 0 <= k < |ins|
      ensures Quiet(ins[k])
    {
      assert k == 0 ==> ins[k] == head + parts[0];
      assert k == |parts| - 1 ==> ins[k] == Last(parts) + tail;
      assert 0 < k < |parts| - 1 ==> ins[k] == parts[k];
    }
  }

  // ---------------------------------------------------------------- one operation at a time

  /** What a remembered edit leaves apart from its own lines and kill. */
  lemma RememberKeepsQuiet(s: State, t: State)
    requires Valid(s) && QuietState(s)
    requires AllQuiet(t.lines) && Quiet(t.killRing) && AllQuiet(t.menu)
    requires t.undo == LastN(s.undo + [Snap(s)], MAX_UNDO) && t.redo == []
    requires t.history == s.history && t.draft == s.draft
    ensures QuietState(t)
  {
    forall k | 0 <= k < |t.undo|
      ensures AllQuiet(t.undo[k].lines)
    {
      var all := s.undo + [Snap(s)];
      assert t.undo[k] == all[|all| - |t.undo| + k];
    }
  }

  lemma TextKeepsQuiet(s: State, text: string)
    requires Valid(s) && QuietState(s) && Tame(text)
    ensures QuietState(ApplyText(s, text))
  {
    var line, parts := LineOf(s), Split(text);
    SplitIsQuiet(text);
    if |parts| == 1 {
      PartsAreQuiet(line, s.col, parts[0], s.col);
      OneLineReplaced(s.lines, s.row, line[..s.col] + parts[0] + line[s.col..]);
    } else {
      QuietSlices(line, s.col, s.col);
      InsertedIsQuiet(line[..s.col], parts, line[s.col..]);
      LinesReplaced(s.lines, s.row, Inserted(line[..s.col], parts, line[s.col..]), s.row + 1);
    }
    RememberKeepsQuiet(s, ApplyText(s, text));
  }

  lemma NewlineKeepsQuiet(s: State)
    requires Valid(s) && QuietState(s)
    ensures QuietState(ApplyNewline(s))
  {
    var line := LineOf(s);
    QuietSlices(line, s.col, s.col);
    LinesReplaced(s.lines, s.row, [line[..s.col], line[s.col..]], s.row + 1);
  }

  lemma BackspaceKeepsQuiet(s: State)
    requires Valid(s) && QuietState(s)
    ensures QuietState(ApplyBackspace(s))
  {
    var line := LineOf(s);
    if s.col > 0 {
      PartsAreQuiet(line, s.col - 1, "", s.col);
      assert line[..s.col - 1] + "" + line[s.col..] == line[..s.col - 1] + line[s.col..];
      OneLineReplaced(s.lines, s.row, line[..s.col - 1] + line[s.col..]);
      RememberKeepsQuiet(s, ApplyBackspace(s));
    } else if s.row > 0 {
      QuietConcat(s.lines[s.row - 1], line);
      LinesReplaced(s.lines, s.row - 1, [s.lines[s.row - 1] + line], s.row + 1);
      RememberKeepsQuiet(s, ApplyBackspace(s));
    }
  }

  lemma DeleteKeepsQuiet(s: State)
    requires Valid(s) && QuietState(s)
    ensures QuietState(ApplyDelete(s))
  {
    var line := LineOf(s);
    if s.col < |line| {
      PartsAreQuiet(line, s.col, "", s.col + 1);
      assert line[..s.col] + "" + line[s.col + 1..] == line[..s.col] + line[s.col + 1..];
      OneLineReplaced(s.lines, s.row, line[..s.col] + line[s.col + 1..]);
    } else if s.row < |s.lines| - 1 {
      QuietConcat(line, s.lines[s.row + 1]);
      LinesReplaced(s.lines, s.row, [line + s.lines[s.row + 1]], s.row + 2);
    }
  }

  lemma KillKeepsQuiet(s: State, from: nat, to: nat)
    requires Valid(s) && QuietState(s) && from <= to <= |LineOf(s)|
    ensures QuietState(ApplyKill(s, from, to))
  {
    var line := LineOf(s);
    QuietSlices(line, to, from);
    QuietSlices(line[..to], from, from);
    PartsAreQuiet(line, from, "", to);
    assert line[..from] + "" + line[to..] == line[..from] + line[to..];
    OneLineReplaced(s.lines, s.row, line[..from] + line[to..]);
    assert line[from..to] == line[..to][from..];
    RememberKeepsQuiet(s, ApplyKill(s, from, to));
  }

  lemma YankKeepsQuiet(s: State)
    requires Valid(s) && QuietState(s)
    ensures QuietState(ApplyYank(s))
  {
    if s.killRing != "" {
      PartsAreQuiet(LineOf(s), s.col, s.killRing, s.col);
      OneLineReplaced(s.lines, s.row, LineOf(s)[..s.col] + s.killRing + LineOf(s)[s.col..]);
      RememberKeepsQuiet(s, ApplyYank(s));
    }
  }

  lemma LoadKeepsQuiet(s: State, text: string)
    requires QuietState(s) && Tame(text)
    ensures QuietState(Load(s, text))
  {
    SplitIsQuiet(text);
  }

  lemma UpKeepsQuiet(s: State)
    requires Valid(s) && QuietState(s)
    ensures QuietState(ApplyUp(s))
  {
    if s.row == 0 && s.historyAt > 0 {
      JoinIsTame(s.lines);
      LoadKeepsQuiet(s, s.history[s.historyAt - 1]);
    }
  }

  lemma DownKeepsQuiet(s: State)
    requires Valid(s) && QuietState(s)
    ensures QuietState(ApplyDown(s))
  {
    if s.row == |s.lines| - 1 && s.historyAt < |s.history| {
      var at := s.historyAt + 1;
      LoadAtKeepsQuiet(s, if at == |s.history| then s.draft.value else s.history[at], at);
    }
  }

  lemma LoadAtKeepsQuiet(s: State, text: string, at: nat)
    requires QuietState(s) && Tame(text)
    ensures QuietState(Load(s, text).(historyAt := at))
  {
    LoadKeepsQuiet(s, text);
  }

  lemma CompletionKeepsQuiet(s: State, picked: string)
    requires Valid(s) && QuietState(s) && Quiet(picked)
    ensures QuietState(Complete(s, picked))
  {
    var line := LineOf(s);
    var start := TokenStart(line, s.col);
    PartsAreQuiet(line, start, picked, s.col);
    OneLineReplaced(s.lines, s.row, line[..start] + picked + line[s.col..]);
  }

  lemma TabKeepsQuiet(s: State, host: Host)
    requires Valid(s) && QuietState(s) && QuietHost(host)
    ensures QuietState(ApplyTab(s, host))
  {
    var candidates := host.complete(TextOf(s));
    assert AllQuiet(candidates);
    if |candidates| == 1 {
      CompletionKeepsQuiet(s, candidates[0]);
    }
  }

  lemma StackKeepsQuiet(stack: seq<Snapshot>, s: State)
    requires QuietSnapshots(stack) && AllQuiet(s.lines)
    ensures QuietSnapshots(LastN(stack + [Snap(s)], MAX_UNDO))
    ensures stack != [] ==> AllQuiet(Last(stack).lines) && QuietSnapshots(Init(stack))
  {
    var all := stack + [Snap(s)];
    var kept := LastN(all, MAX_UNDO);
    forall k | 0 <= k < |kept|
      ensures AllQuiet(kept[k].lines)
    {
      assert kept[k] == all[|all| - |kept| + k];
    }
  }

  lemma UndoKeepsQuiet(s: State)
    requires Valid(s) && QuietState(s)
    ensures QuietState(ApplyUndo(s)) && QuietState(ApplyRedo(s))
  {
    StackKeepsQuiet(s.undo, s);
    StackKeepsQuiet(s.redo, s);
  }

  // ---------------------------------------------------------------- every key

  lemma TypingKeepsQuiet(s: State, key: Key, host: Host)
    requires Valid(s) && QuietState(s) && TameKey(key) && s.search.None?
    requires key.Text? || key.Newline? || key.Backspace? || key.Delete? || key.Up? || key.Down?
    ensures QuietState(ApplyInBuffer(s, key, host))
  {
    if key.Text? {
      TextKeepsQuiet(s, key.text);
    } else if key.Newline? {
      NewlineKeepsQuiet(s);
    } else if key.Backspace? {
      BackspaceKeepsQuiet(s);
    } else if key.Delete? {
      DeleteKeepsQuiet(s);
    } else if key.Up? {
      UpKeepsQuiet(s);
    } else {
      DownKeepsQuiet(s);
    }
  }

  lemma KillKeyKeepsQuiet(s: State, key: Key, host: Host)
    requires Valid(s) && QuietState(s) && s.search.None?
    requires key.KillToEnd? || key.KillToStart? || key.KillWord?
    ensures QuietState(ApplyInBuffer(s, key, host))
  {
    var line := LineOf(s);
    if key.KillToEnd? {
      KillKeepsQuiet(s, s.col, |line|);
    } else if key.KillToStart? {
      KillKeepsQuiet(s, 0, s.col);
    } else {
      KillKeepsQuiet(s, WordStart(line, s.col), s.col);
    }
  }

  lemma OtherEditKeepsQuiet(s: State, key: Key, host: Host)
    requires Valid(s) && QuietState(s) && QuietHost(host) && s.search.None?
    requires key.Yank? || key.Undo? || key.Redo? || key.Tab?
    ensures QuietState(ApplyInBuffer(s, key, host))
  {
    if key.Yank? {
      YankKeepsQuiet(s);
    } else if key.Tab? {
      TabKeepsQuiet(s, host);
    } else {
      UndoKeepsQuiet(s);
    }
  }

  lemma IdleKeyKeepsQuiet(s: State, key: Key, host: Host)
    requires Valid(s) && QuietState(s) && s.search.None? && !EditsLines(key)
    ensures QuietState(ApplyInBuffer(s, key, host))
  {
    var r := ApplyInBuffer(s, key, host);
    assert r.lines == s.lines && r.undo == s.undo && r.redo == s.redo && r.killRing == s.killRing;
    assert r.history == s.history && r.draft == s.draft && (r.menu == s.menu || r.menu == []);
  }

  lemma BufferKeyKeepsQuiet(s: State, key: Key, host: Host)
    requires Valid(s) && QuietState(s) && QuietHost(host) && TameKey(key) && s.search.None?
    ensures QuietState(ApplyInBuffer(s, key, host))
  {
    if !EditsLines(key) {
      IdleKeyKeepsQuiet(s, key, host);
    } else if key.KillToEnd? || key.KillToStart? || key.KillWord? {
      KillKeyKeepsQuiet(s, key, host);
    } else if key.Yank? || key.Undo? || key.Redo? || key.Tab? {
      OtherEditKeepsQuiet(s, key, host);
    } else {
      TypingKeepsQuiet(s, key, host);
    }
  }

  lemma SearchKeepsQuiet(s: State, key: Key, host: Host)
    requires Valid(s) && QuietState(s) && s.search.Some?
    ensures QuietState(ApplyInSearch(s, key, host))
  {
    if key.Enter? && Found(s).Some? {
      LoadKeepsQuiet(s, Found(s).value);
    } else {
      var r := ApplyInSearch(s, key, host);
      assert r == s.(search := r.search);
    }
  }

  lemma MenuKeepsQuiet(s: State, key: Key)
    requires Valid(s) && QuietState(s) && MenuTakes(s, key)
    ensures QuietState(ApplyInMenu(s, key))
  {
    CompletionKeepsQuiet(s, s.menu[s.menuAt]);
  }

  /** No key brings a control character into the state that it does not itself type. */
  lemma KeyKeepsQuiet(s: State, key: Key, host: Host)
    requires Valid(s) && QuietState(s) && QuietHost(host) && TameKey(key)
    ensures QuietState(ApplyKey(s, key, host))
  {
    if s.search.Some? {
      SearchKeepsQuiet(s, key, host);
    } else if MenuTakes(s, key) {
      MenuKeepsQuiet(s, key);
    } else {
      BufferKeyKeepsQuiet(s, key, host);
    }
  }

  /** So no run of them does. */
  lemma {:induction false} RunKeepsQuiet(s: State, keys: seq<Key>, host: Host)
    requires Valid(s) && QuietState(s) && QuietHost(host) && TameKeys(keys)
    ensures QuietState(ApplyKeys(s, keys, host))
    decreases |keys|
  {
    if keys != [] {
      KeyKeepsQuiet(s, keys[0], host);
      assert forall k :: 0 <= k < |keys| - 1 ==> keys[1..][k] == keys[k + 1];
      RunKeepsQuiet(ApplyKey(s, keys[0], host), keys[1..], host);
    }
  }
}
