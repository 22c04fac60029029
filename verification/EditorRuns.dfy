/** What holds over whole runs of the editor: clean lines, kills and yanks, undo, history, search. */
module EditorRuns {
  import opened Strings
  import opened Lines
  import opened EditorState
  import opened FlatBuffer

  // ---------------------------------------------------------------- clean lines

  lemma TextKeepsClean(s: State, text: string)
    requires Valid(s) && CleanState(s)
    ensures CleanState(ApplyText(s, text))
  {
    var line, parts := LineOf(s), Split(text);
    var head, tail := line[..s.col], line[s.col..];
    var t := ApplyText(s, text);
    if |parts| > 1 {
      var ins := Inserted(head, parts, tail);
      assert Clean(ins) by {
        forall k | 0 <= k < |ins| ensures NL !in ins[k] {
          assert k == 0 ==> ins[k] == head + parts[0];
          assert k == |parts| - 1 ==> ins[k] == Last(parts) + tail;
          assert 0 < k < |parts| - 1 ==> ins[k] == parts[k];
        }
      }
    }
    RememberKeepsClean(s, t);
  }

  lemma RememberKeepsClean(s: State, t: State)
    requires Valid(s) && CleanState(s)
    requires Clean(t.lines) && NL !in t.killRing && Clean(t.menu)
    requires t.undo == LastN(s.undo + [Snap(s)], MAX_UNDO) && t.redo == []
    ensures CleanState(t)
  {
    forall k | 0 <= k < |t.undo| ensures Clean(t.undo[k].lines) {
      var all := s.undo + [Snap(s)];
      assert t.undo[k] == all[|all| - |t.undo| + k];
    }
  }

  lemma EditKeepsClean(s: State)
    requires Valid(s) && CleanState(s)
    ensures CleanState(ApplyNewline(s))
    ensures CleanState(ApplyDelete(s))
    ensures CleanState(ApplyUp(s))
    ensures CleanState(ApplyDown(s))
  {
  }

  lemma BackspaceKeepsClean(s: State)
    requires Valid(s) && CleanState(s)
    ensures CleanState(ApplyBackspace(s))
  {
    var t := ApplyBackspace(s);
    if t != s {
      assert Clean(t.lines);
      RememberKeepsClean(s, t);
    }
  }

  lemma KillKeepsClean(s: State, from: nat, to: nat)
    requires Valid(s) && CleanState(s) && from <= to <= |LineOf(s)|
    ensures CleanState(ApplyKill(s, from, to))
  {
    RememberKeepsClean(s, ApplyKill(s, from, to));
  }

  lemma KillKeyKeepsClean(s: State, key: Key, host: Host)
    requires Valid(s) && CleanState(s) && s.search.None?
    requires key.KillToEnd? || key.KillToStart? || key.KillWord?
    ensures CleanState(ApplyInBuffer(s, key, host))
  {
    var line := LineOf(s);
    if key.KillToEnd? {
      KillKeepsClean(s, s.col, |line|);
    } else if key.KillToStart? {
      KillKeepsClean(s, 0, s.col);
    } else {
      KillKeepsClean(s, WordStart(line, s.col), s.col);
    }
  }

  lemma YankKeepsClean(s: State)
    requires Valid(s) && CleanState(s)
    ensures CleanState(ApplyYank(s))
  {
    var t := ApplyYank(s);
    if t != s {
      RememberKeepsClean(s, t);
    }
  }

  lemma UndoKeepsClean(s: State)
    requires Valid(s) && CleanState(s)
    ensures CleanState(ApplyUndo(s)) && CleanState(ApplyRedo(s))
  {
    assert s.undo != [] ==> Clean(Last(s.undo).lines);
    assert s.redo != [] ==> Clean(Last(s.redo).lines);
  }

  lemma CompletionKeepsClean(s: State, picked: string)
    requires Valid(s) && CleanState(s) && NL !in picked
    ensures CleanState(Complete(s, picked))
  {
  }

  lemma SearchKeepsClean(s: State, key: Key, host: Host)
    requires Valid(s) && CleanState(s) && s.search.Some?
    ensures CleanState(ApplyInSearch(s, key, host))
  {
    var r := ApplyInSearch(s, key, host);
    assert r.menu == s.menu && r.undo == s.undo && r.redo == s.redo && r.killRing == s.killRing;
    assert Clean(r.lines);
  }

  lemma MenuKeepsClean(s: State, key: Key)
    requires Valid(s) && CleanState(s) && MenuTakes(s, key)
    ensures CleanState(ApplyInMenu(s, key))
  {
    CompletionKeepsClean(s, s.menu[s.menuAt]);
  }

  lemma TabKeepsClean(s: State, host: Host)
    requires Valid(s) && CleanState(s) && CleanHost(host)
    ensures CleanState(ApplyTab(s, host))
  {
    var candidates := host.complete(TextOf(s));
    assert Clean(candidates);
    if |candidates| == 1 {
      CompletionKeepsClean(s, candidates[0]);
    }
  }

  lemma QuietKeyKeepsClean(s: State, key: Key, host: Host)
    requires Valid(s) && CleanState(s) && s.search.None? && !EditsLines(key)
    ensures CleanState(ApplyInBuffer(s, key, host))
  {
    var r := ApplyInBuffer(s, key, host);
    assert r.lines == s.lines && r.undo == s.undo && r.redo == s.redo && r.killRing == s.killRing;
  }

  predicate EditsLines(key: Key) {
    || key.Text? || key.Newline? || key.Backspace? || key.Delete? || key.KillToEnd? || key.KillToStart? || key.KillWord?
    || key.Yank? || key.Up? || key.Down? || key.Undo? || key.Redo? || key.Tab?
  }

  lemma EditingKeyKeepsClean(s: State, key: Key, host: Host)
    requires Valid(s) && CleanState(s) && CleanHost(host) && s.search.None? && EditsLines(key)
    ensures CleanState(ApplyInBuffer(s, key, host))
  {
    if key.KillToEnd? || key.KillToStart? || key.KillWord? {
      KillKeyKeepsClean(s, key, host);
    } else if key.Text? || key.Newline? || key.Delete? || key.Up? || key.Down? {
      TypingKeepsClean(s, key, host);
    } else {
      OtherEditKeepsClean(s, key, host);
    }
  }

  lemma TypingKeepsClean(s: State, key: Key, host: Host)
    requires Valid(s) && CleanState(s) && s.search.None?
    requires key.Text? || key.Newline? || key.Delete? || key.Up? || key.Down?
    ensures CleanState(ApplyInBuffer(s, key, host))
  {
    if key.Text? {
      TextKeepsClean(s, key.text);
    } else {
      EditKeepsClean(s);
    }
  }

  lemma OtherEditKeepsClean(s: State, key: Key, host: Host)
    requires Valid(s) && CleanState(s) && CleanHost(host) && s.search.None?
    requires key.Backspace? || key.Yank? || key.Undo? || key.Redo? || key.Tab?
    ensures CleanState(ApplyInBuffer(s, key, host))
  {
    if key.Backspace? {
      BackspaceKeepsClean(s);
    } else if key.Yank? {
      YankKeepsClean(s);
    } else if key.Undo? || key.Redo? {
      UndoKeepsClean(s);
    } else {
      TabKeepsClean(s, host);
    }
  }

  /** Every key, from every mode, keeps newlines out of lines, kill ring, menu and snapshots. */
  lemma KeyKeepsClean(s: State, key: Key, host: Host)
    requires Valid(s) && CleanState(s) && CleanHost(host)
    ensures CleanState(ApplyKey(s, key, host))
  {
    if s.search.Some? {
      SearchKeepsClean(s, key, host);
    } else if MenuTakes(s, key) {
      MenuKeepsClean(s, key);
    } else if EditsLines(key) {
      EditingKeyKeepsClean(s, key, host);
    } else {
      QuietKeyKeepsClean(s, key, host);
    }
  }

  /** From an empty prompt every reachable state is valid and clean. */
  lemma {:induction false} RunKeepsClean(s: State, keys: seq<Key>, host: Host)
    requires Valid(s) && CleanState(s) && CleanHost(host)
    ensures CleanState(ApplyKeys(s, keys, host))
    decreases |keys|
  {
    if keys != [] {
      KeyKeepsClean(s, keys[0], host);
      RunKeepsClean(ApplyKey(s, keys[0], host), keys[1..], host);
    }
  }

  // ---------------------------------------------------------------- kill and yank

  lemma KillToEndReturns(f: Flat, ring: string)
    ensures var g := FlatStep(f, KillToEnd, ring);
      g.before + FlatRing(f, KillToEnd, ring) + g.after == f.before + f.after
  {
    HeadIsPrefix(f.after);
    CutOnReturns(f, |LineHead(f)|);
  }

  lemma KillToStartReturns(f: Flat, ring: string)
    ensures var g := FlatStep(f, KillToStart, ring);
      g.before + FlatRing(f, KillToStart, ring) + g.after == f.before + f.after
  {
    TailIsSuffix(f.before);
    CutBackReturns(f, |LineTail(f)|);
  }

  lemma KillWordReturns(f: Flat, ring: string)
    ensures var g := FlatStep(f, KillWord, ring);
      g.before + FlatRing(f, KillWord, ring) + g.after == f.before + f.after
  {
    CutBackReturns(f, WordBack(f));
  }

  /** Any kill followed by a yank gives the text back. */
  lemma KillThenYank(s: State, key: Key, host: Host)
    requires Valid(s) && CleanState(s) && s.search.None?
    requires key in {KillToEnd, KillToStart, KillWord}
    ensures TextOf(ApplyKeys(s, [key, Yank], host)) == TextOf(s)
  {
    var f, t := FlatOf(s), ApplyKey(s, key, host);
    BufferKeyKeepsLinesClean(s, key, host);
    KeyRefinesFlat(s, key, host);
    YankAfter(t, host);
    assert [key, Yank][1..] == [Yank];
    FlatIsExact(s);
    if key == KillToEnd {
      KillToEndReturns(f, s.killRing);
    } else if key == KillToStart {
      KillToStartReturns(f, s.killRing);
    } else {
      KillWordReturns(f, s.killRing);
    }
  }

  lemma YankAfter(t: State, host: Host)
    requires Valid(t) && Clean(t.lines) && t.search.None?
    ensures TextOf(ApplyKeys(t, [Yank], host)) == FlatOf(t).before + t.killRing + FlatOf(t).after
  {
    KeyRefinesFlat(t, Yank, host);
    assert [Yank][1..] == [];
    FlatIsExact(ApplyKey(t, Yank, host));
  }

  lemma BufferKeyKeepsLinesClean(s: State, key: Key, host: Host)
    requires Valid(s) && CleanState(s) && s.search.None?
    requires key.KillToEnd? || key.KillToStart? || key.KillWord?
    ensures Clean(ApplyKey(s, key, host).lines) && ApplyKey(s, key, host).search.None?
  {
    KillKeyKeepsClean(s, key, host);
  }

  lemma CutOnReturns(f: Flat, n: nat)
    requires n <= |f.after|
    ensures CutOn(f, n).before + f.after[..n] + CutOn(f, n).after == f.before + f.after
  {
    assert f.after == f.after[..n] + f.after[n..];
  }

  lemma CutBackReturns(f: Flat, n: nat)
    requires n <= |f.before|
    ensures CutBack(f, n).before + f.before[|f.before| - n..] + CutBack(f, n).after == f.before + f.after
  {
    assert f.before == f.before[..|f.before| - n] + f.before[|f.before| - n..];
  }

  // ---------------------------------------------------------------- typing in pieces

  /** Inserting a text in two pieces leaves the buffer inserting it at once leaves. */
  lemma TextInPieces(s: State, a: string, b: string)
    requires Valid(s) && CleanState(s)
    ensures Snap(ApplyText(ApplyText(s, a), b)) == Snap(ApplyText(s, a + b))
    ensures CleanState(ApplyText(s, a))
  {
    TextKeepsClean(s, a);
    TextKeepsClean(ApplyText(s, a), b);
    TextKeepsClean(s, a + b);
    TextRefines(s, a);
    TextRefines(ApplyText(s, a), b);
    TextRefines(s, a + b);
    assert FlatOf(s).before + (a + b) == FlatOf(s).before + a + b;
    FlatDetermines(ApplyText(ApplyText(s, a), b), ApplyText(s, a + b));
  }

  // ---------------------------------------------------------------- undo and redo

  /** The keys that leave a snapshot behind. Newline, delete, completion and history do not. */
  predicate Remembers(s: State, key: Key) {
    match key
    case Text(_) => true
    case Backspace => s.col > 0 || s.row > 0
    case KillToEnd => true
    case KillToStart => true
    case KillWord => true
    case Yank => s.killRing != ""
    case _ => false
  }

  /** What a key does to the two stacks. */
  ghost predicate StacksAfter(s: State, key: Key, r: State) {
    && r.undo == (if Remembers(s, key) then LastN(s.undo + [Snap(s)], MAX_UNDO) else s.undo)
    && r.redo == (if Remembers(s, key) then [] else s.redo)
  }

  lemma EditAndStacks(s: State, key: Key, host: Host)
    requires Valid(s) && s.search.None? && !key.Undo? && !key.Redo? && EditsLines(key)
    ensures StacksAfter(s, key, ApplyInBuffer(s, key, host))
  {
  }

  lemma QuietAndStacks(s: State, key: Key, host: Host)
    requires Valid(s) && s.search.None? && !EditsLines(key)
    ensures StacksAfter(s, key, ApplyInBuffer(s, key, host))
  {
  }

  lemma KeyAndStacks(s: State, key: Key, host: Host)
    requires Valid(s) && s.search.None? && !key.Undo? && !key.Redo?
    ensures StacksAfter(s, key, ApplyKey(s, key, host))
  {
    if MenuTakes(s, key) {
      assert StacksAfter(s, key, ApplyInMenu(s, key));
    } else if EditsLines(key) {
      EditAndStacks(s, key, host);
    } else {
      QuietAndStacks(s, key, host);
    }
  }

  /** With a search open only Enter changes the buffer, and it leaves no snapshot. */
  lemma SearchLeavesStacks(s: State, key: Key, host: Host)
    requires Valid(s) && s.search.Some? && Snap(ApplyKey(s, key, host)) != Snap(s)
    ensures key.Enter? && ApplyKey(s, key, host).search.None? && ApplyKey(s, key, host).undo == s.undo
  {
  }

  /**
   * Ctrl-Z right after a key that changed the buffer brings the old buffer back exactly when that
   * key left a snapshot, or when the newest snapshot already held the old buffer. No key leaves one
   * while a search is open.
   */
  lemma UndoTakesBack(s: State, key: Key, host: Host)
    requires Valid(s) && !key.Undo? && !key.Redo?
    requires Snap(ApplyKey(s, key, host)) != Snap(s)
    ensures var r := ApplyKey(s, key, host);
      && r.search.None?
      && (Snap(ApplyKey(r, Undo, host)) == Snap(s) <==>
          (s.search.None? && Remembers(s, key)) || (s.undo != [] && Last(s.undo) == Snap(s)))
  {
    if s.search.None? {
      KeyAndStacks(s, key, host);
      ChangeClosesNoSearch(s, key, host);
    } else {
      SearchLeavesStacks(s, key, host);
    }
    UndoPops(ApplyKey(s, key, host), host);
  }

  lemma ChangeClosesNoSearch(s: State, key: Key, host: Host)
    requires Valid(s) && s.search.None? && Snap(ApplyKey(s, key, host)) != Snap(s)
    ensures ApplyKey(s, key, host).search.None?
  {
    if !MenuTakes(s, key) {
      if EditsLines(key) {
        EditOpensNoSearch(s, key, host);
      } else {
        OnlySearchOpensSearch(s, key, host);
      }
    }
  }

  lemma UndoPops(s: State, host: Host)
    requires Valid(s) && s.search.None?
    ensures ApplyKey(s, Undo, host) == ApplyUndo(s)
    ensures Snap(ApplyUndo(s)) == if s.undo == [] then Snap(s) else Last(s.undo)
  {
    assert s.undo != [] ==> InText(Last(s.undo).lines, Last(s.undo).row, Last(s.undo).col);
  }

  /** Ctrl-Z after a plain newline on a fresh prompt does nothing: the edit left no snapshot. */
  lemma NewlineIsNotTakenBack(history: seq<string>, host: Host)
    ensures var s := NewState(history);
      TextOf(ApplyKeys(s, [Newline, Undo], host)) == [NL] != TextOf(s)
  {
    var s := NewState(history);
    var r := ApplyKey(s, Newline, host);
    assert r.lines == ["", ""];
    assert [Newline, Undo][1..] == [Undo];
    assert ApplyKeys(s, [Newline, Undo], host) == ApplyKeys(r, [Undo], host) == r;
    assert Join(["", ""][1..]) == "";
  }

  lemma RedoAfterUndo(s: State)
    requires Valid(s) && s.undo != []
    ensures ApplyRedo(ApplyUndo(s)) == s.(menu := [], menuAt := 0)
  {
    var u := ApplyUndo(s);
    assert InText(Last(s.undo).lines, Last(s.undo).row, Last(s.undo).col);
    assert Snap(u) == Last(s.undo);
    assert Last(u.redo) == Snap(s) && Init(u.redo) == s.redo;
    assert Init(s.undo) + [Last(s.undo)] == s.undo;
  }

  lemma UndoAfterRedo(s: State)
    requires Valid(s) && s.redo != []
    ensures ApplyUndo(ApplyRedo(s)) == s.(menu := [], menuAt := 0)
  {
    var r := ApplyRedo(s);
    assert InText(Last(s.redo).lines, Last(s.redo).row, Last(s.redo).col);
    assert Snap(r) == Last(s.redo);
    assert Last(r.undo) == Snap(s) && Init(r.undo) == s.undo;
    assert Init(s.redo) + [Last(s.redo)] == s.redo;
  }

  function Times(key: Key, k: nat): (keys: seq<Key>)
    ensures |keys| == k
  {
    seq(k, _ => key)
  }

  /** Two runs, then one more key. */
  lemma OuterKeys(s: State, first: Key, inner: seq<Key>, last: Key, host: Host)
    requires Valid(s)
    ensures ApplyKeys(s, [first] + inner + [last], host)
         == ApplyKey(ApplyKeys(ApplyKey(s, first, host), inner, host), last, host)
  {
    assert [first] + inner + [last] == [first] + (inner + [last]);
    assert ([first] + (inner + [last]))[1..] == inner + [last];
    var t := ApplyKey(s, first, host);
    ApplyKeysConcat(t, inner, [last], host);
    assert [last][1..] == [];
  }

  lemma TimesUnrolled(a: Key, b: Key, k: nat)
    requires k > 0
    ensures Times(a, k) + Times(b, k) == [a] + (Times(a, k - 1) + Times(b, k - 1)) + [b]
  {
  }

  /** `k` undos followed by `k` redos change nothing but close the menu. */
  lemma {:induction false} UndosThenRedos(s: State, k: nat, host: Host)
    requires Valid(s) && s.search.None? && 0 < k <= |s.undo|
    ensures ApplyKeys(s, Times(Undo, k) + Times(Redo, k), host) == s.(menu := [], menuAt := 0)
    decreases k, 0
  {
    var inner := Times(Undo, k - 1) + Times(Redo, k - 1);
    TimesUnrolled(Undo, Redo, k);
    OuterKeys(s, Undo, inner, Redo, host);
    UndoPops(s, host);
    RedoAfterUndo(s);
    InnerUndosThenRedos(ApplyUndo(s), k - 1, host);
  }

  lemma {:induction false} InnerUndosThenRedos(u: State, k: nat, host: Host)
    requires Valid(u) && u.search.None? && k <= |u.undo| && u.menu == [] && u.menuAt == 0
    ensures ApplyKeys(u, Times(Undo, k) + Times(Redo, k), host) == u
    decreases k, 1
  {
    if k > 0 {
      UndosThenRedos(u, k, host);
    } else {
      assert Times(Undo, 0) + Times(Redo, 0) == [];
    }
  }

  /** The snapshots a run of keys leaves, oldest first. */
  function Trail(s: State, keys: seq<Key>, host: Host): (trail: seq<Snapshot>)
    requires Valid(s)
    decreases |keys|
  {
    if keys == [] then []
    else
      var rest := Trail(ApplyKey(s, keys[0], host), keys[1..], host);
      if Remembers(s, keys[0]) then [Snap(s)] + rest else rest
  }

  /** Motions and the edits Ctrl-Z knows about. */
  predicate IsUndoableKey(key: Key) {
    || key.Text? || key.Backspace? || key.KillToEnd? || key.KillToStart? || key.KillWord? || key.Yank?
    || key.Left? || key.Right? || key.Home? || key.End? || key.WordLeft? || key.WordRight?
  }

  lemma LastNTwice<T>(xs: seq<T>, x: T, ys: seq<T>, n: nat)
    ensures LastN(LastN(xs + [x], n) + ys, n) == LastN(xs + ([x] + ys), n)
  {
    assert xs + [x] + ys == xs + ([x] + ys);
    var all := xs + [x] + ys;
    var kept := LastN(xs + [x], n) + ys;
    assert kept == all[|all| - |kept|..];
  }

  /** After a run of such keys the undo stack ends in exactly the run's trail. */
  lemma {:induction false} RunLeavesTrail(s: State, keys: seq<Key>, host: Host)
    requires Valid(s) && s.search.None?
    requires forall k :: 0 <= k < |keys| ==> IsUndoableKey(keys[k])
    ensures ApplyKeys(s, keys, host).search.None?
    ensures ApplyKeys(s, keys, host).undo == LastN(s.undo + Trail(s, keys, host), MAX_UNDO)
    ensures Trail(s, keys, host) != [] ==> Trail(s, keys, host)[0].lines == s.lines
    ensures Trail(s, keys, host) == [] ==> ApplyKeys(s, keys, host).lines == s.lines
    decreases |keys|
  {
    if keys == [] {
      assert s.undo + [] == s.undo;
    } else {
      assert IsUndoableKey(keys[0]);
      KeyAndStacks(s, keys[0], host);
      SteadyKey(s, keys[0], host);
      RunLeavesTrailFrom(s, ApplyKey(s, keys[0], host), keys, host);
    }
  }

  lemma {:induction false} RunLeavesTrailFrom(s: State, t: State, keys: seq<Key>, host: Host)
    requires Valid(s) && Valid(t) && t.search.None? && keys != [] && t == ApplyKey(s, keys[0], host)
    requires forall k :: 0 <= k < |keys| ==> IsUndoableKey(keys[k])
    requires t.undo == if Remembers(s, keys[0]) then LastN(s.undo + [Snap(s)], MAX_UNDO) else s.undo
    requires !Remembers(s, keys[0]) ==> t.lines == s.lines
    ensures ApplyKeys(s, keys, host).search.None?
    ensures ApplyKeys(s, keys, host).undo == LastN(s.undo + Trail(s, keys, host), MAX_UNDO)
    ensures Trail(s, keys, host) != [] ==> Trail(s, keys, host)[0].lines == s.lines
    ensures Trail(s, keys, host) == [] ==> ApplyKeys(s, keys, host).lines == s.lines
    decreases |keys|, 0
  {
    RunLeavesTrail(t, keys[1..], host);
    var rest := Trail(t, keys[1..], host);
    if Remembers(s, keys[0]) {
      LastNTwice(s.undo, Snap(s), rest, MAX_UNDO);
    }
  }

  lemma SteadyKey(s: State, key: Key, host: Host)
    requires Valid(s) && s.search.None? && IsUndoableKey(key)
    ensures ApplyKey(s, key, host).search.None?
    ensures !Remembers(s, key) ==> ApplyKey(s, key, host).lines == s.lines
  {
  }

  lemma {:induction false} UndosPop(s: State, k: nat, host: Host)
    requires Valid(s) && s.search.None? && 0 < k <= |s.undo|
    ensures Snap(ApplyKeys(s, Times(Undo, k), host)) == s.undo[|s.undo| - k]
    decreases k
  {
    var u := ApplyUndo(s);
    UndoPops(s, host);
    assert u.search.None? && u.undo == Init(s.undo);
    assert Times(Undo, k)[1..] == Times(Undo, k - 1);
    if k > 1 {
      UndosPop(u, k - 1, host);
    }
  }

  /**
   * A run of motions and remembered edits is taken back whole: as many undos as it left snapshots,
   * up to the bound of the stack, give the lines it started from.
   */
  lemma RunIsTakenBack(s: State, keys: seq<Key>, host: Host)
    requires Valid(s) && s.search.None?
    requires forall k :: 0 <= k < |keys| ==> IsUndoableKey(keys[k])
    requires |Trail(s, keys, host)| <= MAX_UNDO
    ensures ApplyKeys(s, keys + Times(Undo, |Trail(s, keys, host)|), host).lines == s.lines
  {
    var r := ApplyKeys(s, keys, host);
    var trail := Trail(s, keys, host);
    RunLeavesTrail(s, keys, host);
    ApplyKeysConcat(s, keys, Times(Undo, |trail|), host);
    if trail != [] {
      UndosPop(r, |trail|, host);
      assert r.undo[|r.undo| - |trail|] == trail[0];
    } else {
      assert Times(Undo, 0) == [];
    }
  }

  // ---------------------------------------------------------------- history

  predicate IsNavigation(key: Key) {
    key.Up? || key.Down? || key.Left? || key.Right? || key.Home? || key.End? || key.WordLeft? || key.WordRight?
  }

  /** `text` is on screen at the typing position, and in the draft anywhere else in history. */
  ghost predicate Keeps(s: State, text: string) {
    && Valid(s) && s.search.None? && s.menu == []
    && (if s.historyAt == |s.history| then TextOf(s) == text else s.draft == Some(text))
  }

  lemma NavigationKeeps(s: State, key: Key, text: string, host: Host)
    requires Keeps(s, text) && IsNavigation(key)
    ensures Keeps(ApplyKey(s, key, host), text)
    ensures ApplyKey(s, key, host).history == s.history
  {
    if key.Up? && s.row == 0 && s.historyAt > 0 {
      JoinSplit(s.history[s.historyAt - 1]);
    } else if key.Down? && s.row == |s.lines| - 1 && s.historyAt + 1 == |s.history| {
      JoinSplit(text);
    }
  }

  lemma {:induction false} NavigationRunKeeps(s: State, keys: seq<Key>, text: string, host: Host)
    requires Keeps(s, text)
    requires forall k :: 0 <= k < |keys| ==> IsNavigation(keys[k])
    ensures Keeps(ApplyKeys(s, keys, host), text)
    ensures ApplyKeys(s, keys, host).history == s.history
    decreases |keys|
  {
    if keys != [] {
      assert IsNavigation(keys[0]);
      NavigationKeeps(s, keys[0], text, host);
      NavigationRunKeeps(ApplyKey(s, keys[0], host), keys[1..], text, host);
    }
  }

  lemma NavigationKeepsClean(s: State, key: Key, host: Host)
    requires Valid(s) && Clean(s.lines) && s.search.None? && s.menu == [] && IsNavigation(key)
    ensures Clean(ApplyKey(s, key, host).lines)
  {
  }

  lemma {:induction false} NavigationRunKeepsClean(s: State, keys: seq<Key>, text: string, host: Host)
    requires Keeps(s, text) && Clean(s.lines)
    requires forall k :: 0 <= k < |keys| ==> IsNavigation(keys[k])
    ensures Clean(ApplyKeys(s, keys, host).lines)
    decreases |keys|
  {
    if keys != [] {
      assert IsNavigation(keys[0]);
      NavigationKeeps(s, keys[0], text, host);
      NavigationKeepsClean(s, keys[0], host);
      NavigationRunKeepsClean(ApplyKey(s, keys[0], host), keys[1..], text, host);
    }
  }

  /** Walking history in any way and coming back to the typing position restores what was typed. */
  lemma HistoryRoundTrip(s: State, keys: seq<Key>, host: Host)
    requires Valid(s) && Clean(s.lines) && s.search.None? && s.menu == []
    requires s.historyAt == |s.history|
    requires forall k :: 0 <= k < |keys| ==> IsNavigation(keys[k])
    ensures ApplyKeys(s, keys, host).historyAt == |s.history| ==> ApplyKeys(s, keys, host).lines == s.lines
  {
    NavigationRunKeeps(s, keys, TextOf(s), host);
    NavigationRunKeepsClean(s, keys, TextOf(s), host);
    SplitJoin(s.lines);
    SplitJoin(ApplyKeys(s, keys, host).lines);
  }

  // ---------------------------------------------------------------- reverse search

  /** The matches on offer are those of the query shown, all of them, newest first. */
  ghost predicate SearchExact(s: State, host: Host) {
    s.search.Some? ==> s.search.value.matches == MatchesBelow(host, s.history, s.search.value.query, |s.history|)
  }

  lemma SearchKeyKeepsExact(s: State, key: Key, host: Host)
    requires Valid(s) && SearchExact(s, host) && s.search.Some?
    ensures SearchExact(ApplyInSearch(s, key, host), host)
    ensures !key.Enter? ==> Snap(ApplyInSearch(s, key, host)) == Snap(s)
  {
  }

  lemma EditOpensNoSearch(s: State, key: Key, host: Host)
    requires Valid(s) && s.search.None? && EditsLines(key)
    ensures ApplyInBuffer(s, key, host).search.None?
  {
  }

  lemma OnlySearchOpensSearch(s: State, key: Key, host: Host)
    requires Valid(s) && s.search.None? && !EditsLines(key)
    ensures ApplyInBuffer(s, key, host).search == if key.Search? then Some(StartSearch(host, s.history, "")) else None
    ensures ApplyInBuffer(s, key, host).history == s.history
  {
  }

  /** Searching shows the matches of the query it shows, and leaves the buffer alone until Enter. */
  lemma KeyKeepsSearchExact(s: State, key: Key, host: Host)
    requires Valid(s) && SearchExact(s, host)
    ensures SearchExact(ApplyKey(s, key, host), host)
    ensures s.search.Some? && !key.Enter? ==> Snap(ApplyKey(s, key, host)) == Snap(s)
  {
    if s.search.Some? {
      SearchKeyKeepsExact(s, key, host);
    } else if MenuTakes(s, key) {
      assert ApplyInMenu(s, key).search.None?;
    } else if EditsLines(key) {
      EditOpensNoSearch(s, key, host);
    } else {
      OnlySearchOpensSearch(s, key, host);
    }
  }

  /**
   * In every state a run reaches while searching, the matches are exactly the entries containing
   * the query, strictly newest first, and the selection is one of them whenever there is one.
   */
  lemma {:induction false} SearchIsExact(history: seq<string>, keys: seq<Key>, host: Host)
    ensures var s := ApplyKeys(NewState(history), keys, host);
      s.search.Some? ==>
        var search := s.search.value;
        && (forall i: nat :: i in search.matches <==> i < |s.history| && Matches(host, s.history[i], search.query))
        && (forall j, k :: 0 <= j < k < |search.matches| ==> search.matches[j] > search.matches[k])
        && (search.matches != [] ==> search.at < |search.matches|)
  {
    RunKeepsSearchExact(NewState(history), keys, host);
  }

  lemma {:induction false} RunKeepsSearchExact(s: State, keys: seq<Key>, host: Host)
    requires Valid(s) && SearchExact(s, host)
    ensures SearchExact(ApplyKeys(s, keys, host), host)
    decreases |keys|
  {
    if keys != [] {
      KeyKeepsSearchExact(s, keys[0], host);
      RunKeepsSearchExact(ApplyKey(s, keys[0], host), keys[1..], host);
    }
  }
}
