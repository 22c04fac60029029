/**
 * Reverse search from Ctrl-R to Enter: what is searched for is what was typed, and Enter takes the entry
 * that as many further Ctrl-Rs lead to (`applyKey` in src/cli/editor.ts).
 */
module SearchRuns {
  import opened Strings
  import opened Lines
  import opened EditorState
  import opened EditorRuns

  /** What is left of `query` after some typing: each text added, each Backspace taking one character. */
  function Typed(query: string, typing: seq<Key>): string
    decreases |typing|
  {
    if typing == [] then query
    else match typing[0]
      case Text(text) => Typed(query + text, typing[1..])
      case Backspace => Typed(if query == "" then "" else Init(query), typing[1..])
      case _ => Typed(query, typing[1..])
  }

  predicate IsTyping(typing: seq<Key>) {
    forall k :: 0 <= k < |typing| ==> typing[k].Text? || typing[k].Backspace?
  }

  /** A search just begun for `query`, over an untouched buffer. */
  function Searching(s: State, query: string, host: Host): (r: State)
    requires Valid(s)
    ensures Valid(r)
  {
    s.(search := Some(StartSearch(host, s.history, query)))
  }

  lemma {:induction false} TypingSearches(s: State, query: string, typing: seq<Key>, host: Host)
    requires Valid(s) && IsTyping(typing)
    ensures ApplyKeys(Searching(s, query, host), typing, host) == Searching(s, Typed(query, typing), host)
    decreases |typing|
  {
    if typing != [] {
      var t := Searching(s, query, host);
      var more := if typing[0].Text? then query + typing[0].text else if query == "" then "" else Init(query);
      assert forall k :: 0 <= k < |typing| - 1 ==> typing[1..][k] == typing[k + 1];
      assert ApplyKey(t, typing[0], host) == Searching(s, more, host);
      TypingSearches(s, more, typing[1..], host);
    }
  }

  // ---------------------------------------------------------------- which entry is meant

  /** The numbers below `n` that are `ok`, largest first. */
  function Below(ok: nat -> bool, n: nat): seq<nat> {
    if n == 0 then [] else (if ok(n - 1) then [n - 1] else []) + Below(ok, n - 1)
  }

  /** How many from `from` to `n` are. */
  function CountFrom(ok: nat -> bool, from: nat, n: nat): nat
    decreases n - from
  {
    if from >= n then 0 else (if ok(from) then 1 else 0) + CountFrom(ok, from + 1, n)
  }

  lemma {:induction false} BelowAreCounted(ok: nat -> bool, m: nat, n: nat, k: nat)
    requires m <= n && k < |Below(ok, m)|
    ensures var i := Below(ok, m)[k];
      i < m && ok(i) && CountFrom(ok, i + 1, n) == k + CountFrom(ok, m, n)
    decreases m
  {
    if !ok(m - 1) {
      assert Below(ok, m) == Below(ok, m - 1);
      BelowAreCounted(ok, m - 1, n, k);
    } else if k > 0 {
      BelowAreCounted(ok, m - 1, n, k - 1);
    }
  }

  lemma {:induction false} BelowIsAll(ok: nat -> bool, m: nat, n: nat)
    requires m <= n
    ensures |Below(ok, m)| + CountFrom(ok, m, n) == CountFrom(ok, 0, n)
    decreases m
  {
    if m > 0 {
      BelowIsAll(ok, m - 1, n);
    }
  }

  function MatchOf(host: Host, history: seq<string>, query: string): nat -> bool {
    (i: nat) => i < |history| && Matches(host, history[i], query)
  }

  lemma {:induction false} MatchesAreBelow(host: Host, history: seq<string>, query: string, n: nat)
    requires n <= |history|
    ensures MatchesBelow(host, history, query, n) == Below(MatchOf(host, history, query), n)
  {
    if n > 0 {
      MatchesAreBelow(host, history, query, n - 1);
    }
  }

  /** How many entries from `from` on contain the query. */
  function MatchesFrom(host: Host, history: seq<string>, query: string, from: nat): nat {
    CountFrom(MatchOf(host, history, query), from, |history|)
  }

  /** Entry `i` contains the query, and exactly `k` newer ones do. */
  predicate IsNth(host: Host, history: seq<string>, query: string, i: nat, k: nat)
    requires i < |history|
  {
    Matches(host, history[i], query) && MatchesFrom(host, history, query, i + 1) == k
  }

  lemma MatchesAreCounted(host: Host, history: seq<string>, query: string, matches: seq<nat>)
    requires matches == MatchesBelow(host, history, query, |history|)
    ensures |matches| == MatchesFrom(host, history, query, 0)
    ensures forall k: nat :: k < |matches| ==>
      matches[k] < |history| && IsNth(host, history, query, matches[k], k)
  {
    var ok := MatchOf(host, history, query);
    MatchesAreBelow(host, history, query, |history|);
    BelowIsAll(ok, |history|, |history|);
    forall k: nat | k < |matches|
      ensures matches[k] < |history| && IsNth(host, history, query, matches[k], k)
    {
      BelowAreCounted(ok, |history|, |history|, k);
    }
  }

  // ---------------------------------------------------------------- stepping to older entries

  /** A search for `query` that points at the match `at`. */
  function At(s: State, query: string, matches: seq<nat>, at: nat): State {
    s.(search := Some(SearchState(query, matches, at)))
  }

  /** The match that `k` steps lead to: the last when there are not so many. */
  function Step(matches: seq<nat>, k: nat): nat {
    Min(k, Max(0, |matches| - 1))
  }

  ghost predicate InHistory(matches: seq<nat>, history: seq<string>) {
    forall k :: 0 <= k < |matches| ==> matches[k] < |history|
  }

  lemma {:induction false} StepsGoOn(s: State, query: string, matches: seq<nat>, k: nat, more: nat, host: Host)
    requires Valid(s) && InHistory(matches, s.history)
    ensures Valid(At(s, query, matches, Step(matches, k)))
    ensures ApplyKeys(At(s, query, matches, Step(matches, k)), Times(Search, more), host)
      == At(s, query, matches, Step(matches, k + more))
    decreases more
  {
    if more > 0 {
      OneStep(s, query, matches, k, host);
      StepsGoOn(s, query, matches, k + 1, more - 1, host);
      FirstOfTimes(At(s, query, matches, Step(matches, k)), more, host);
    }
  }

  lemma FirstOfTimes(s: State, n: nat, host: Host)
    requires Valid(s) && n > 0
    ensures ApplyKeys(s, Times(Search, n), host) == ApplyKeys(ApplyKey(s, Search, host), Times(Search, n - 1), host)
  {
    assert Times(Search, n)[1..] == Times(Search, n - 1);
  }

  lemma OneStep(s: State, query: string, matches: seq<nat>, k: nat, host: Host)
    requires Valid(s) && InHistory(matches, s.history)
    ensures Valid(At(s, query, matches, Step(matches, k)))
    ensures ApplyKey(At(s, query, matches, Step(matches, k)), Search, host)
      == At(s, query, matches, Step(matches, k + 1))
  {
  }

  /** Ctrl-R, some typing, and `k` more Ctrl-Rs. */
  function SearchKeys(typing: seq<Key>, k: nat): seq<Key> {
    [Search] + typing + Times(Search, k)
  }

  lemma SearchOpens(s: State, typing: seq<Key>, host: Host)
    requires Valid(s) && s.search.None? && IsTyping(typing)
    ensures ApplyKeys(s, [Search] + typing, host) == Searching(s.(menu := [], menuAt := 0), Typed("", typing), host)
  {
    ApplyKeysConcat(s, [Search], typing, host);
    SearchBegins(s, host);
    OneKey(s, [Search], host);
    TypingSearches(s.(menu := [], menuAt := 0), "", typing, host);
  }

  lemma SearchBegins(s: State, host: Host)
    requires Valid(s) && s.search.None?
    ensures ApplyKey(s, Search, host) == Searching(s.(menu := [], menuAt := 0), "", host)
  {
  }

  lemma SearchKeysLead(s: State, closed: State, typing: seq<Key>, matches: seq<nat>, k: nat, host: Host)
    requires Valid(s) && s.search.None? && IsTyping(typing) && closed == s.(menu := [], menuAt := 0)
    requires matches == MatchesBelow(host, s.history, Typed("", typing), |s.history|)
    ensures ApplyKeys(s, SearchKeys(typing, k), host) == At(closed, Typed("", typing), matches, Step(matches, k))
  {
    var query := Typed("", typing);
    ApplyKeysConcat(s, [Search] + typing, Times(Search, k), host);
    SearchOpens(s, typing, host);
    assert Searching(closed, query, host) == At(closed, query, matches, Step(matches, 0));
    StepsGoOn(closed, query, matches, 0, k, host);
  }

  lemma OneKey(s: State, keys: seq<Key>, host: Host)
    requires Valid(s) && |keys| == 1
    ensures ApplyKeys(s, keys, host) == ApplyKey(s, keys[0], host)
  {
    assert keys[1..] == [];
  }

  // ---------------------------------------------------------------- Enter

  /** The buffer holds `text`, with the cursor at its end. */
  ghost predicate Shows(s: State, text: string) {
    InText(s.lines, s.row, s.col) && s.lines == Split(text) && s.row == |s.lines| - 1 && s.col == |LineOf(s)|
  }

  lemma EnterTakes(s: State, query: string, matches: seq<nat>, k: nat, host: Host)
    requires Valid(s) && InHistory(matches, s.history)
    ensures Valid(At(s, query, matches, Step(matches, k)))
    ensures var r := ApplyKey(At(s, query, matches, Step(matches, k)), Enter, host);
      && r.search.None?
      && (matches == [] ==> r == s.(search := None))
      && (matches != [] ==> Shows(r, s.history[matches[Step(matches, k)]]))
  {
  }

  /** What Enter leaves, with a buffer and menu `closed` when nothing matches. */
  ghost predicate Taken(r: State, closed: State, query: string, k: nat, host: Host) {
    var n := MatchesFrom(host, closed.history, query, 0);
    && r.search.None?
    && (n == 0 ==> r == closed)
    && (n > 0 ==> exists i: nat :: i < |closed.history| && IsNth(host, closed.history, query, i, Min(k, n - 1))
                                   && Shows(r, closed.history[i]))
  }

  lemma EnterTakesTheNth(s: State, query: string, matches: seq<nat>, k: nat, host: Host)
    requires Valid(s) && s.search.None? && matches == MatchesBelow(host, s.history, query, |s.history|)
    ensures Valid(At(s, query, matches, Step(matches, k)))
    ensures Taken(ApplyKey(At(s, query, matches, Step(matches, k)), Enter, host), s, query, k, host)
  {
    MatchesAreCounted(host, s.history, query, matches);
    EnterTakes(s, query, matches, k, host);
    if matches != [] {
      assert IsNth(host, s.history, query, matches[Step(matches, k)], Step(matches, k));
    }
  }

  /**
   * Main result: Ctrl-R, any typing, `k` more Ctrl-Rs and Enter load the entry that contains what was
   * typed and has exactly `k` newer ones that do, or the oldest if there are not so many; and leave the
   * buffer alone if none does.
   */
  lemma SearchTakesTheNth(s: State, typing: seq<Key>, k: nat, host: Host)
    requires Valid(s) && s.search.None? && IsTyping(typing)
    ensures Taken(ApplyKeys(s, SearchKeys(typing, k) + [Enter], host), s.(menu := [], menuAt := 0), Typed("", typing),
      k, host)
  {
    var closed, query := s.(menu := [], menuAt := 0), Typed("", typing);
    var matches := MatchesBelow(host, s.history, query, |s.history|);
    ApplyKeysConcat(s, SearchKeys(typing, k), [Enter], host);
    SearchKeysLead(s, closed, typing, matches, k, host);
    EnterTakesTheNth(closed, query, matches, k, host);
    OneKey(At(closed, query, matches, Step(matches, k)), [Enter], host);
  }

  predicate SearchTakes(key: Key) {
    key.Text? || key.Backspace? || key.Search? || key.Enter? || key.Escape? || key.Cancel?
  }

  /** Escape and Ctrl-C leave the search with the buffer as it was; no other key but Enter leaves it. */
  lemma LeavingTheSearch(s: State, key: Key, host: Host)
    requires Valid(s) && s.search.Some?
    ensures ApplyKey(s, key, host).search.None? <==> key.Escape? || key.Cancel? || key.Enter?
    ensures key.Escape? || key.Cancel? ==> ApplyKey(s, key, host) == s.(search := None)
    ensures !SearchTakes(key) ==> ApplyKey(s, key, host) == s
  {
  }
}
