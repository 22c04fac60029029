/**
 * The consistency checks over the evidence matrices (scripts/evidence-corpus.ts).
 *
 * Reading a text is a parameter: `Reading` says what claim a requirement makes once normalised and
 * which index markers a row's notes carry. A conflict is a pair of row indices; its message is made
 * from those two rows and nothing else.
 */
module Corpus {
  import opened Strings

  datatype Row = Row(
    matrix: string,
    line: nat,
    requirement: string,
    status: string,
    notes: string,
    milestone: string,
    ordinal: int
  )

  datatype Reading = Reading(
    claimOf: string -> string,
    openId: string -> Option<string>,
    closedId: string -> Option<string>,
    inScope: string -> bool
  )

  /** `text:...` or `index:...`: what makes two rows one claim. */
  datatype Key = ByText(claim: string) | ByIndex(id: string)

  datatype Place = Place(matrix: string, line: nat)

  /** Row `later` disagrees with row `earlier` and does not say so. */
  datatype Conflict = Conflict(later: nat, earlier: nat)

  function PlaceOf(row: Row): Place {
    Place(row.matrix, row.line)
  }

  /** The first id found in the notes: an open one, else a closed one. */
  function IndexedId(row: Row, reading: Reading): Option<string> {
    if reading.openId(row.notes).Some? then reading.openId(row.notes) else reading.closedId(row.notes)
  }

  function KeysOf(row: Row, reading: Reading): seq<Key> {
    var claim, id := reading.claimOf(row.requirement), IndexedId(row, reading);
    (if claim == "" then [] else [ByText(claim)]) + (if id.Some? && id.value != "" then [ByIndex(id.value)] else [])
  }

  // ---------------------------------------------------------------- what a conflict is

  /** Row `a` comes before row `b` in the ordering of the corpus. */
  predicate Before(rows: seq<Row>, a: nat, b: nat)
    requires a < |rows| && b < |rows|
  {
    rows[a].ordinal < rows[b].ordinal || (rows[a].ordinal == rows[b].ordinal && a < b)
  }

  /** The later row carries another status, and its notes do not name the earlier milestone. */
  predicate Clash(rows: seq<Row>, later: nat, earlier: nat)
    requires later < |rows| && earlier < |rows|
  {
    rows[earlier].status != rows[later].status && !Contains(rows[later].notes, rows[earlier].milestone)
  }

  predicate Under(rows: seq<Row>, reading: Reading, i: nat, key: Key) {
    i < |rows| && key in KeysOf(rows[i], reading)
  }

  ghost predicate SameClaim(rows: seq<Row>, reading: Reading, a: nat, b: nat) {
    exists key :: Under(rows, reading, a, key) && Under(rows, reading, b, key)
  }

  /** The notes of a row carry this index id: in an open marker, or in a closed one where there is no open one. */
  predicate Indexed(row: Row, reading: Reading, id: string) {
    || reading.openId(row.notes) == Some(id)
    || (reading.openId(row.notes).None? && reading.closedId(row.notes) == Some(id))
  }

  /** Two rows are one claim exactly when they say the same, once normalised, or carry the same index id. */
  lemma SameClaimIs(rows: seq<Row>, reading: Reading, a: nat, b: nat)
    requires a < |rows| && b < |rows|
    ensures SameClaim(rows, reading, a, b) <==>
      || reading.claimOf(rows[a].requirement) == reading.claimOf(rows[b].requirement) != ""
      || exists id :: id != "" && Indexed(rows[a], reading, id) && Indexed(rows[b], reading, id)
  {
    var claim := reading.claimOf(rows[a].requirement);
    if SameClaim(rows, reading, a, b) {
      var key :| Under(rows, reading, a, key) && Under(rows, reading, b, key);
      if key.ByIndex? {
        assert Indexed(rows[a], reading, key.id) && Indexed(rows[b], reading, key.id);
      }
    }
    if claim == reading.claimOf(rows[b].requirement) && claim != "" {
      HasClaim(rows, reading, a);
      HasClaim(rows, reading, b);
      assert Under(rows, reading, a, ByText(claim)) && Under(rows, reading, b, ByText(claim));
    }
    if id :| id != "" && Indexed(rows[a], reading, id) && Indexed(rows[b], reading, id) {
      HasId(rows, reading, a, id);
      HasId(rows, reading, b, id);
    }
  }

  lemma HasClaim(rows: seq<Row>, reading: Reading, i: nat)
    requires i < |rows| && reading.claimOf(rows[i].requirement) != ""
    ensures Under(rows, reading, i, ByText(reading.claimOf(rows[i].requirement)))
  {
    assert KeysOf(rows[i], reading)[0] == ByText(reading.claimOf(rows[i].requirement));
  }

  lemma HasId(rows: seq<Row>, reading: Reading, i: nat, id: string)
    requires i < |rows| && id != "" && Indexed(rows[i], reading, id)
    ensures Under(rows, reading, i, ByIndex(id))
  {
    var keys := KeysOf(rows[i], reading);
    assert keys[|keys| - 1] == ByIndex(id);
  }

  ghost predicate Conflicting(rows: seq<Row>, reading: Reading, c: Conflict) {
    && c.later < |rows| && c.earlier < |rows|
    && SameClaim(rows, reading, c.later, c.earlier)
    && Before(rows, c.earlier, c.later)
    && Clash(rows, c.later, c.earlier)
  }

  /** What identifies a report: the two places it names. */
  function Pair(rows: seq<Row>, c: Conflict): (Place, Place)
    requires c.later < |rows| && c.earlier < |rows|
  {
    (PlaceOf(rows[c.later]), PlaceOf(rows[c.earlier]))
  }

  ghost predicate AllConflicting(rows: seq<Row>, reading: Reading, problems: seq<Conflict>) {
    forall k :: 0 <= k < |problems| ==> Conflicting(rows, reading, problems[k])
  }

  ghost function Pairs(rows: seq<Row>, reading: Reading, problems: seq<Conflict>): (pairs: seq<(Place, Place)>)
    requires AllConflicting(rows, reading, problems)
    ensures |pairs| == |problems|
  {
    if |problems| == 0 then []
    else
      assert Conflicting(rows, reading, problems[|problems| - 1]);
      Pairs(rows, reading, problems[..|problems| - 1]) + [Pair(rows, problems[|problems| - 1])]
  }

  /** Every report is a conflict, and no pair of places is reported twice. */
  ghost predicate Sound(rows: seq<Row>, reading: Reading, problems: seq<Conflict>) {
    AllConflicting(rows, reading, problems) && NoRepeat(Pairs(rows, reading, problems))
  }

  ghost predicate NoRepeat<T>(s: seq<T>) {
    forall j, k :: 0 <= j < k < |s| ==> s[j] != s[k]
  }

  /** The pair of places of every conflict is reported. */
  ghost predicate Complete(rows: seq<Row>, reading: Reading, problems: seq<Conflict>)
    requires AllConflicting(rows, reading, problems)
  {
    forall c :: Conflicting(rows, reading, c) ==> Pair(rows, c) in Pairs(rows, reading, problems)
  }

  // ---------------------------------------------------------------- grouping

  /** Each key lists, in increasing order, the rows below `n` that carry it. */
  ghost predicate Grouped(rows: seq<Row>, reading: Reading, n: nat, groups: map<Key, seq<nat>>) {
    forall key :: Lists(rows, reading, n, key, Group(groups, key))
  }

  function Group(groups: map<Key, seq<nat>>, key: Key): seq<nat> {
    if key in groups then groups[key] else []
  }

  ghost predicate Lists(rows: seq<Row>, reading: Reading, n: nat, key: Key, group: seq<nat>) {
    && Increasing(group)
    && (forall i: nat :: i in group <==> i < n && Under(rows, reading, i, key))
  }

  ghost predicate Increasing(s: seq<nat>) {
    forall j, k :: 0 <= j < k < |s| ==> s[j] < s[k]
  }

  /** The groups, and their keys in order of first appearance. */
  method GroupRows(rows: seq<Row>, reading: Reading) returns (order: seq<Key>, groups: map<Key, seq<nat>>)
    ensures Grouped(rows, reading, |rows|, groups)
    ensures forall key :: key in order <==> key in groups
  {
    order, groups := [], map[];
    for n := 0 to |rows|
      invariant Grouped(rows, reading, n, groups)
      invariant forall key :: key in order <==> key in groups
    {
      ghost var was := groups;
      order, groups := FileRow(n, KeysOf(rows[n], reading), order, groups);
      FiledKeepsGrouped(rows, reading, n, was, groups);
    }
  }

  method FileRow(n: nat, keys: seq<Key>, wasOrder: seq<Key>, was: map<Key, seq<nat>>)
    returns (order: seq<Key>, groups: map<Key, seq<nat>>)
    requires NoRepeat(keys) && forall key :: key in wasOrder <==> key in was
    ensures Filed(was, groups, keys, n)
    ensures forall key :: key in order <==> key in groups
  {
    order, groups := wasOrder, was;
    for k := 0 to |keys|
      invariant forall key :: key in order <==> key in groups
      invariant Filed(was, groups, keys[..k], n)
    {
      var key := keys[k];
      assert keys[..k + 1] == keys[..k] + [key];
      assert key !in keys[..k];
      if key in groups {
        groups := groups[key := groups[key] + [n]];
      } else {
        order := order + [key];
        groups := groups[key := [n]];
      }
    }
    assert keys[..|keys|] == keys;
  }

  /** `now` is `was` with row `n` added under each of `keys`. */
  ghost predicate Filed(was: map<Key, seq<nat>>, now: map<Key, seq<nat>>, keys: seq<Key>, n: nat) {
    forall key :: Group(now, key) == Group(was, key) + (if key in keys then [n] else [])
  }

  lemma ListGrows(rows: seq<Row>, reading: Reading, n: nat, key: Key, group: seq<nat>)
    requires n < |rows| && Lists(rows, reading, n, key, group)
    ensures Lists(rows, reading, n + 1, key, group + (if key in KeysOf(rows[n], reading) then [n] else []))
  {
    var now := group + (if key in KeysOf(rows[n], reading) then [n] else []);
    forall j, k | 0 <= j < k < |now|
      ensures now[j] < now[k]
    {
      assert now[j] in group;
    }
  }

  lemma FiledKeepsGrouped(rows: seq<Row>, reading: Reading, n: nat, was: map<Key, seq<nat>>, now: map<Key, seq<nat>>)
    requires n < |rows| && Grouped(rows, reading, n, was) && Filed(was, now, KeysOf(rows[n], reading), n)
    ensures Grouped(rows, reading, n + 1, now)
  {
    forall key
      ensures Lists(rows, reading, n + 1, key, Group(now, key))
    {
      ListGrows(rows, reading, n, key, Group(was, key));
    }
  }

  // ---------------------------------------------------------------- the stable sort

  predicate InRows(rows: seq<Row>, s: seq<nat>) {
    forall k :: 0 <= k < |s| ==> s[k] < |rows|
  }

  /** `x`, which is above every row of `s`, goes after the rows of the same ordinal. */
  function Insert(rows: seq<Row>, s: seq<nat>, x: nat): (r: seq<nat>)
    requires x < |rows| && InRows(rows, s)
    ensures InRows(rows, r)
  {
    if s == [] then [x]
    else if rows[x].ordinal < rows[s[|s| - 1]].ordinal then Insert(rows, s[..|s| - 1], x) + [s[|s| - 1]]
    else s + [x]
  }

  /** `[...group].sort((a, b) => a.ordinal - b.ordinal)`, which is stable. */
  function StableSort(rows: seq<Row>, group: seq<nat>): (s: seq<nat>)
    requires InRows(rows, group)
    ensures InRows(rows, s)
  {
    if group == [] then [] else Insert(rows, StableSort(rows, group[..|group| - 1]), group[|group| - 1])
  }

  lemma {:induction false} InsertKeepsRows(rows: seq<Row>, s: seq<nat>, x: nat)
    requires x < |rows| && InRows(rows, s)
    ensures multiset(Insert(rows, s, x)) == multiset(s) + multiset{x}
  {
    if s != [] && rows[x].ordinal < rows[s[|s| - 1]].ordinal {
      InsertKeepsRows(rows, s[..|s| - 1], x);
      assert s == s[..|s| - 1] + [s[|s| - 1]];
    }
  }

  /** The sort rearranges the group. */
  lemma {:induction false} SortKeepsRows(rows: seq<Row>, group: seq<nat>)
    requires InRows(rows, group)
    ensures multiset(StableSort(rows, group)) == multiset(group)
  {
    if group != [] {
      var most, last := group[..|group| - 1], group[|group| - 1];
      SortKeepsRows(rows, most);
      InsertKeepsRows(rows, StableSort(rows, most), last);
      assert group == most + [last];
    }
  }

  ghost predicate Ordered(rows: seq<Row>, s: seq<nat>) {
    InRows(rows, s) && forall j, k :: 0 <= j < k < |s| ==> Before(rows, s[j], s[k])
  }

  predicate Above(s: seq<nat>, x: nat) {
    forall k :: 0 <= k < |s| ==> s[k] < x
  }

  predicate AllBefore(rows: seq<Row>, s: seq<nat>, last: nat)
    requires InRows(rows, s) && last < |rows|
  {
    forall k :: 0 <= k < |s| ==> Before(rows, s[k], last)
  }

  lemma InsertIsBefore(rows: seq<Row>, s: seq<nat>, x: nat, last: nat)
    requires x < |rows| && last < |rows| && InRows(rows, s) && AllBefore(rows, s, last) && Before(rows, x, last)
    ensures AllBefore(rows, Insert(rows, s, x), last)
  {
    var into := Insert(rows, s, x);
    InsertKeepsRows(rows, s, x);
    forall k | 0 <= k < |into|
      ensures Before(rows, into[k], last)
    {
      assert into[k] in multiset(into);
    }
  }

  lemma OneMoreLast(rows: seq<Row>, s: seq<nat>, last: nat)
    requires Ordered(rows, s) && last < |rows| && AllBefore(rows, s, last)
    ensures Ordered(rows, s + [last])
  {
  }

  lemma {:induction false} InsertKeepsOrder(rows: seq<Row>, s: seq<nat>, x: nat)
    requires x < |rows| && Ordered(rows, s) && Above(s, x)
    ensures Ordered(rows, Insert(rows, s, x))
  {
    if s != [] {
      var most, last := s[..|s| - 1], s[|s| - 1];
      if rows[x].ordinal < rows[last].ordinal {
        InsertKeepsOrder(rows, most, x);
        InsertIsBefore(rows, most, x, last);
        OneMoreLast(rows, Insert(rows, most, x), last);
      }
    }
  }

  /** The sort orders a group by milestone and, within one, by the order of the rows. */
  lemma {:induction false} SortOrders(rows: seq<Row>, group: seq<nat>)
    requires InRows(rows, group) && Increasing(group)
    ensures Ordered(rows, StableSort(rows, group))
  {
    if group != [] {
      var most, last := group[..|group| - 1], group[|group| - 1];
      SortOrders(rows, most);
      SortKeepsRows(rows, most);
      var sorted := StableSort(rows, most);
      forall k | 0 <= k < |sorted|
        ensures sorted[k] < last
      {
        assert sorted[k] in multiset(sorted);
      }
      InsertKeepsOrder(rows, sorted, last);
    }
  }

  // ---------------------------------------------------------------- one claim, one status

  /** `seen` holds the pairs reported so far. */
  ghost predicate Ledger(rows: seq<Row>, reading: Reading, problems: seq<Conflict>, seen: set<(Place, Place)>) {
    && Sound(rows, reading, problems)
    && (forall p :: p in seen <==> p in Pairs(rows, reading, problems))
  }

  /** Everything there is to say about `later` and the rows of `before` has been said. */
  ghost predicate SaidOf(rows: seq<Row>, later: nat, before: seq<nat>, seen: set<(Place, Place)>) {
    forall e <- before :: later < |rows| && e < |rows|
      && (Clash(rows, later, e) ==> (PlaceOf(rows[later]), PlaceOf(rows[e])) in seen)
  }

  ghost predicate SaidOfAll(rows: seq<Row>, ordered: seq<nat>, n: nat, seen: set<(Place, Place)>) {
    forall i :: 0 <= i < n && i < |ordered| ==> SaidOf(rows, ordered[i], ordered[..i], seen)
  }

  method CheckPair(rows: seq<Row>, ghost reading: Reading, c: Conflict, was: seq<Conflict>,
    wasSeen: set<(Place, Place)>)
    returns (problems: seq<Conflict>, seen: set<(Place, Place)>)
    requires Ledger(rows, reading, was, wasSeen)
    requires c.later < |rows| && c.earlier < |rows|
    requires SameClaim(rows, reading, c.later, c.earlier) && Before(rows, c.earlier, c.later)
    ensures Ledger(rows, reading, problems, seen) && wasSeen <= seen
    ensures Clash(rows, c.later, c.earlier) ==> Pair(rows, c) in seen
  {
    problems, seen := was, wasSeen;
    var later, earlier := rows[c.later], rows[c.earlier];
    if earlier.status == later.status {
      return;
    }
    if Contains(later.notes, earlier.milestone) {
      return;
    }
    var pair := (PlaceOf(later), PlaceOf(earlier));
    if pair in seen {
      return;
    }
    LedgerGrows(rows, reading, c, problems, seen);
    seen := seen + {pair};
    problems := problems + [c];
  }

  lemma LedgerGrows(rows: seq<Row>, reading: Reading, c: Conflict, problems: seq<Conflict>, seen: set<(Place, Place)>)
    requires Ledger(rows, reading, problems, seen) && Conflicting(rows, reading, c) && Pair(rows, c) !in seen
    ensures Ledger(rows, reading, problems + [c], seen + {Pair(rows, c)})
  {
    var more := problems + [c];
    assert more[..|more| - 1] == problems;
    assert AllConflicting(rows, reading, more);
    assert Pairs(rows, reading, more) == Pairs(rows, reading, problems) + [Pair(rows, c)];
  }

  method CheckOneClaimOneStatus(rows: seq<Row>, reading: Reading) returns (problems: seq<Conflict>)
    ensures Sound(rows, reading, problems) && Complete(rows, reading, problems)
  {
    problems := [];
    var seen: set<(Place, Place)> := {};
    LedgerStarts(rows, reading, problems, seen);
    var order, groups := GroupRows(rows, reading);
    for g := 0 to |order|
      invariant Ledger(rows, reading, problems, seen)
      invariant AllSettled(rows, groups, order[..g], seen)
    {
      GroupIsUnder(rows, reading, groups, order[g]);
      ghost var wasSeen := seen;
      problems, seen := CheckGroup(rows, reading, order[g], Group(groups, order[g]), problems, seen);
      OneMoreSettled(rows, groups, order, g, wasSeen, seen);
    }
    LedgerIsComplete(rows, reading, groups, order, problems, seen);
  }

  lemma LedgerStarts(rows: seq<Row>, reading: Reading, problems: seq<Conflict>, seen: set<(Place, Place)>)
    requires |problems| == |seen| == 0
    ensures Ledger(rows, reading, problems, seen)
  {
  }

  ghost predicate AllSettled(rows: seq<Row>, groups: map<Key, seq<nat>>, order: seq<Key>, seen: set<(Place, Place)>) {
    forall h :: 0 <= h < |order| ==> Settled(rows, Group(groups, order[h]), seen)
  }

  lemma OneMoreSettled(rows: seq<Row>, groups: map<Key, seq<nat>>, order: seq<Key>, g: nat, was: set<(Place, Place)>,
    now: set<(Place, Place)>)
    requires g < |order| && was <= now
    requires AllSettled(rows, groups, order[..g], was) && Settled(rows, Group(groups, order[g]), now)
    ensures AllSettled(rows, groups, order[..g + 1], now)
  {
    forall h | 0 <= h < g
      ensures Settled(rows, Group(groups, order[h]), now)
    {
      assert order[..g][h] == order[h];
      SettledStays(rows, Group(groups, order[h]), was, now);
    }
  }

  lemma LedgerIsComplete(rows: seq<Row>, reading: Reading, groups: map<Key, seq<nat>>, order: seq<Key>,
    problems: seq<Conflict>, seen: set<(Place, Place)>)
    requires Grouped(rows, reading, |rows|, groups)
    requires forall key :: key in order <==> key in groups
    requires AllSettled(rows, groups, order[..|order|], seen) && Ledger(rows, reading, problems, seen)
    ensures Complete(rows, reading, problems)
  {
    assert order[..|order|] == order;
    forall c | Conflicting(rows, reading, c)
      ensures Pair(rows, c) in Pairs(rows, reading, problems)
    {
      ConflictIsSeen(rows, reading, groups, order, seen, c);
    }
  }

  lemma GroupIsUnder(rows: seq<Row>, reading: Reading, groups: map<Key, seq<nat>>, key: Key)
    requires Grouped(rows, reading, |rows|, groups)
    ensures AllUnder(rows, reading, Group(groups, key), key) && Increasing(Group(groups, key))
  {
    var group := Group(groups, key);
    assert Lists(rows, reading, |rows|, key, group);
    forall k | 0 <= k < |group|
      ensures Under(rows, reading, group[k], key)
    {
      assert group[k] in group;
    }
  }

  lemma ConflictIsSeen(rows: seq<Row>, reading: Reading, groups: map<Key, seq<nat>>, order: seq<Key>,
    seen: set<(Place, Place)>, c: Conflict)
    requires Grouped(rows, reading, |rows|, groups)
    requires forall key :: key in order <==> key in groups
    requires AllSettled(rows, groups, order, seen)
    requires Conflicting(rows, reading, c)
    ensures Pair(rows, c) in seen
  {
    var key :| Under(rows, reading, c.later, key) && Under(rows, reading, c.earlier, key);
    assert Lists(rows, reading, |rows|, key, Group(groups, key));
    assert c.later in Group(groups, key) && c.earlier in Group(groups, key);
    assert key in order;
    var h :| 0 <= h < |order| && order[h] == key;
    assert Settled(rows, Group(groups, order[h]), seen);
  }

  /** Every conflict between two rows of a group has been reported. */
  ghost predicate Settled(rows: seq<Row>, group: seq<nat>, seen: set<(Place, Place)>) {
    forall l, e | l in group && e in group && l < |rows| && e < |rows| ::
      Before(rows, e, l) && Clash(rows, l, e) ==> (PlaceOf(rows[l]), PlaceOf(rows[e])) in seen
  }

  lemma SettledStays(rows: seq<Row>, group: seq<nat>, was: set<(Place, Place)>, now: set<(Place, Place)>)
    requires Settled(rows, group, was) && was <= now
    ensures Settled(rows, group, now)
  {
  }

  predicate AllUnder(rows: seq<Row>, reading: Reading, group: seq<nat>, key: Key) {
    forall k :: 0 <= k < |group| ==> Under(rows, reading, group[k], key)
  }

  predicate OneStatus(rows: seq<Row>, group: seq<nat>)
    requires InRows(rows, group)
  {
    forall k :: 0 <= k < |group| ==> rows[group[k]].status == rows[group[0]].status
  }

  method CheckGroup(rows: seq<Row>, ghost reading: Reading, ghost key: Key, group: seq<nat>, was: seq<Conflict>,
    wasSeen: set<(Place, Place)>)
    returns (problems: seq<Conflict>, seen: set<(Place, Place)>)
    requires Ledger(rows, reading, was, wasSeen)
    requires Increasing(group) && AllUnder(rows, reading, group, key)
    ensures Ledger(rows, reading, problems, seen) && wasSeen <= seen
    ensures Settled(rows, group, seen)
  {
    problems, seen := was, wasSeen;
    if |group| < 2 {
      return;
    }
    assert InRows(rows, group) by {
      assert forall k :: 0 <= k < |group| ==> Under(rows, reading, group[k], key);
    }
    if OneStatus(rows, group) {
      return;
    }
    var ordered := StableSort(rows, group);
    SortedIsUnder(rows, reading, key, group);
    for i := 1 to |ordered|
      invariant Ledger(rows, reading, problems, seen) && wasSeen <= seen
      invariant SaidOfAll(rows, ordered, i, seen)
    {
      problems, seen := CheckRow(rows, reading, key, ordered, i, problems, seen);
    }
    AllSaidIsSettled(rows, ordered, seen);
    assert Settled(rows, group, seen);
  }

  lemma SortedIsUnder(rows: seq<Row>, reading: Reading, key: Key, group: seq<nat>)
    requires Increasing(group) && AllUnder(rows, reading, group, key) && InRows(rows, group)
    ensures var ordered := StableSort(rows, group);
      && Ordered(rows, ordered) && AllUnder(rows, reading, ordered, key)
      && (forall i: nat :: i in ordered <==> i in group)
  {
    var ordered := StableSort(rows, group);
    SortOrders(rows, group);
    SortKeepsRows(rows, group);
    assert forall i: nat :: i in ordered <==> i in multiset(ordered);
    assert forall i: nat :: i in group <==> i in multiset(group);
    forall k | 0 <= k < |ordered|
      ensures Under(rows, reading, ordered[k], key)
    {
      assert ordered[k] in group;
    }
  }

  /** The pair at `i` and `j` of an ordered group, as a conflict would name it. */
  lemma PairOfGroup(rows: seq<Row>, reading: Reading, key: Key, ordered: seq<nat>, i: nat, j: nat)
    requires j < i < |ordered| && Ordered(rows, ordered) && AllUnder(rows, reading, ordered, key)
    ensures ordered[i] < |rows| && ordered[j] < |rows|
    ensures SameClaim(rows, reading, ordered[i], ordered[j]) && Before(rows, ordered[j], ordered[i])
  {
    assert Under(rows, reading, ordered[i], key) && Under(rows, reading, ordered[j], key);
  }

  lemma SaidOneMore(rows: seq<Row>, later: nat, ordered: seq<nat>, j: nat, was: set<(Place, Place)>,
    now: set<(Place, Place)>)
    requires j < |ordered| && was <= now && SaidOf(rows, later, ordered[..j], was)
    requires later < |rows| && ordered[j] < |rows|
    requires Clash(rows, later, ordered[j]) ==> (PlaceOf(rows[later]), PlaceOf(rows[ordered[j]])) in now
    ensures SaidOf(rows, later, ordered[..j + 1], now)
  {
    assert ordered[..j + 1] == ordered[..j] + [ordered[j]];
  }

  lemma SaidOfRow(rows: seq<Row>, ordered: seq<nat>, i: nat, was: set<(Place, Place)>, now: set<(Place, Place)>)
    requires i < |ordered| && was <= now && SaidOfAll(rows, ordered, i, was)
    requires SaidOf(rows, ordered[i], ordered[..i], now)
    ensures SaidOfAll(rows, ordered, i + 1, now)
  {
  }

  method CheckRow(rows: seq<Row>, ghost reading: Reading, ghost key: Key, ordered: seq<nat>, i: nat,
    was: seq<Conflict>, wasSeen: set<(Place, Place)>)
    returns (problems: seq<Conflict>, seen: set<(Place, Place)>)
    requires Ledger(rows, reading, was, wasSeen)
    requires i < |ordered| && Ordered(rows, ordered) && AllUnder(rows, reading, ordered, key)
    requires SaidOfAll(rows, ordered, i, wasSeen)
    ensures Ledger(rows, reading, problems, seen) && wasSeen <= seen
    ensures SaidOfAll(rows, ordered, i + 1, seen)
  {
    problems, seen := was, wasSeen;
    var later := ordered[i];
    for j := 0 to i
      invariant Ledger(rows, reading, problems, seen) && wasSeen <= seen
      invariant SaidOf(rows, later, ordered[..j], seen)
    {
      ghost var before := seen;
      PairOfGroup(rows, reading, key, ordered, i, j);
      problems, seen := CheckPair(rows, reading, Conflict(later, ordered[j]), problems, seen);
      SaidOneMore(rows, later, ordered, j, before, seen);
    }
    SaidOfRow(rows, ordered, i, wasSeen, seen);
  }

  lemma AllSaidIsSettled(rows: seq<Row>, ordered: seq<nat>, seen: set<(Place, Place)>)
    requires Ordered(rows, ordered) && SaidOfAll(rows, ordered, |ordered|, seen)
    ensures Settled(rows, ordered, seen)
  {
    forall l, e | l in ordered && e in ordered && l < |rows| && e < |rows| && Before(rows, e, l) && Clash(rows, l, e)
      ensures (PlaceOf(rows[l]), PlaceOf(rows[e])) in seen
    {
      var i :| 0 <= i < |ordered| && ordered[i] == l;
      var j :| 0 <= j < |ordered| && ordered[j] == e;
      assert j < i;
      assert SaidOf(rows, ordered[i], ordered[..i], seen);
      assert ordered[..i][j] == e;
    }
  }

  // ---------------------------------------------------------------- exactly once

  ghost predicate DistinctPlaces(rows: seq<Row>) {
    forall a, b | 0 <= a < b < |rows| :: PlaceOf(rows[a]) != PlaceOf(rows[b])
  }

  lemma {:induction false} PairsAt(rows: seq<Row>, reading: Reading, problems: seq<Conflict>, k: nat)
    requires AllConflicting(rows, reading, problems) && k < |problems|
    ensures Conflicting(rows, reading, problems[k]) && Pairs(rows, reading, problems)[k] == Pair(rows, problems[k])
  {
    if k < |problems| - 1 {
      PairsAt(rows, reading, problems[..|problems| - 1], k);
    }
  }

  lemma PlacesTell(rows: seq<Row>, a: Conflict, b: Conflict)
    requires DistinctPlaces(rows)
    requires a.later < |rows| && a.earlier < |rows| && b.later < |rows| && b.earlier < |rows|
    ensures Pair(rows, a) == Pair(rows, b) <==> a == b
  {
  }

  /** When no two rows stand in one place, what is reported is every conflict and nothing else, each once. */
  lemma ReportIsExact(rows: seq<Row>, reading: Reading, problems: seq<Conflict>)
    requires DistinctPlaces(rows) && Sound(rows, reading, problems) && Complete(rows, reading, problems)
    ensures forall c :: c in problems <==> Conflicting(rows, reading, c)
    ensures NoRepeat(problems)
  {
    forall c | Conflicting(rows, reading, c)
      ensures c in problems
    {
      var k :| 0 <= k < |problems| && Pairs(rows, reading, problems)[k] == Pair(rows, c);
      PairsAt(rows, reading, problems, k);
      PlacesTell(rows, problems[k], c);
    }
    forall j, k | 0 <= j < k < |problems|
      ensures problems[j] != problems[k]
    {
      PairsAt(rows, reading, problems, j);
      PairsAt(rows, reading, problems, k);
    }
  }

  // ---------------------------------------------------------------- the index and the rows

  datatype Entry = Entry(id: string, claim: string, line: nat)

  datatype Finding =
    | Unmarked(row: nat)
    | ManyMarkers(row: nat)
    | NotInIndex(row: nat, id: string)
    | NoRowNames(entry: nat)

  predicate IsOpenStatus(status: string) {
    status == "NOT TESTED" || status == "NOT APPLICABLE"
  }

  function MarkerCount(row: Row, reading: Reading): nat {
    (if reading.openId(row.notes).Some? then 1 else 0)
    + (if reading.closedId(row.notes).Some? then 1 else 0)
    + (if reading.inScope(row.notes) then 1 else 0)
  }

  /** The index entry that a row stands for: it is open, and its one marker has an id. */
  function Reference(row: Row, reading: Reading): Option<string> {
    if IsOpenStatus(row.status) && MarkerCount(row, reading) == 1 then IndexedId(row, reading) else None
  }

  ghost predicate Named(rows: seq<Row>, reading: Reading, id: string) {
    exists i :: 0 <= i < |rows| && Reference(rows[i], reading) == Some(id)
  }

  ghost predicate Listed(entries: seq<Entry>, id: string) {
    exists k :: 0 <= k < |entries| && entries[k].id == id
  }

  /** What is wrong with one row. */
  function RowFindings(row: Row, i: nat, reading: Reading, known: set<string>): seq<Finding> {
    if !IsOpenStatus(row.status) then []
    else if MarkerCount(row, reading) == 0 then [Unmarked(i)]
    else if MarkerCount(row, reading) > 1 then [ManyMarkers(i)]
    else if Reference(row, reading).Some? && Reference(row, reading).value !in known then
      [NotInIndex(i, Reference(row, reading).value)]
    else []
  }

  /** What is wrong, said of the whole corpus. */
  ghost predicate IsFinding(rows: seq<Row>, entries: seq<Entry>, reading: Reading, f: Finding) {
    match f
    case Unmarked(i) => i < |rows| && IsOpenStatus(rows[i].status) && MarkerCount(rows[i], reading) == 0
    case ManyMarkers(i) => i < |rows| && IsOpenStatus(rows[i].status) && MarkerCount(rows[i], reading) > 1
    case NotInIndex(i, id) => i < |rows| && Reference(rows[i], reading) == Some(id) && !Listed(entries, id)
    case NoRowNames(k) => k < |entries| && !Named(rows, reading, entries[k].id)
  }

  method CheckRows(rows: seq<Row>, known: set<string>, reading: Reading)
    returns (problems: seq<Finding>, referenced: set<string>)
    ensures forall id :: id in referenced <==> Named(rows, reading, id)
    ensures forall f ::
      f in problems <==> !f.NoRowNames? && f.row < |rows| && f in RowFindings(rows[f.row], f.row, reading, known)
    ensures NoRepeat(problems)
  {
    problems, referenced := [], {};
    for i := 0 to |rows|
      invariant forall id :: id in referenced <==> exists j :: 0 <= j < i && Reference(rows[j], reading) == Some(id)
      invariant forall f ::
        f in problems <==> !f.NoRowNames? && f.row < i && f in RowFindings(rows[f.row], f.row, reading, known)
      invariant NoRepeat(problems)
    {
      var found := RowFindings(rows[i], i, reading, known);
      var id := Reference(rows[i], reading);
      if id.Some? {
        referenced := referenced + {id.value};
      }
      assert forall k :: 0 <= k < |problems| ==> problems[k] in problems;
      problems := problems + found;
    }
  }

  method CheckIndexReconciliation(rows: seq<Row>, entries: seq<Entry>, reading: Reading)
    returns (problems: seq<Finding>)
    ensures forall f :: f in problems <==> IsFinding(rows, entries, reading, f)
    ensures NoRepeat(problems)
  {
    var known := set k | 0 <= k < |entries| :: entries[k].id;
    assert forall id :: id in known <==> Listed(entries, id);
    var referenced;
    problems, referenced := CheckRows(rows, known, reading);
    ghost var ofRows := problems;
    assert forall f :: f in ofRows <==> !f.NoRowNames? && IsFinding(rows, entries, reading, f);
    for k := 0 to |entries|
      invariant forall f ::
        f in problems <==> f in ofRows || (f.NoRowNames? && f.entry < k && IsFinding(rows, entries, reading, f))
      invariant NoRepeat(problems)
    {
      if entries[k].id !in referenced {
        assert forall j :: 0 <= j < |problems| ==> problems[j] in problems;
        problems := problems + [NoRowNames(k)];
      }
    }
  }

  /** Nothing is wrong exactly when neither list has a member the other does not: every open row has
      one marker, the ids the rows give are those of the index. */
  ghost predicate Reconciled(rows: seq<Row>, entries: seq<Entry>, reading: Reading) {
    && (forall i :: 0 <= i < |rows| && IsOpenStatus(rows[i].status) ==> MarkerCount(rows[i], reading) == 1)
    && (forall id :: Named(rows, reading, id) <==> Listed(entries, id))
  }

  lemma NoFindingMeansReconciled(rows: seq<Row>, entries: seq<Entry>, reading: Reading)
    ensures (forall f :: !IsFinding(rows, entries, reading, f)) <==> Reconciled(rows, entries, reading)
  {
    if forall f :: !IsFinding(rows, entries, reading, f) {
      forall i | 0 <= i < |rows| && IsOpenStatus(rows[i].status)
        ensures MarkerCount(rows[i], reading) == 1
      {
        assert !IsFinding(rows, entries, reading, Unmarked(i)) && !IsFinding(rows, entries, reading, ManyMarkers(i));
      }
      forall id
        ensures Named(rows, reading, id) <==> Listed(entries, id)
      {
        if Named(rows, reading, id) {
          var i :| 0 <= i < |rows| && Reference(rows[i], reading) == Some(id);
          assert !IsFinding(rows, entries, reading, NotInIndex(i, id));
        }
        if Listed(entries, id) {
          var k :| 0 <= k < |entries| && entries[k].id == id;
          assert !IsFinding(rows, entries, reading, NoRowNames(k));
        }
      }
    }
  }
}
