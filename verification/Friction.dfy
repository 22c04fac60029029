/**
 * What each tool cost the model (evals/runners/run.ts): counted from an event log, split into the
 * kernel's own tools and foreign ones, merged over attempts.
 *
 * A log is the list of its lines, already parsed; a blank line, one that is not JSON, or any other
 * event is `Other`. A field that is not a string is `None`.
 */
module Friction {
  import opened Strings

  datatype Event =
    | Call(name: Option<string>, callId: Option<string>, argsHash: Option<string>)
    | Error(name: Option<string>, answers: string, code: Option<string>)
    | Other

  type Histogram = map<string, nat>

  datatype ToolFriction = ToolFriction(calls: nat, errors: nat, repeats: nat, codes: Histogram)

  type Table = map<string, ToolFriction>

  const NoFriction: ToolFriction := ToolFriction(0, 0, 0, map[])

  /** The loop's tables. */
  datatype Books = Books(byTool: Table, seenCalls: map<string, nat>, nameByCallId: map<string, string>)

  function Of(table: Table, name: string): ToolFriction {
    if name in table then table[name] else NoFriction
  }

  function CountOf(counts: map<string, nat>, key: string): nat {
    if key in counts then counts[key] else 0
  }

  /** `${name}:${argsHash}`. */
  function KeyOf(name: string, hash: string): string {
    name + ":" + hash
  }

  // ---------------------------------------------------------------- counting

  function AfterCall(b: Books, name: string, callId: Option<string>, hash: Option<string>): Books {
    var entry := Of(b.byTool, name);
    var again := hash.Some? && CountOf(b.seenCalls, KeyOf(name, hash.value)) > 0;
    Books(
      b.byTool[name := entry.(calls := entry.calls + 1, repeats := entry.repeats + (if again then 1 else 0))],
      if hash.Some? then b.seenCalls[KeyOf(name, hash.value) := CountOf(b.seenCalls, KeyOf(name, hash.value)) + 1]
      else b.seenCalls,
      if callId.Some? then b.nameByCallId[callId.value := name] else b.nameByCallId)
  }

  /** Whose error it is: the tool it names, else the tool of the call with its id. */
  function Blamed(b: Books, name: Option<string>, callId: string): string {
    if name.Some? then name.value
    else if callId in b.nameByCallId then b.nameByCallId[callId]
    else "unknown"
  }

  function AfterError(b: Books, name: string, code: string): Books {
    var entry := Of(b.byTool, name);
    b.(byTool := b.byTool[name := WithError(entry, code)])
  }

  function CodeOf(code: Option<string>): string {
    if code.Some? then code.value else "UNKNOWN"
  }

  function AfterEvent(b: Books, event: Event): Books {
    match event
    case Call(name, callId, hash) => if name.Some? then AfterCall(b, name.value, callId, hash) else b
    case Error(name, answers, code) => AfterError(b, Blamed(b, name, answers), CodeOf(code))
    case Other => b
  }

  function BooksOf(log: seq<Event>): Books {
    if |log| == 0 then Books(map[], map[], map[]) else AfterEvent(BooksOf(log[..|log| - 1]), log[|log| - 1])
  }

  /** One turn of the loop, on its three tables. */
  method CountEvent(event: Event, wasTool: Table, wasSeen: map<string, nat>, wasNames: map<string, string>)
    returns (byTool: Table, seenCalls: map<string, nat>, nameByCallId: map<string, string>)
    ensures Books(byTool, seenCalls, nameByCallId) == AfterEvent(Books(wasTool, wasSeen, wasNames), event)
  {
    byTool, seenCalls, nameByCallId := wasTool, wasSeen, wasNames;
    if event.Call? && event.name.Some? {
      var name := event.name.value;
      var entry := Of(byTool, name);
      entry := entry.(calls := entry.calls + 1);
      if event.callId.Some? {
        nameByCallId := nameByCallId[event.callId.value := name];
      }
      if event.argsHash.Some? {
        var key := KeyOf(name, event.argsHash.value);
        var count := CountOf(seenCalls, key) + 1;
        seenCalls := seenCalls[key := count];
        if count > 1 {
          entry := entry.(repeats := entry.repeats + 1);
        }
      }
      byTool := byTool[name := entry];
      return;
    }
    if event.Error? {
      var name :=
        if event.name.Some? then event.name.value
        else if event.answers in nameByCallId then nameByCallId[event.answers]
        else "unknown";
      var entry, code := Of(byTool, name), CodeOf(event.code);
      var codes := entry.codes[code := CountOf(entry.codes, code) + 1];
      byTool := byTool[name := entry.(errors := entry.errors + 1, codes := codes)];
    }
  }

  method ToolFrictionFromLog(log: seq<Event>) returns (byTool: Table)
    ensures byTool == BooksOf(log).byTool
  {
    byTool := map[];
    var seenCalls: map<string, nat> := map[];
    var nameByCallId: map<string, string> := map[];
    for i := 0 to |log|
      invariant Books(byTool, seenCalls, nameByCallId) == BooksOf(log[..i])
    {
      BooksGrow(log, i);
      byTool, seenCalls, nameByCallId := CountEvent(log[i], byTool, seenCalls, nameByCallId);
    }
    assert log[..|log|] == log;
  }

  lemma BooksGrow(log: seq<Event>, i: nat)
    requires i < |log|
    ensures BooksOf(log[..i + 1]) == AfterEvent(BooksOf(log[..i]), log[i])
  {
    assert log[..i + 1][..i] == log[..i];
  }

  // ---------------------------------------------------------------- what is counted, said of the log

  /** Event `k` is a call of `name`. */
  predicate IsCallOf(event: Event, name: string) {
    event.Call? && event.name == Some(name)
  }

  function CallsOf(log: seq<Event>, name: string): nat {
    if |log| == 0 then 0 else CallsOf(log[..|log| - 1], name) + (if IsCallOf(log[|log| - 1], name) then 1 else 0)
  }

  /** The tool of the last call before the end of `log` with the given id. */
  function LastNamed(log: seq<Event>, callId: string): Option<string> {
    if |log| == 0 then None
    else
      var last := log[|log| - 1];
      if last.Call? && last.name.Some? && last.callId == Some(callId) then last.name
      else LastNamed(log[..|log| - 1], callId)
  }

  /** Whose error the last event of a log is, if it is one. */
  function Culprit(before: seq<Event>, event: Event): Option<string> {
    if !event.Error? then None
    else if event.name.Some? then event.name
    else if LastNamed(before, event.answers).Some? then LastNamed(before, event.answers)
    else Some("unknown")
  }

  /** The errors of `name` that carry `code`. */
  function ErrorsOf(log: seq<Event>, name: string, code: string): nat {
    if |log| == 0 then 0
    else
      var before, last := log[..|log| - 1], log[|log| - 1];
      ErrorsOf(before, name, code) + (if Culprit(before, last) == Some(name) && CodeOf(last.code) == code then 1 else 0)
  }

  function ErrorEvents(log: seq<Event>): nat {
    if |log| == 0 then 0 else ErrorEvents(log[..|log| - 1]) + (if log[|log| - 1].Error? then 1 else 0)
  }

  predicate IsHashed(event: Event) {
    event.Call? && event.name.Some? && event.argsHash.Some?
  }

  function KeysOf(log: seq<Event>): set<string> {
    set k | 0 <= k < |log| && IsHashed(log[k]) :: KeyOf(log[k].name.value, log[k].argsHash.value)
  }

  function HashedCalls(log: seq<Event>): nat {
    if |log| == 0 then 0 else HashedCalls(log[..|log| - 1]) + (if IsHashed(log[|log| - 1]) then 1 else 0)
  }

  /** The hashed calls of `name` whose key an earlier call in the log had. */
  function RepeatsOf(log: seq<Event>, name: string): nat {
    if |log| == 0 then 0
    else
      var before, last := log[..|log| - 1], log[|log| - 1];
      RepeatsOf(before, name)
      + (if IsCallOf(last, name) && last.argsHash.Some?
        && KeyOf(name, last.argsHash.value) in KeysOf(before) then 1 else 0)
  }

  // ---------------------------------------------------------------- the table counts what the log holds

  lemma KeysGrow(log: seq<Event>)
    requires |log| > 0
    ensures var last := log[|log| - 1];
      KeysOf(log)
        == KeysOf(log[..|log| - 1]) + (if IsHashed(last) then {KeyOf(last.name.value, last.argsHash.value)} else {})
  {
    var before, last := log[..|log| - 1], log[|log| - 1];
    assert log == before + [last];
    forall key | key in KeysOf(before)
      ensures key in KeysOf(log)
    {
      var k :| 0 <= k < |before| && IsHashed(before[k]) && key == KeyOf(before[k].name.value, before[k].argsHash.value);
      assert log[k] == before[k];
    }
  }

  lemma {:induction false} SeenAreTheKeys(log: seq<Event>, key: string)
    ensures CountOf(BooksOf(log).seenCalls, key) > 0 <==> key in KeysOf(log)
  {
    if |log| > 0 {
      SeenAreTheKeys(log[..|log| - 1], key);
      KeysGrow(log);
    }
  }

  lemma {:induction false} NamesAreTheLast(log: seq<Event>, callId: string)
    ensures var names := BooksOf(log).nameByCallId;
      LastNamed(log, callId) == if callId in names then Some(names[callId]) else None
  {
    if |log| > 0 {
      NamesAreTheLast(log[..|log| - 1], callId);
    }
  }

  /** Calls, and repeats, of each tool. */
  lemma {:induction false} CallsAreCounted(log: seq<Event>, name: string)
    ensures var entry := Of(BooksOf(log).byTool, name);
      entry.calls == CallsOf(log, name) && entry.repeats == RepeatsOf(log, name)
  {
    if |log| > 0 {
      var before, last := log[..|log| - 1], log[|log| - 1];
      CallsAreCounted(before, name);
      if IsHashed(last) {
        SeenAreTheKeys(before, KeyOf(last.name.value, last.argsHash.value));
      }
    }
  }

  /** Errors of each tool, by code. An error without a name is the tool's whose call it answers. */
  lemma {:induction false} ErrorsAreCounted(log: seq<Event>, name: string, code: string)
    ensures CountOf(Of(BooksOf(log).byTool, name).codes, code) == ErrorsOf(log, name, code)
  {
    if |log| > 0 {
      var before, last := log[..|log| - 1], log[|log| - 1];
      ErrorsAreCounted(before, name, code);
      if last.Error? {
        NamesAreTheLast(before, last.answers);
        assert Culprit(before, last) == Some(Blamed(BooksOf(before), last.name, last.answers));
      }
    }
  }

  // ---------------------------------------------------------------- totals

  ghost function Sum(counts: map<string, nat>): nat
    decreases |counts|
  {
    if |counts| == 0 then 0
    else
      var k :| k in counts;
      assert |counts - {k}| < |counts| by { Smaller(counts, k); }
      counts[k] + Sum(counts - {k})
  }

  lemma Smaller(counts: map<string, nat>, k: string)
    requires k in counts
    ensures |counts - {k}| == |counts| - 1
  {
    var rest := counts - {k};
    assert rest.Keys == counts.Keys - {k};
    assert |rest.Keys| == |rest| && |counts.Keys| == |counts|;
  }

  lemma SumTakesOne(counts: map<string, nat>) returns (k: string)
    requires |counts| > 0
    ensures k in counts && |counts - {k}| < |counts| && Sum(counts) == counts[k] + Sum(counts - {k})
  {
    k :| k in counts && Sum(counts) == counts[k] + Sum(counts - {k});
    Smaller(counts, k);
  }

  /** The order of addition does not matter. */
  lemma {:induction false} SumWithout(counts: map<string, nat>, k: string)
    requires k in counts
    ensures Sum(counts) == counts[k] + Sum(counts - {k})
    decreases |counts|
  {
    Smaller(counts, k);
    var j := SumTakesOne(counts);
    if j != k {
      SumWithout(counts - {j}, k);
      SumWithout(counts - {k}, j);
      assert counts - {j} - {k} == counts - {k} - {j};
    }
  }

  lemma SumUpdate(counts: map<string, nat>, k: string, n: nat)
    ensures Sum(counts[k := n]) == Sum(counts) - CountOf(counts, k) + n
  {
    var now := counts[k := n];
    SumWithout(now, k);
    if k in counts {
      SumWithout(counts, k);
      assert now - {k} == counts - {k};
    } else {
      assert now - {k} == counts;
    }
  }

  datatype Column = Calls | Errors | Repeats

  function At(f: ToolFriction, column: Column): nat {
    match column
    case Calls => f.calls
    case Errors => f.errors
    case Repeats => f.repeats
  }

  ghost function Counts(table: Table, column: Column): map<string, nat> {
    map name | name in table :: At(table[name], column)
  }

  ghost function Total(table: Table, column: Column): nat {
    Sum(Counts(table, column))
  }

  lemma TotalUpdate(table: Table, name: string, f: ToolFriction, column: Column)
    ensures Total(table[name := f], column) == Total(table, column) - At(Of(table, name), column) + At(f, column)
  {
    assert Counts(table[name := f], column) == Counts(table, column)[name := At(f, column)];
    SumUpdate(Counts(table, column), name, At(f, column));
  }

  /** What one event adds to a total. */
  function Added(before: seq<Event>, event: Event, column: Column): nat {
    match column
    case Calls => if event.Call? && event.name.Some? then 1 else 0
    case Errors => if event.Error? then 1 else 0
    case Repeats => if IsHashed(event) && KeyOf(event.name.value, event.argsHash.value) in KeysOf(before) then 1 else 0
  }

  lemma TotalGrows(log: seq<Event>, column: Column)
    requires |log| > 0
    ensures var before, last := log[..|log| - 1], log[|log| - 1];
      Total(BooksOf(log).byTool, column) == Total(BooksOf(before).byTool, column) + Added(before, last, column)
  {
    var before, last := log[..|log| - 1], log[|log| - 1];
    var b := BooksOf(before);
    if last.Call? && last.name.Some? {
      var name := last.name.value;
      TotalUpdate(b.byTool, name, BooksOf(log).byTool[name], column);
      if last.argsHash.Some? {
        SeenAreTheKeys(before, KeyOf(name, last.argsHash.value));
      }
    } else if last.Error? {
      var name := Blamed(b, last.name, last.answers);
      TotalUpdate(b.byTool, name, BooksOf(log).byTool[name], column);
    }
  }

  function NamedCalls(log: seq<Event>): nat {
    if |log| == 0 then 0
    else NamedCalls(log[..|log| - 1]) + (if log[|log| - 1].Call? && log[|log| - 1].name.Some? then 1 else 0)
  }

  /** Nothing is lost or counted twice: the totals are the named calls, the error events, and the hashed
      calls beyond the first with their key. */
  lemma {:induction false} FrictionConserves(log: seq<Event>)
    ensures var table := BooksOf(log).byTool;
      && Total(table, Calls) == NamedCalls(log)
      && Total(table, Errors) == ErrorEvents(log)
      && Total(table, Repeats) + |KeysOf(log)| == HashedCalls(log)
  {
    if |log| > 0 {
      FrictionConserves(log[..|log| - 1]);
      TotalGrows(log, Calls);
      TotalGrows(log, Errors);
      TotalGrows(log, Repeats);
      KeysGrow(log);
    }
  }

  ghost predicate CodesAddUp(entry: ToolFriction) {
    Sum(entry.codes) == entry.errors
  }

  lemma NothingAddsUp(entry: ToolFriction)
    requires |entry.codes| == entry.errors == 0
    ensures CodesAddUp(entry)
  {
  }

  lemma ErrorKeepsCodes(entry: ToolFriction, code: string)
    requires CodesAddUp(entry)
    ensures CodesAddUp(WithError(entry, code))
  {
    SumUpdate(entry.codes, code, CountOf(entry.codes, code) + 1);
  }

  function WithError(entry: ToolFriction, code: string): ToolFriction {
    entry.(errors := entry.errors + 1, codes := entry.codes[code := CountOf(entry.codes, code) + 1])
  }

  /** An event is one more error for at most one tool. */
  lemma EventAddsAnError(b: Books, event: Event, name: string)
    ensures var was, now := Of(b.byTool, name), Of(AfterEvent(b, event).byTool, name);
      if event.Error? && Blamed(b, event.name, event.answers) == name then now == WithError(was, CodeOf(event.code))
      else now.codes == was.codes && now.errors == was.errors
  {
  }

  lemma SameCodesAddUp(was: ToolFriction, now: ToolFriction)
    requires CodesAddUp(was) && now.codes == was.codes && now.errors == was.errors
    ensures CodesAddUp(now)
  {
  }

  lemma EventKeepsCodes(b: Books, event: Event, name: string)
    requires CodesAddUp(Of(b.byTool, name))
    ensures CodesAddUp(Of(AfterEvent(b, event).byTool, name))
  {
    EventAddsAnError(b, event, name);
    if event.Error? && Blamed(b, event.name, event.answers) == name {
      ErrorKeepsCodes(Of(b.byTool, name), CodeOf(event.code));
    } else {
      SameCodesAddUp(Of(b.byTool, name), Of(AfterEvent(b, event).byTool, name));
    }
  }

  /** Each tool's codes add up to its errors. */
  lemma {:induction false} CodesSumToErrors(log: seq<Event>, name: string)
    ensures CodesAddUp(Of(BooksOf(log).byTool, name))
    decreases |log|
  {
    if |log| == 0 {
      NothingAddsUp(Of(BooksOf(log).byTool, name));
    } else {
      CodesSumToErrors(log[..|log| - 1], name);
      EventKeepsCodes(BooksOf(log[..|log| - 1]), log[|log| - 1], name);
    }
  }

  // ---------------------------------------------------------------- each tool's repeats

  /** The keys under which calls of one tool were made. */
  function KeysOfTool(log: seq<Event>, name: string): set<string> {
    set k | 0 <= k < |log| && IsCallOf(log[k], name) && log[k].argsHash.Some? :: KeyOf(name, log[k].argsHash.value)
  }

  function HashedCallsOf(log: seq<Event>, name: string): nat {
    if |log| == 0 then 0
    else
      HashedCallsOf(log[..|log| - 1], name)
      + (if IsCallOf(log[|log| - 1], name) && log[|log| - 1].argsHash.Some? then 1 else 0)
  }

  /** No hash in the log holds a colon, as no hexadecimal digest does. */
  predicate PlainHashes(log: seq<Event>) {
    forall k :: 0 <= k < |log| && IsHashed(log[k]) ==> ':' !in log[k].argsHash.value
  }

  /** The last colon of such a key is the one after the tool's name. */
  lemma LastColon(name: string, hash: string)
    requires ':' !in hash
    ensures var key := KeyOf(name, hash);
      key[|name|] == ':' && forall i :: |name| < i < |key| ==> key[i] != ':'
  {
    var key := KeyOf(name, hash);
    forall i | |name| < i < |key|
      ensures key[i] != ':'
    {
      assert key[i] == hash[i - |name| - 1];
    }
  }

  lemma KeysTell(name: string, hash: string, otherName: string, otherHash: string)
    requires ':' !in hash && ':' !in otherHash
    requires KeyOf(name, hash) == KeyOf(otherName, otherHash)
    ensures name == otherName && hash == otherHash
  {
    var key := KeyOf(name, hash);
    LastColon(name, hash);
    LastColon(otherName, otherHash);
    assert key[..|name|] == name && key[..|otherName|] == otherName;
    assert key[|name| + 1..] == hash && key[|otherName| + 1..] == otherHash;
  }

  lemma ToolKeysGrow(log: seq<Event>, name: string)
    requires |log| > 0
    ensures var last := log[|log| - 1];
      KeysOfTool(log, name) == KeysOfTool(log[..|log| - 1], name)
        + (if IsCallOf(last, name) && last.argsHash.Some? then {KeyOf(name, last.argsHash.value)} else {})
  {
    var before, last := log[..|log| - 1], log[|log| - 1];
    assert log == before + [last];
    forall key | key in KeysOfTool(before, name)
      ensures key in KeysOfTool(log, name)
    {
      var k :| 0 <= k < |before| && IsCallOf(before[k], name) && before[k].argsHash.Some?
        && key == KeyOf(name, before[k].argsHash.value);
      assert log[k] == before[k];
    }
  }

  /** Hashed calls of one tool under a key that only other tools had used before. */
  function Charged(log: seq<Event>, name: string): nat {
    if |log| == 0 then 0
    else
      var before, last := log[..|log| - 1], log[|log| - 1];
      Charged(before, name)
      + (if IsCallOf(last, name) && last.argsHash.Some? && KeyOf(name, last.argsHash.value) in KeysOf(before)
            && KeyOf(name, last.argsHash.value) !in KeysOfTool(before, name) then 1 else 0)
  }

  lemma ToolKeysAreKeys(log: seq<Event>, name: string)
    ensures KeysOfTool(log, name) <= KeysOf(log)
  {
  }

  lemma OneMoreKey(keys: set<string>, key: string)
    ensures |keys + {key}| == |keys| + (if key in keys then 0 else 1)
  {
    if key in keys {
      assert keys + {key} == keys;
    } else {
      assert |keys + {key}| == |keys| + |{key}|;
    }
  }

  /** How the keys of a tool grow in number. */
  lemma ToolKeysCount(log: seq<Event>, name: string)
    requires |log| > 0
    ensures var before, last := log[..|log| - 1], log[|log| - 1];
      |KeysOfTool(log, name)| == |KeysOfTool(before, name)|
        + (if IsCallOf(last, name) && last.argsHash.Some?
              && KeyOf(name, last.argsHash.value) !in KeysOfTool(before, name) then 1 else 0)
  {
    var keys, last := KeysOfTool(log[..|log| - 1], name), log[|log| - 1];
    ToolKeysGrow(log, name);
    if IsCallOf(last, name) && last.argsHash.Some? {
      OneMoreKey(keys, KeyOf(name, last.argsHash.value));
    } else {
      assert keys + {} == keys;
    }
  }

  /** A tool's repeats, in every log: its hashed calls beyond the first with each of its keys, and what it
      is charged for other tools' keys. */
  lemma {:induction false} RepeatsAre(log: seq<Event>, name: string)
    ensures RepeatsOf(log, name) + |KeysOfTool(log, name)| == HashedCallsOf(log, name) + Charged(log, name)
  {
    if |log| > 0 {
      var before := log[..|log| - 1];
      RepeatsAre(before, name);
      ToolKeysCount(log, name);
      ToolKeysAreKeys(before, name);
    }
  }

  /** Two tools have used one key. */
  ghost predicate Shared(log: seq<Event>, key: string, a: string, b: string) {
    a != b && key in KeysOfTool(log, a) && key in KeysOfTool(log, b)
  }

  ghost predicate NoKeyShared(log: seq<Event>) {
    forall key, a, b :: !Shared(log, key, a, b)
  }

  /** The tool that came to the key second is charged for it. */
  lemma {:induction false} SharedIsCharged(log: seq<Event>, key: string, a: string, b: string)
    requires Shared(log, key, a, b)
    ensures Charged(log, a) + Charged(log, b) > 0
  {
    var before := log[..|log| - 1];
    ToolKeysGrow(log, a);
    ToolKeysGrow(log, b);
    if Shared(before, key, a, b) {
      SharedIsCharged(before, key, a, b);
    } else if key in KeysOfTool(before, b) {
      SecondIsCharged(log, key, a, b);
    } else {
      SecondIsCharged(log, key, b, a);
    }
  }

  lemma SecondIsCharged(log: seq<Event>, key: string, name: string, other: string)
    requires |log| > 0 && key in KeysOfTool(log, name) && key !in KeysOfTool(log[..|log| - 1], name)
    requires key in KeysOfTool(log[..|log| - 1], other)
    ensures Charged(log, name) > 0
  {
    ToolKeysGrow(log, name);
    ToolKeysAreKeys(log[..|log| - 1], other);
  }

  /** Every key in a log is some tool's. */
  lemma KeyHasATool(log: seq<Event>, key: string) returns (name: string)
    requires key in KeysOf(log)
    ensures key in KeysOfTool(log, name)
  {
    var k :| 0 <= k < |log| && IsHashed(log[k]) && key == KeyOf(log[k].name.value, log[k].argsHash.value);
    name := log[k].name.value;
    assert IsCallOf(log[k], name);
  }

  lemma SharedStays(log: seq<Event>, key: string, a: string, b: string)
    requires |log| > 0 && Shared(log[..|log| - 1], key, a, b)
    ensures Shared(log, key, a, b)
  {
    ToolKeysGrow(log, a);
    ToolKeysGrow(log, b);
  }

  lemma {:induction false} UnsharedIsNotCharged(log: seq<Event>, name: string)
    requires NoKeyShared(log)
    ensures Charged(log, name) == 0
  {
    if |log| > 0 {
      var before, last := log[..|log| - 1], log[|log| - 1];
      forall key, a, b
        ensures !Shared(before, key, a, b)
      {
        if Shared(before, key, a, b) {
          SharedStays(log, key, a, b);
        }
      }
      UnsharedIsNotCharged(before, name);
      if IsCallOf(last, name) && last.argsHash.Some? && KeyOf(name, last.argsHash.value) in KeysOf(before) {
        var key := KeyOf(name, last.argsHash.value);
        var other := KeyHasATool(before, key);
        ToolKeysGrow(log, name);
        ToolKeysGrow(log, other);
        assert !Shared(log, key, name, other);
      }
    }
  }

  /** The law of a tool's repeats: its hashed calls beyond the first with each of its keys. */
  ghost predicate RepeatsAreItsOwn(log: seq<Event>, name: string) {
    Of(BooksOf(log).byTool, name).repeats + |KeysOfTool(log, name)| == HashedCallsOf(log, name)
  }

  lemma OwnMeansUncharged(log: seq<Event>, name: string)
    ensures RepeatsAreItsOwn(log, name) <==> Charged(log, name) == 0
  {
    CallsAreCounted(log, name);
    RepeatsAre(log, name);
  }

  /** The law holds for every tool exactly when no two tools have used one key. */
  lemma RepeatsAreTheToolsUnlessShared(log: seq<Event>)
    ensures (forall name :: RepeatsAreItsOwn(log, name)) <==> NoKeyShared(log)
  {
    if NoKeyShared(log) {
      forall name
        ensures RepeatsAreItsOwn(log, name)
      {
        UnsharedIsNotCharged(log, name);
        OwnMeansUncharged(log, name);
      }
    } else {
      var key, a, b :| Shared(log, key, a, b);
      SharedIsCharged(log, key, a, b);
      OwnMeansUncharged(log, a);
      OwnMeansUncharged(log, b);
    }
  }

  /** With plain hashes a key belongs to one tool only. */
  lemma PlainHashesShareNoKey(log: seq<Event>)
    requires PlainHashes(log)
    ensures NoKeyShared(log)
  {
    forall key, a, b
      ensures !Shared(log, key, a, b)
    {
      if key in KeysOfTool(log, a) && key in KeysOfTool(log, b) {
        var j :| 0 <= j < |log| && IsCallOf(log[j], a) && log[j].argsHash.Some?
          && key == KeyOf(a, log[j].argsHash.value);
        var k :| 0 <= k < |log| && IsCallOf(log[k], b) && log[k].argsHash.Some?
          && key == KeyOf(b, log[k].argsHash.value);
        KeysTell(a, log[j].argsHash.value, b, log[k].argsHash.value);
      }
    }
  }

  /** So with plain hashes a tool's repeats are its own. */
  lemma RepeatsAreTheTools(log: seq<Event>, name: string)
    requires PlainHashes(log)
    ensures RepeatsAreItsOwn(log, name)
  {
    PlainHashesShareNoKey(log);
    RepeatsAreTheToolsUnlessShared(log);
  }

  /** A colon in a hash can make two tools share a key: then a tool called once is charged a repeat. */
  lemma ColonsCanCollide()
    ensures var log := [Call(Some("a"), None, Some("b:c")), Call(Some("a:b"), None, Some("c"))];
      Of(BooksOf(log).byTool, "a:b").repeats == 1 && CallsOf(log, "a:b") == 1
  {
    var first, second := Call(Some("a"), None, Some("b:c")), Call(Some("a:b"), None, Some("c"));
    var log := [first, second];
    assert KeyOf("a", "b:c") == "a:b:c" == KeyOf("a:b", "c");
    assert log[..1] == [first];
    assert [first][..0] == [];
    assert BooksOf([first]).seenCalls["a:b:c"] == 1;
    CallsAreCounted(log, "a:b");
    assert CallsOf([first], "a:b") == 0;
  }

  // ---------------------------------------------------------------- one log after another

  lemma KeysOfBoth(a: seq<Event>, b: seq<Event>)
    ensures KeysOf(b) <= KeysOf(a + b)
  {
    forall key | key in KeysOf(b)
      ensures key in KeysOf(a + b)
    {
      var k :| 0 <= k < |b| && IsHashed(b[k]) && key == KeyOf(b[k].name.value, b[k].argsHash.value);
      assert (a + b)[|a| + k] == b[k];
    }
  }

  lemma {:induction false} CountsOfBoth(a: seq<Event>, b: seq<Event>, name: string)
    ensures CallsOf(a + b, name) == CallsOf(a, name) + CallsOf(b, name)
    ensures RepeatsOf(a + b, name) >= RepeatsOf(a, name) + RepeatsOf(b, name)
    ensures ErrorEvents(a + b) == ErrorEvents(a) + ErrorEvents(b)
    decreases |b|
  {
    if |b| == 0 {
      assert a + b == a;
    } else {
      var before := b[..|b| - 1];
      assert (a + b)[..|a + b| - 1] == a + before;
      CountsOfBoth(a, before, name);
      KeysOfBoth(a, before);
    }
  }

  /** Two logs one after the other: each tool's calls add, its repeats never fall short of both, and no
      error is lost. */
  lemma LogsAdd(a: seq<Event>, b: seq<Event>, name: string)
    ensures var both, ofA, ofB := BooksOf(a + b).byTool, BooksOf(a).byTool, BooksOf(b).byTool;
      && Of(both, name).calls == Of(ofA, name).calls + Of(ofB, name).calls
      && Of(both, name).repeats >= Of(ofA, name).repeats + Of(ofB, name).repeats
      && Total(both, Errors) == Total(ofA, Errors) + Total(ofB, Errors)
  {
    CallsAreCounted(a + b, name);
    CallsAreCounted(a, name);
    CallsAreCounted(b, name);
    CountsOfBoth(a, b, name);
    FrictionConserves(a + b);
    FrictionConserves(a);
    FrictionConserves(b);
  }

  // ---------------------------------------------------------------- split and merge

  const MCP_TOOL_PREFIX: string := "mcp__"

  method SplitFriction(table: Table) returns (builtin: Table, foreign: Table)
    ensures Halves(table, builtin, foreign)
  {
    builtin, foreign := map[], map[];
    var left := table.Keys;
    while left != {}
      invariant left <= table.Keys
      invariant forall name :: name in foreign <==> name in table && name !in left && MCP_TOOL_PREFIX <= name
      invariant forall name :: name in builtin <==> name in table && name !in left && !(MCP_TOOL_PREFIX <= name)
      invariant Agrees(builtin, table) && Agrees(foreign, table)
      decreases |left|
    {
      var name :| name in left;
      if MCP_TOOL_PREFIX <= name {
        foreign := foreign[name := table[name]];
      } else {
        builtin := builtin[name := table[name]];
      }
      left := left - {name};
    }
  }

  /** Each tool of the table is in one half, with its entry: the foreign ones are those with the prefix. */
  ghost predicate Halves(table: Table, builtin: Table, foreign: Table) {
    && (forall name :: name in foreign <==> name in table && MCP_TOOL_PREFIX <= name)
    && (forall name :: name in builtin <==> name in table && !(MCP_TOOL_PREFIX <= name))
    && Agrees(builtin, table) && Agrees(foreign, table)
  }

  ghost predicate Agrees(part: Table, table: Table) {
    forall name | name in part :: name in table && part[name] == table[name]
  }

  function AddCodes(a: Histogram, b: Histogram): Histogram {
    map code | code in a.Keys + b.Keys :: CountOf(a, code) + CountOf(b, code)
  }

  function Plus(a: ToolFriction, b: ToolFriction): ToolFriction {
    ToolFriction(a.calls + b.calls, a.errors + b.errors, a.repeats + b.repeats, AddCodes(a.codes, b.codes))
  }

  /** Two tables, tool by tool. */
  function Merge(t: Table, u: Table): Table {
    map name | name in t.Keys + u.Keys :: Plus(Of(t, name), Of(u, name))
  }

  function MergeAll(tables: seq<Table>): Table {
    if |tables| == 0 then map[] else Merge(MergeAll(tables[..|tables| - 1]), tables[|tables| - 1])
  }

  /** `a` with the codes of `b` added, except those still `left`. */
  function AddedBut(a: Histogram, b: Histogram, left: set<string>): Histogram {
    map code | code in a.Keys + (b.Keys - left) :: CountOf(a, code) + (if code in left then 0 else CountOf(b, code))
  }

  lemma AddOneCode(a: Histogram, b: Histogram, left: set<string>, code: string)
    requires code in left && code in b
    ensures var done := AddedBut(a, b, left);
      done[code := CountOf(done, code) + b[code]] == AddedBut(a, b, left - {code})
  {
  }

  lemma AddedAll(a: Histogram, b: Histogram)
    ensures AddedBut(a, b, b.Keys) == a && AddedBut(a, b, {}) == AddCodes(a, b)
  {
    assert b.Keys - b.Keys == {} && b.Keys - {} == b.Keys;
  }

  method AddCodesInto(was: Histogram, more: Histogram) returns (codes: Histogram)
    ensures codes == AddCodes(was, more)
  {
    codes := was;
    var left := more.Keys;
    AddedAll(was, more);
    while left != {}
      invariant left <= more.Keys
      invariant codes == AddedBut(was, more, left)
      decreases |left|
    {
      var code :| code in left;
      AddOneCode(was, more, left, code);
      codes := codes[code := CountOf(codes, code) + more[code]];
      left := left - {code};
    }
  }

  method AddInto(entry: ToolFriction, friction: ToolFriction) returns (r: ToolFriction)
    ensures r == Plus(entry, friction)
  {
    var codes := AddCodesInto(entry.codes, friction.codes);
    r := ToolFriction(
      entry.calls + friction.calls, entry.errors + friction.errors, entry.repeats + friction.repeats, codes);
  }

  /** `t` with the tools of `u` merged in, except those still `left`. */
  function MergedBut(t: Table, u: Table, left: set<string>): Table {
    map name | name in t.Keys + (u.Keys - left) ::
      if name in u && name !in left then Plus(Of(t, name), u[name]) else t[name]
  }

  lemma MergeOneTool(t: Table, u: Table, left: set<string>, name: string)
    requires name in left && name in u
    ensures var done := MergedBut(t, u, left);
      Of(done, name) == Of(t, name) && done[name := Plus(Of(t, name), u[name])] == MergedBut(t, u, left - {name})
  {
  }

  lemma MergedNone(t: Table, u: Table)
    ensures MergedBut(t, u, u.Keys) == t
  {
  }

  lemma MergedAt(t: Table, u: Table, name: string)
    requires name in t || name in u
    ensures (if name in u then Plus(Of(t, name), u[name]) else t[name]) == Plus(Of(t, name), Of(u, name))
  {
    if name !in u {
      PlusNothing(t[name], Of(u, name));
    }
  }

  lemma MergedAll(t: Table, u: Table)
    ensures MergedBut(t, u, {}) == Merge(t, u)
  {
    var merged := Merge(t, u);
    assert MergedBut(t, u, {}).Keys == merged.Keys;
    forall name | name in merged
      ensures MergedBut(t, u, {})[name] == merged[name]
    {
      MergedAt(t, u, name);
    }
  }

  method MergeTable(was: Table, table: Table) returns (out: Table)
    ensures out == Merge(was, table)
  {
    out := was;
    var left := table.Keys;
    MergedNone(was, table);
    while left != {}
      invariant left <= table.Keys
      invariant out == MergedBut(was, table, left)
      decreases |left|
    {
      var name :| name in left;
      MergeOneTool(was, table, left, name);
      var entry := AddInto(Of(out, name), table[name]);
      out := out[name := entry];
      left := left - {name};
    }
    MergedAll(was, table);
  }

  method MergeFriction(tables: seq<Table>) returns (out: Table)
    ensures out == MergeAll(tables)
  {
    out := map[];
    for i := 0 to |tables|
      invariant out == MergeAll(tables[..i])
    {
      assert tables[..i + 1][..i] == tables[..i];
      out := MergeTable(out, tables[i]);
    }
    assert tables[..|tables|] == tables;
  }

  lemma PlusNothing(f: ToolFriction, none: ToolFriction)
    requires none.calls == none.errors == none.repeats == |none.codes| == 0
    ensures Plus(f, none) == f == Plus(none, f)
  {
    assert none.codes.Keys == {};
    assert AddCodes(f.codes, none.codes) == f.codes;
    assert AddCodes(none.codes, f.codes) == f.codes;
  }

  lemma PlusCommutes(f: ToolFriction, g: ToolFriction)
    ensures Plus(f, g) == Plus(g, f)
  {
    assert AddCodes(f.codes, g.codes) == AddCodes(g.codes, f.codes);
  }

  lemma AddCodesAssociates(a: Histogram, b: Histogram, c: Histogram)
    ensures AddCodes(AddCodes(a, b), c) == AddCodes(a, AddCodes(b, c))
  {
    var left, right := AddCodes(AddCodes(a, b), c), AddCodes(a, AddCodes(b, c));
    assert left.Keys == right.Keys;
    forall code | code in left
      ensures left[code] == right[code]
    {
    }
  }

  lemma PlusAssociates(f: ToolFriction, g: ToolFriction, h: ToolFriction)
    ensures Plus(Plus(f, g), h) == Plus(f, Plus(g, h))
  {
    AddCodesAssociates(f.codes, g.codes, h.codes);
  }

  lemma MergeAt(t: Table, u: Table, name: string)
    ensures Of(Merge(t, u), name) == Plus(Of(t, name), Of(u, name))
  {
    if name !in t && name !in u {
      PlusNothing(Of(t, name), Of(u, name));
    }
  }

  lemma HalfAt(table: Table, builtin: Table, foreign: Table, name: string)
    requires Halves(table, builtin, foreign) && name in table
    ensures Plus(Of(builtin, name), Of(foreign, name)) == table[name]
  {
    if name in builtin {
      PlusNothing(table[name], Of(foreign, name));
    } else {
      PlusNothing(table[name], Of(builtin, name));
    }
  }

  lemma HalvesMerge(table: Table, builtin: Table, foreign: Table)
    requires Halves(table, builtin, foreign)
    ensures Merge(builtin, foreign) == table
  {
    assert Merge(builtin, foreign).Keys == table.Keys;
    forall name | name in table
      ensures Merge(builtin, foreign)[name] == table[name]
    {
      HalfAt(table, builtin, foreign, name);
    }
  }

  /** Merging the two halves of a split gives the table back. */
  lemma HalvesMergeBack(table: Table, halves: seq<Table>)
    requires |halves| == 2 && Halves(table, halves[0], halves[1])
    ensures MergeAll(halves) == table
  {
    var none := MergeAll(halves[..1][..0]);
    assert halves[..1][0] == halves[0];
    MergeCommutes(none, halves[0]);
    MergeNothing(halves[0], none);
    HalvesMerge(table, halves[0], halves[1]);
  }

  /** Attempts may be merged in any grouping: some first, then the rest, then the two results. */
  lemma {:induction false} MergesMerge(a: seq<Table>, b: seq<Table>)
    ensures MergeAll(a + b) == Merge(MergeAll(a), MergeAll(b))
    decreases |b|
  {
    if |b| == 0 {
      assert a + b == a;
      MergeNothing(MergeAll(a), MergeAll(b));
    } else {
      var before, last := b[..|b| - 1], b[|b| - 1];
      assert (a + b)[..|a + b| - 1] == a + before;
      MergesMerge(a, before);
      MergeAssociates(MergeAll(a), MergeAll(before), last);
    }
  }

  lemma SameTables(t: Table, u: Table)
    requires t.Keys == u.Keys && forall name :: Of(t, name) == Of(u, name)
    ensures t == u
  {
    forall name | name in t
      ensures t[name] == u[name]
    {
      assert Of(t, name) == Of(u, name);
    }
  }

  lemma MergeNothing(t: Table, nothing: Table)
    requires |nothing| == 0
    ensures Merge(t, nothing) == t
  {
    forall name
      ensures Of(Merge(t, nothing), name) == Of(t, name)
    {
      MergeAt(t, nothing, name);
      PlusNothing(Of(t, name), Of(nothing, name));
    }
    assert nothing.Keys == {};
    SameTables(Merge(t, nothing), t);
  }

  lemma MergeAssociatesAt(t: Table, u: Table, v: Table, name: string)
    ensures Of(Merge(Merge(t, u), v), name) == Of(Merge(t, Merge(u, v)), name)
  {
    MergeAt(Merge(t, u), v, name);
    MergeAt(t, u, name);
    MergeAt(t, Merge(u, v), name);
    MergeAt(u, v, name);
    PlusAssociates(Of(t, name), Of(u, name), Of(v, name));
  }

  lemma MergeAssociates(t: Table, u: Table, v: Table)
    ensures Merge(Merge(t, u), v) == Merge(t, Merge(u, v))
  {
    var left, right := Merge(Merge(t, u), v), Merge(t, Merge(u, v));
    assert left.Keys == right.Keys;
    forall name
      ensures Of(left, name) == Of(right, name)
    {
      MergeAssociatesAt(t, u, v, name);
    }
    SameTables(left, right);
  }

  lemma MergeCommutes(t: Table, u: Table)
    ensures Merge(t, u) == Merge(u, t)
  {
    forall name | name in Merge(t, u)
      ensures Merge(t, u)[name] == Merge(u, t)[name]
    {
      PlusCommutes(Of(t, name), Of(u, name));
    }
    assert Merge(t, u).Keys == Merge(u, t).Keys;
  }

  /** `sum` counts each code as often as `a` and `b` together. */
  ghost predicate Adds(sum: Histogram, a: Histogram, b: Histogram) {
    forall code :: CountOf(sum, code) == CountOf(a, code) + CountOf(b, code)
  }

  lemma SumDrop(counts: Histogram, code: string)
    ensures Sum(counts) == CountOf(counts, code) + Sum(counts - {code})
  {
    if code in counts {
      SumWithout(counts, code);
    } else {
      assert counts - {code} == counts;
    }
  }

  lemma {:induction false} SumOfZeros(counts: Histogram)
    requires forall code :: CountOf(counts, code) == 0
    ensures Sum(counts) == 0
    decreases |counts|
  {
    if |counts| > 0 {
      var code := SumTakesOne(counts);
      assert CountOf(counts, code) == 0;
      forall other
        ensures CountOf(counts - {code}, other) == 0
      {
        assert CountOf(counts, other) == 0;
      }
      SumOfZeros(counts - {code});
    }
  }

  lemma DropKeepsAdds(sum: Histogram, a: Histogram, b: Histogram, code: string)
    requires Adds(sum, a, b)
    ensures Adds(sum - {code}, a - {code}, b - {code})
  {
    forall other
      ensures CountOf(sum - {code}, other) == CountOf(a - {code}, other) + CountOf(b - {code}, other)
    {
      assert CountOf(sum, other) == CountOf(a, other) + CountOf(b, other);
    }
  }

  lemma {:induction false} SumAdds(sum: Histogram, a: Histogram, b: Histogram)
    requires Adds(sum, a, b)
    ensures Sum(sum) == Sum(a) + Sum(b)
    decreases |sum|
  {
    if |sum| == 0 {
      forall code
        ensures CountOf(a, code) == 0 && CountOf(b, code) == 0
      {
        assert CountOf(sum, code) == CountOf(a, code) + CountOf(b, code);
      }
      SumOfZeros(sum);
      SumOfZeros(a);
      SumOfZeros(b);
    } else {
      var code := SumTakesOne(sum);
      DropKeepsAdds(sum, a, b, code);
      SumAdds(sum - {code}, a - {code}, b - {code});
      SumDrop(a, code);
      SumDrop(b, code);
      assert CountOf(sum, code) == CountOf(a, code) + CountOf(b, code);
    }
  }

  lemma CountAt(t: Table, column: Column, name: string)
    ensures CountOf(Counts(t, column), name) == At(Of(t, name), column)
  {
  }

  lemma PlusAdds(f: ToolFriction, g: ToolFriction, column: Column)
    ensures At(Plus(f, g), column) == At(f, column) + At(g, column)
  {
  }

  lemma MergeAdds(t: Table, u: Table, column: Column, name: string)
    ensures At(Of(Merge(t, u), name), column) == At(Of(t, name), column) + At(Of(u, name), column)
  {
    if name in t || name in u {
      PlusAdds(Of(t, name), Of(u, name), column);
      assert Merge(t, u)[name] == Plus(Of(t, name), Of(u, name));
    } else {
      assert name !in Merge(t, u);
    }
  }

  /** When one table's entries add up two others', so does its column. */
  lemma TotalsAdd(merged: Table, t: Table, u: Table, column: Column)
    requires forall name :: At(Of(merged, name), column) == At(Of(t, name), column) + At(Of(u, name), column)
    ensures Total(merged, column) == Total(t, column) + Total(u, column)
  {
    forall name
      ensures CountOf(Counts(merged, column), name)
        == CountOf(Counts(t, column), name) + CountOf(Counts(u, column), name)
    {
      CountAt(merged, column, name);
      CountAt(t, column, name);
      CountAt(u, column, name);
    }
    SumAdds(Counts(merged, column), Counts(t, column), Counts(u, column));
  }

  /** Merging loses no call, error or repeat. */
  lemma MergeAddsTotals(t: Table, u: Table, column: Column)
    ensures Total(Merge(t, u), column) == Total(t, column) + Total(u, column)
  {
    forall name
      ensures At(Of(Merge(t, u), name), column) == At(Of(t, name), column) + At(Of(u, name), column)
    {
      MergeAdds(t, u, column, name);
    }
    TotalsAdd(Merge(t, u), t, u, column);
  }

  // ---------------------------------------------------------------- what a merge counts

  /** What some tables count for one tool in one column, taken together. */
  function Across(tables: seq<Table>, name: string, column: Column): nat {
    if |tables| == 0 then 0
    else Across(tables[..|tables| - 1], name, column) + At(Of(tables[|tables| - 1], name), column)
  }

  /** And how often they count one of its error codes. */
  function CodeAcross(tables: seq<Table>, name: string, code: string): nat {
    if |tables| == 0 then 0
    else CodeAcross(tables[..|tables| - 1], name, code) + CountOf(Of(tables[|tables| - 1], name).codes, code)
  }

  lemma CodesCount(a: Histogram, b: Histogram, code: string)
    ensures CountOf(AddCodes(a, b), code) == CountOf(a, code) + CountOf(b, code)
  {
  }

  lemma PlusCounts(f: ToolFriction, g: ToolFriction, sum: ToolFriction, code: string)
    requires sum == Plus(f, g)
    ensures CountOf(sum.codes, code) == CountOf(f.codes, code) + CountOf(g.codes, code)
  {
    CodesCount(f.codes, g.codes, code);
  }

  lemma MergeAddsCode(t: Table, u: Table, merged: Table, name: string, code: string)
    requires merged == Merge(t, u)
    ensures CountOf(Of(merged, name).codes, code) == CountOf(Of(t, name).codes, code) + CountOf(Of(u, name).codes, code)
  {
    MergeAt(t, u, name);
    PlusCounts(Of(t, name), Of(u, name), Of(merged, name), code);
  }

  lemma {:induction false} MergeCountsColumns(tables: seq<Table>, name: string, column: Column)
    ensures At(Of(MergeAll(tables), name), column) == Across(tables, name, column)
  {
    if |tables| == 0 {
      assert MergeAll(tables) == map[];
    } else {
      MergeCountsColumns(tables[..|tables| - 1], name, column);
      MergeAdds(MergeAll(tables[..|tables| - 1]), tables[|tables| - 1], column, name);
    }
  }

  lemma {:induction false} MergeCountsCodes(tables: seq<Table>, name: string, code: string)
    ensures CountOf(Of(MergeAll(tables), name).codes, code) == CodeAcross(tables, name, code)
  {
    if |tables| > 0 {
      MergeCountsCodes(tables[..|tables| - 1], name, code);
      MergeAddsCode(MergeAll(tables[..|tables| - 1]), tables[|tables| - 1], MergeAll(tables), name, code);
    }
  }

  /** The merge of some tables counts for each tool, column and code what they count together. */
  lemma MergeCounts(tables: seq<Table>, name: string, column: Column, code: string)
    ensures At(Of(MergeAll(tables), name), column) == Across(tables, name, column)
    ensures CountOf(Of(MergeAll(tables), name).codes, code) == CodeAcross(tables, name, code)
  {
    MergeCountsColumns(tables, name, column);
    MergeCountsCodes(tables, name, code);
  }

  lemma PlusKeepsCodes(f: ToolFriction, g: ToolFriction)
    requires CodesAddUp(f) && CodesAddUp(g)
    ensures CodesAddUp(Plus(f, g))
  {
    forall code
      ensures CountOf(Plus(f, g).codes, code) == CountOf(f.codes, code) + CountOf(g.codes, code)
    {
      CodesCount(f.codes, g.codes, code);
    }
    SumAdds(Plus(f, g).codes, f.codes, g.codes);
  }

  /** A tool's codes still add up to its errors in the merge, when they do in every table. */
  lemma {:induction false} MergeKeepsCodes(tables: seq<Table>, name: string)
    requires forall k :: 0 <= k < |tables| ==> CodesAddUp(Of(tables[k], name))
    ensures CodesAddUp(Of(MergeAll(tables), name))
  {
    if |tables| == 0 {
      NothingAddsUp(Of(MergeAll(tables), name));
    } else {
      var before, last := tables[..|tables| - 1], tables[|tables| - 1];
      MergeKeepsCodes(before, name);
      MergeAt(MergeAll(before), last, name);
      PlusKeepsCodes(Of(MergeAll(before), name), Of(last, name));
    }
  }
}
