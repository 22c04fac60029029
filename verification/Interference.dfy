/**
 * The trap that changes a file between a model's read and its edit
 * (evals/experiments/interference.ts), and why it always produces the refusal it is for.
 *
 * `Trap` is the wrapper around the tools. `World` adds what it works against: the target's
 * contents and the receipts issued for it. A call may cite any receipt issued so far, and lands on
 * the target only if that receipt matches what the target now holds.
 */
module Interference {
  import opened Strings

  datatype Plan = Plan(target: string, becomes: nat -> string, armAfter: nat)

  datatype Log = Log(
    fired: nat,
    observedStaleRefusal: bool,
    mutationsLanded: nat,
    mutationsBeforeFirstFiring: Option<nat>
  )

  /** The log, and what the target file holds. */
  datatype Scene = Scene(log: Log, file: string)

  datatype Answer = Stale | Failed | Landed

  // ---------------------------------------------------------------- the wrapper

  function EndsWith(s: string, suffix: string): bool {
    |suffix| <= |s| && s[|s| - |suffix|..] == suffix
  }

  /** The file changed underneath the model, and recorded. */
  function Fired(plan: Plan, s: Scene): Scene {
    var log := s.log;
    var before := if log.mutationsBeforeFirstFiring.None?
      then Some(log.mutationsLanded) else log.mutationsBeforeFirstFiring;
    Scene(log.(fired := log.fired + 1, mutationsBeforeFirstFiring := before), plan.becomes(log.fired + 1))
  }

  predicate Armed(plan: Plan, log: Log) {
    !log.observedStaleRefusal && log.mutationsLanded >= plan.armAfter
  }

  /** After a read has executed. */
  function AfterRead(plan: Plan, s: Scene, requested: Option<string>, failed: bool): Scene {
    if Armed(plan, s.log) && !failed && requested.Some? && EndsWith(requested.value, plan.target)
    then Fired(plan, s) else s
  }

  /** After a mutating call has executed. */
  function AfterMutation(plan: Plan, s: Scene, answer: Answer): Scene {
    match answer
    case Stale => s.(log := s.log.(observedStaleRefusal := true))
    case Failed => s
    case Landed =>
      var t := s.(log := s.log.(mutationsLanded := s.log.mutationsLanded + 1));
      if plan.armAfter > 0 && !t.log.observedStaleRefusal && t.log.mutationsLanded == plan.armAfter
      then Fired(plan, t) else t
  }

  class Trap {
    const plan: Plan
    var fired: nat
    var observedStaleRefusal: bool
    var mutationsLanded: nat
    var mutationsBeforeFirstFiring: Option<nat>
    var file: string

    ghost function Now(): Scene
      reads this
    {
      Scene(Log(fired, observedStaleRefusal, mutationsLanded, mutationsBeforeFirstFiring), file)
    }

    constructor (plan: Plan, file: string)
      ensures this.plan == plan && Now() == Scene(Log(0, false, 0, None), file)
    {
      this.plan, this.file := plan, file;
      fired, observedStaleRefusal, mutationsLanded, mutationsBeforeFirstFiring := 0, false, 0, None;
    }

    method Fire()
      modifies this
      ensures Now() == Fired(plan, old(Now()))
    {
      fired := fired + 1;
      if mutationsBeforeFirstFiring.None? {
        mutationsBeforeFirstFiring := Some(mutationsLanded);
      }
      file := plan.becomes(fired);
    }

    method ReadExecuted(requested: Option<string>, failed: bool)
      modifies this
      ensures Now() == AfterRead(plan, old(Now()), requested, failed)
    {
      var armed := !observedStaleRefusal && !failed && mutationsLanded >= plan.armAfter;
      if armed && requested.Some? && EndsWith(requested.value, plan.target) {
        Fire();
      }
    }

    method MutationExecuted(answer: Answer)
      modifies this
      ensures Now() == AfterMutation(plan, old(Now()), answer)
    {
      if answer.Stale? {
        observedStaleRefusal := true;
        return;
      }
      if answer.Failed? {
        return;
      }
      mutationsLanded := mutationsLanded + 1;
      if plan.armAfter > 0 && !observedStaleRefusal && mutationsLanded == plan.armAfter {
        Fire();
      }
    }
  }

  // ---------------------------------------------------------------- the world around it

  /** The scene, and every receipt issued for the target, as the contents it was issued for. */
  datatype World = World(scene: Scene, issued: set<string>)

  datatype Event =
    | ReadCall(requested: Option<string>, onTarget: bool, failed: bool)
    | Mutation(onTarget: bool, cites: Option<string>, leaves: string, answer: Answer)

  /** What the tool itself does, before the wrapper looks at its result. */
  function Inner(w: World, e: Event): World {
    match e
    case ReadCall(_, onTarget, failed) =>
      if onTarget && !failed then w.(issued := w.issued + {w.scene.file}) else w
    case Mutation(onTarget, _, leaves, answer) =>
      if onTarget && answer.Landed? then World(w.scene.(file := leaves), w.issued + {leaves}) else w
  }

  function Step(plan: Plan, w: World, e: Event): World {
    var t := Inner(w, e);
    match e
    case ReadCall(requested, _, failed) => t.(scene := AfterRead(plan, t.scene, requested, failed))
    case Mutation(_, _, _, answer) => t.(scene := AfterMutation(plan, t.scene, answer))
  }

  /** A call that cites a receipt lands on the target only if the receipt is one issued and still matches. */
  ghost predicate ReceiptsGuard(w: World, e: Event) {
    e.Mutation? && e.onTarget && e.answer.Landed? ==>
      e.cites.Some? && e.cites.value in w.issued && e.cites.value == w.scene.file
  }

  /** The target is always read under a path the trap recognises. */
  ghost predicate KnownPath(plan: Plan, e: Event) {
    e.ReadCall? && e.onTarget && !e.failed ==> e.requested.Some? && EndsWith(e.requested.value, plan.target)
  }

  /** The bytes the trap would write next are none a receipt has been issued for. */
  ghost predicate FreshBytes(plan: Plan, w: World, e: Event) {
    plan.becomes(w.scene.log.fired + 1) !in Inner(w, e).issued
  }

  ghost predicate Legal(plan: Plan, w: World, e: Event) {
    ReceiptsGuard(w, e) && KnownPath(plan, e) && FreshBytes(plan, w, e)
  }

  ghost predicate LegalRun(plan: Plan, w: World, run: seq<Event>)
    decreases |run|
  {
    run == [] || (Legal(plan, w, run[0]) && LegalRun(plan, Step(plan, w, run[0]), run[1..]))
  }

  function After(plan: Plan, w: World, run: seq<Event>): World
    decreases |run|
  {
    if run == [] then w else After(plan, Step(plan, w, run[0]), run[1..])
  }

  function Start(file: string): World {
    World(Scene(Log(0, false, 0, None), file), {})
  }

  // ---------------------------------------------------------------- what the trap keeps

  /** While the trap is set, no receipt anyone holds matches the file. */
  ghost predicate Sprung(plan: Plan, w: World) {
    Armed(plan, w.scene.log) ==> w.scene.file !in w.issued
  }

  /** It has fired if and only if it says when, and never before enough work had landed. */
  ghost predicate FiredInTime(plan: Plan, log: Log) {
    && (log.fired > 0 <==> log.mutationsBeforeFirstFiring.Some?)
    && (log.mutationsBeforeFirstFiring.Some?
      ==> plan.armAfter <= log.mutationsBeforeFirstFiring.value <= log.mutationsLanded)
  }

  ghost predicate Invariant(plan: Plan, w: World) {
    Sprung(plan, w) && FiredInTime(plan, w.scene.log)
  }

  lemma StepKeepsInvariant(plan: Plan, w: World, e: Event)
    requires Invariant(plan, w) && Legal(plan, w, e)
    ensures Invariant(plan, Step(plan, w, e))
  {
  }

  lemma {:induction false} RunKeepsInvariant(plan: Plan, w: World, run: seq<Event>)
    requires Invariant(plan, w) && LegalRun(plan, w, run)
    ensures Invariant(plan, After(plan, w, run))
    decreases |run|
  {
    if run != [] {
      StepKeepsInvariant(plan, w, run[0]);
      RunKeepsInvariant(plan, Step(plan, w, run[0]), run[1..]);
    }
  }

  /**
   * Main result, for every run in whatever order reads and edits come: once the threshold is
   * reached, no call lands on the target until a stale refusal has been observed, and the first
   * firing came with at least the threshold's work at stake.
   */
  lemma TrapAlwaysBites(plan: Plan, file: string, run: seq<Event>, e: Event)
    requires LegalRun(plan, Start(file), run)
    requires Legal(plan, After(plan, Start(file), run), e)
    ensures var log := After(plan, Start(file), run).scene.log;
      && FiredInTime(plan, log)
      && (!Refused(run) && LandedIn(run) >= plan.armAfter ==> !IsLanding(e))
  {
    RunKeepsInvariant(plan, Start(file), run);
    ArmedUntilRefused(plan, file, run);
  }

  /** Whatever is cited while the trap is set does not match, so the refusal cannot be dodged. */
  lemma EveryReceiptIsStale(plan: Plan, file: string, run: seq<Event>, receipt: string)
    requires LegalRun(plan, Start(file), run)
    requires !Refused(run) && LandedIn(run) >= plan.armAfter
    requires receipt in After(plan, Start(file), run).issued
    ensures receipt != After(plan, Start(file), run).scene.file
  {
    RunKeepsInvariant(plan, Start(file), run);
    ArmedUntilRefused(plan, file, run);
  }

  // ---------------------------------------------------------------- after the refusal

  /** A mutating call that was answered as stale. */
  predicate IsRefusal(e: Event) {
    e.Mutation? && e.answer.Stale?
  }

  /** An edit of the target that landed. */
  predicate IsLanding(e: Event) {
    e.Mutation? && e.onTarget && e.answer.Landed?
  }

  predicate Refused(run: seq<Event>) {
    exists k :: 0 <= k < |run| && IsRefusal(run[k])
  }

  function LandedIn(run: seq<Event>): nat {
    if run == [] then 0
    else (if run[0].Mutation? && run[0].answer.Landed? then 1 else 0) + LandedIn(run[1..])
  }

  lemma {:induction false} AfterConcat(plan: Plan, w: World, a: seq<Event>, b: seq<Event>)
    ensures After(plan, w, a + b) == After(plan, After(plan, w, a), b)
    decreases |a|
  {
    if a == [] {
      assert a + b == b;
    } else {
      assert (a + b)[1..] == a[1..] + b;
      AfterConcat(plan, Step(plan, w, a[0]), a[1..], b);
    }
  }

  /** The flag says exactly whether a call has been refused as stale, and each landing is counted once. */
  lemma {:induction false} LogIsOfTheRun(plan: Plan, w: World, run: seq<Event>)
    ensures var log := After(plan, w, run).scene.log;
      && (log.observedStaleRefusal <==> w.scene.log.observedStaleRefusal || Refused(run))
      && log.mutationsLanded == w.scene.log.mutationsLanded + LandedIn(run)
    decreases |run|
  {
    if run != [] {
      LogIsOfTheRun(plan, Step(plan, w, run[0]), run[1..]);
      assert forall k :: 0 <= k < |run| - 1 ==> run[1..][k] == run[k + 1];
      assert Refused(run) <==> IsRefusal(run[0]) || Refused(run[1..]);
    }
  }

  /** Once it is set, the trap never fires again, and nothing but a landed edit changes the file. */
  lemma {:induction false} QuietFrom(plan: Plan, w: World, run: seq<Event>)
    requires w.scene.log.observedStaleRefusal
    ensures var r := After(plan, w, run).scene;
      && r.log.fired == w.scene.log.fired
      && r.log.mutationsBeforeFirstFiring == w.scene.log.mutationsBeforeFirstFiring
      && ((forall k :: 0 <= k < |run| ==> !IsLanding(run[k])) ==> r.file == w.scene.file)
    decreases |run|
  {
    if run != [] {
      assert forall k :: 0 <= k < |run[1..]| ==> run[1..][k] == run[k + 1];
      LogIsOfTheRun(plan, w, run[..1]);
      QuietFrom(plan, Step(plan, w, run[0]), run[1..]);
    }
  }

  /**
   * A stale answer anywhere in a run disarms the trap for good: the firings are those counted when it
   * came, and after it nothing but a landed edit changes the file.
   */
  lemma DisarmedForGood(plan: Plan, file: string, run: seq<Event>, k: nat)
    requires k < |run| && IsRefusal(run[k])
    ensures var before, r := After(plan, Start(file), run[..k]).scene, After(plan, Start(file), run).scene;
      && r.log.observedStaleRefusal && !Armed(plan, r.log)
      && r.log.fired == before.log.fired
      && ((forall i :: k < i < |run| ==> !IsLanding(run[i])) ==> r.file == before.file)
  {
    var w := After(plan, Start(file), run[..k]);
    var t := Step(plan, w, run[k]);
    assert run == run[..k] + run[k..] && run[k..] == [run[k]] + run[k + 1..];
    AfterConcat(plan, Start(file), run[..k], run[k..]);
    assert After(plan, w, run[k..]) == After(plan, t, run[k + 1..]);
    QuietFrom(plan, t, run[k + 1..]);
    LogIsOfTheRun(plan, t, run[k + 1..]);
  }

  /** Without one it stays set: armed as soon as the threshold's work has landed. */
  lemma ArmedUntilRefused(plan: Plan, file: string, run: seq<Event>)
    ensures Armed(plan, After(plan, Start(file), run).scene.log) <==> !Refused(run) && LandedIn(run) >= plan.armAfter
  {
    LogIsOfTheRun(plan, Start(file), run);
  }

  // ---------------------------------------------------------------- when it fires

  /** The last call of a run is one the trap fires on, said of the run alone. */
  ghost predicate FiresLast(plan: Plan, run: seq<Event>)
    requires run != []
  {
    var before, e := run[..|run| - 1], run[|run| - 1];
    && !Refused(before)
    && match e
       case ReadCall(requested, _, failed) =>
         && !failed && requested.Some? && EndsWith(requested.value, plan.target)
         && LandedIn(before) >= plan.armAfter
       case Mutation(_, _, _, answer) => answer.Landed? && LandedIn(before) + 1 == plan.armAfter
  }

  ghost function FiringsIn(plan: Plan, run: seq<Event>): nat {
    if run == [] then 0 else FiringsIn(plan, run[..|run| - 1]) + (if FiresLast(plan, run) then 1 else 0)
  }

  /** The work that had landed when it first fired. */
  ghost function StakeOf(plan: Plan, run: seq<Event>): Option<nat> {
    if run == [] then None
    else
      var before := StakeOf(plan, run[..|run| - 1]);
      if before.None? && FiresLast(plan, run) then Some(LandedIn(run)) else before
  }

  lemma LastStep(plan: Plan, w: World, run: seq<Event>)
    requires run != []
    ensures After(plan, w, run) == Step(plan, After(plan, w, run[..|run| - 1]), run[|run| - 1])
  {
    var before, e := run[..|run| - 1], run[|run| - 1];
    assert run == before + [e];
    AfterConcat(plan, w, before, [e]);
    assert [e][1..] == [];
  }

  /** The log counts those calls and no others; each leaves the bytes of its number, and the first is the one dated. */
  lemma {:induction false} FiringsAreCounted(plan: Plan, file: string, run: seq<Event>)
    ensures var s, n := After(plan, Start(file), run).scene, FiringsIn(plan, run);
      && s.log.fired == n
      && (run != [] && FiresLast(plan, run) ==> s.file == plan.becomes(n))
      && s.log.mutationsBeforeFirstFiring == StakeOf(plan, run)
  {
    if run != [] {
      var before := run[..|run| - 1];
      FiringsAreCounted(plan, file, before);
      LogIsOfTheRun(plan, Start(file), before);
      LogIsOfTheRun(plan, Start(file), run);
      LastStep(plan, Start(file), run);
    }
  }

  /** After the refusal work can go on: reading again gives a receipt that an edit may land on. */
  lemma RereadThenEditLands(plan: Plan, file: string, run: seq<Event>, requested: string, leaves: string)
    requires Refused(run)
    ensures var w := After(plan, Start(file), run);
      var reread := ReadCall(Some(requested), true, false);
      var t := Step(plan, w, reread);
      var edit := Mutation(true, Some(w.scene.file), leaves, Landed);
      && ReceiptsGuard(t, edit)
      && Step(plan, t, edit).scene.file == leaves
  {
    LogIsOfTheRun(plan, Start(file), run);
  }

  /**
   * The path condition is exactly what the read trigger needs: a successful read of the target by an
   * armed trap leaves a matching receipt behind exactly when its path does not end with the target's.
   */
  lemma UnknownPathDodgesTheTrap(plan: Plan, w: World, requested: string)
    requires Armed(plan, w.scene.log) && FreshBytes(plan, w, ReadCall(Some(requested), true, false))
    ensures var t := Step(plan, w, ReadCall(Some(requested), true, false));
      t.scene.file in t.issued <==> !EndsWith(requested, plan.target)
  {
  }
}
