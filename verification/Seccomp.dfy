/**
 * The filter `apply_seccomp` compiles (native/mycoder-sandbox.c), run by a classic BPF machine.
 *
 * The machine is the part of BPF the filter uses: load a word of the system call's data, jump
 * forward on equality, return. The program means its deny list for every list short enough that
 * the distance to the last instruction fits the 8-bit jump field, and for no longer one.
 */
module Seccomp {

  type U32 = n: nat | n < 0x1_0000_0000
  type U8 = n: nat | n < 256

  const SECCOMP_RET_ALLOW: U32 := 0x7fff0000
  const SECCOMP_RET_ERRNO: U32 := 0x00050000
  const EACCES: U32 := 13
  const DENIED: U32 := SECCOMP_RET_ERRNO + EACCES

  /** The fields of the data a filter reads. */
  datatype Field = Nr | Arch

  datatype Insn =
    | Load(field: Field)
    | JumpIfEqual(k: U32, jt: U8, jf: U8)
    | Return(k: U32)

  datatype Call = Call(nr: U32, arch: U32)

  function Read(call: Call, field: Field): U32 {
    match field
    case Nr => call.nr
    case Arch => call.arch
  }

  datatype Verdict = Verdict(action: U32) | RanOff

  /** Run from instruction `pc` with accumulator `acc`. Jumps only go forward. */
  function Run(program: seq<Insn>, call: Call, pc: nat, acc: U32): Verdict
    decreases |program| - pc
  {
    if pc >= |program| then RanOff
    else match program[pc]
      case Load(field) => Run(program, call, pc + 1, Read(call, field))
      case JumpIfEqual(k, jt, jf) => Run(program, call, pc + 1 + (if acc == k then jt else jf), acc)
      case Return(k) => Verdict(k)
  }

  // ---------------------------------------------------------------- the program

  /** The jump of the comparison for entry `i`: over those left and the allow, as an 8-bit field holds it. */
  function ToDeny(denied: nat, i: nat): U8
    requires i < denied
  {
    (denied - i) % 256
  }

  function Comparison(denied: seq<U32>, i: nat): Insn
    requires i < |denied|
  {
    JumpIfEqual(denied[i], ToDeny(|denied|, i), 0)
  }

  function Comparisons(denied: seq<U32>): (r: seq<Insn>)
    ensures |r| == |denied|
  {
    seq(|denied|, i requires 0 <= i < |denied| => Comparison(denied, i))
  }

  function Program(arch: U32, denied: seq<U32>): (program: seq<Insn>)
    ensures |program| == |denied| + 6
  {
    [Load(Arch), JumpIfEqual(arch, 1, 0), Return(DENIED), Load(Nr)]
    + Comparisons(denied)
    + [Return(SECCOMP_RET_ALLOW), Return(DENIED)]
  }

  /**
   * The filter array filled with a running index, as the launcher fills it. The array is large
   * enough: two of its slots are never written.
   */
  method BuildFilter(arch: U32, denied: seq<U32>) returns (filter: array<Insn>, n: nat)
    ensures fresh(filter)
    ensures filter.Length == |denied| + 8 && n == |denied| + 6
    ensures filter[..n] == Program(arch, denied)
  {
    filter := new Insn[8 + |denied|](_ => Return(0));
    n := 0;
    filter[n] := Load(Arch);
    n := n + 1;
    filter[n] := JumpIfEqual(arch, 1, 0);
    n := n + 1;
    filter[n] := Return(DENIED);
    n := n + 1;
    filter[n] := Load(Nr);
    n := n + 1;
    for i := 0 to |denied|
      invariant n == 4 + i
      invariant filter[..4] == [Load(Arch), JumpIfEqual(arch, 1, 0), Return(DENIED), Load(Nr)]
      invariant forall k :: 0 <= k < i ==> filter[4 + k] == Comparison(denied, k)
    {
      filter[n] := JumpIfEqual(denied[i], ToDeny(|denied|, i), 0);
      n := n + 1;
    }
    filter[n] := Return(SECCOMP_RET_ALLOW);
    n := n + 1;
    filter[n] := Return(DENIED);
    n := n + 1;
    assert filter[4..4 + |denied|] == Comparisons(denied);
    assert filter[..n] == filter[..4] + filter[4..4 + |denied|] + [filter[n - 2], filter[n - 1]];
  }

  // ---------------------------------------------------------------- what the program means

  /** Each place in the program, by its index. */
  lemma ProgramAt(arch: U32, denied: seq<U32>)
    ensures var p, d := Program(arch, denied), |denied|;
      && p[0] == Load(Arch) && p[1] == JumpIfEqual(arch, 1, 0) && p[2] == Return(DENIED) && p[3] == Load(Nr)
      && (forall i :: 4 <= i < 4 + d ==> p[i] == Comparison(denied, i - 4))
      && p[4 + d] == Return(SECCOMP_RET_ALLOW) && p[5 + d] == Return(DENIED)
  {
  }

  /** From the comparison for entry `i` on, a listed number reaches the deny and any other the allow. */
  lemma {:induction false} ComparisonsDecide(arch: U32, denied: seq<U32>, call: Call, i: nat)
    requires i <= |denied| <= i + 255
    ensures Run(Program(arch, denied), call, 4 + i, call.nr)
         == Verdict(if call.nr in denied[i..] then DENIED else SECCOMP_RET_ALLOW)
    decreases |denied| - i
  {
    ProgramAt(arch, denied);
    if i < |denied| {
      ComparisonsDecide(arch, denied, call, i + 1);
      assert denied[i..] == [denied[i]] + denied[i + 1..];
      assert ToDeny(|denied|, i) == |denied| - i;
    }
  }

  /** The entries whose jump fits in a byte: the last 255. */
  function Reached(denied: seq<U32>): seq<U32> {
    if |denied| <= 255 then denied else denied[|denied| - 255..]
  }

  /** Before those, a comparison that matches jumps forward, but no further than their first. */
  lemma {:induction false} FallsToReached(arch: U32, denied: seq<U32>, call: Call, i: nat)
    requires i + 255 <= |denied|
    ensures Run(Program(arch, denied), call, 4 + i, call.nr)
         == Run(Program(arch, denied), call, 4 + (|denied| - 255), call.nr)
    decreases |denied| - i
  {
    ProgramAt(arch, denied);
    if i + 255 < |denied| {
      var jump := if denied[i] == call.nr then ToDeny(|denied|, i) else 0;
      assert ToDeny(|denied|, i) <= |denied| - i - 256;
      assert Program(arch, denied)[4 + i] == Comparison(denied, i);
      FallsToReached(arch, denied, call, i + 1 + jump);
    }
  }

  lemma ComparisonsReach(arch: U32, denied: seq<U32>, call: Call)
    ensures Run(Program(arch, denied), call, 4, call.nr)
         == Verdict(if call.nr in Reached(denied) then DENIED else SECCOMP_RET_ALLOW)
  {
    if |denied| <= 255 {
      ComparisonsDecide(arch, denied, call, 0);
      assert denied[0..] == denied;
    } else {
      FallsToReached(arch, denied, call, 0);
      ComparisonsDecide(arch, denied, call, |denied| - 255);
    }
  }

  /** What the filter means for a list of any length: it allows the calls of its own architecture that are
      not among the last 255 entries. */
  lemma FilterMeansTheLast255(arch: U32, denied: seq<U32>, call: Call)
    ensures Run(Program(arch, denied), call, 0, 0)
         == Verdict(if call.arch == arch && call.nr !in Reached(denied) then SECCOMP_RET_ALLOW else DENIED)
  {
    ProgramAt(arch, denied);
    var p := Program(arch, denied);
    assert Run(p, call, 0, 0) == Run(p, call, 1, call.arch);
    if call.arch == arch {
      assert Run(p, call, 1, call.arch) == Run(p, call, 3, call.arch) == Run(p, call, 4, call.nr);
      ComparisonsReach(arch, denied, call);
    } else {
      assert Run(p, call, 1, call.arch) == Run(p, call, 2, call.arch);
    }
  }

  /**
   * Main result: for every architecture, system call and list of at most 255 numbers, the filter
   * allows exactly the calls of its own architecture that are not listed, and denies the rest.
   */
  lemma FilterMeansTheList(arch: U32, denied: seq<U32>, call: Call)
    requires |denied| <= 255
    ensures Run(Program(arch, denied), call, 0, 0)
         == Verdict(if call.arch == arch && call.nr !in denied then SECCOMP_RET_ALLOW else DENIED)
  {
    FilterMeansTheLast255(arch, denied, call);
  }

  /** What the kernel checks before it accepts a filter: every jump lands inside, the end is a return. */
  ghost predicate Accepted(program: seq<Insn>) {
    && program != [] && program[|program| - 1].Return?
    && forall pc :: 0 <= pc < |program| && program[pc].JumpIfEqual? ==>
         pc + 1 + program[pc].jt < |program| && pc + 1 + program[pc].jf < |program|
  }

  lemma FilterIsAccepted(arch: U32, denied: seq<U32>)
    ensures Accepted(Program(arch, denied))
  {
    ProgramAt(arch, denied);
    var p := Program(arch, denied);
    forall pc | 0 <= pc < |p| && p[pc].JumpIfEqual? ensures pc + 1 + p[pc].jt < |p| && pc + 1 + p[pc].jf < |p| {
      if pc >= 4 {
        assert p[pc] == Comparison(denied, pc - 4);
        assert ToDeny(|denied|, pc - 4) <= |denied| - (pc - 4);
      }
    }
  }

  ghost predicate Distinct(xs: seq<U32>) {
    forall i, j :: 0 <= i < j < |xs| ==> xs[i] != xs[j]
  }

  ghost predicate MeansTheList(arch: U32, denied: seq<U32>) {
    forall call :: Run(Program(arch, denied), call, 0, 0)
                == Verdict(if call.arch == arch && call.nr !in denied then SECCOMP_RET_ALLOW else DENIED)
  }

  /** An entry that is not among the last 255 is let through though it is listed. */
  lemma LongListLetsOneThrough(arch: U32, denied: seq<U32>, x: U32)
    requires x in denied && x !in Reached(denied)
    ensures Run(Program(arch, denied), Call(x, arch), 0, 0) == Verdict(SECCOMP_RET_ALLOW)
  {
    FilterMeansTheLast255(arch, denied, Call(x, arch));
  }

  /** A list is what its filter means exactly when every entry stands among the last 255. */
  lemma MeansTheListWhenReached(arch: U32, denied: seq<U32>)
    ensures MeansTheList(arch, denied) <==> forall x :: x in denied ==> x in Reached(denied)
  {
    if forall x :: x in denied ==> x in Reached(denied) {
      forall call
        ensures Run(Program(arch, denied), call, 0, 0)
             == Verdict(if call.arch == arch && call.nr !in denied then SECCOMP_RET_ALLOW else DENIED)
      {
        FilterMeansTheLast255(arch, denied, call);
        assert call.nr in Reached(denied) ==> call.nr in denied;
      }
    } else {
      var x :| x in denied && x !in Reached(denied);
      LongListLetsOneThrough(arch, denied, x);
      assert Run(Program(arch, denied), Call(x, arch), 0, 0) != Verdict(DENIED);
    }
  }

  /** Without repetition that is when it has at most 255 entries. */
  lemma MeansTheListUpTo255(arch: U32, denied: seq<U32>)
    requires Distinct(denied)
    ensures MeansTheList(arch, denied) <==> |denied| <= 255
  {
    MeansTheListWhenReached(arch, denied);
    if |denied| > 255 {
      assert denied[0] in denied && denied[0] !in Reached(denied);
    }
  }
}
