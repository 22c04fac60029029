/**
 * The native launcher's plan reader and step order (native/mycoder-sandbox.c).
 *
 * An access mask is the set of rights whose bits it has. What the kernel answers is a parameter;
 * the trace records what the launcher asked of it, in order.
 */
module Launcher {

  // ---------------------------------------------------------------- masks

  datatype Right =
    | Execute
    | WriteFile
    | ReadFile
    | ReadDir
    | RemoveDir
    | RemoveFile
    | MakeChar
    | MakeDir
    | MakeReg
    | MakeSock
    | MakeFifo
    | MakeBlock
    | MakeSym
    | Refer
    | TruncateFile
    | IoctlDev

  datatype NetRight = BindTcp | ConnectTcp

  type Mask = set<Right>

  const FS_READ: Mask := {ReadFile, ReadDir}
  const FS_WRITE: Mask := {WriteFile, MakeReg, MakeDir, MakeSym, MakeFifo, MakeSock, RemoveFile, RemoveDir}
  const ABI_REFER := 2
  const ABI_TRUNCATE := 3
  const ABI_NET_TCP := 4
  const ABI_IOCTL_DEV := 5

  function FsMaskForAbi(abi: int): Mask {
    FS_READ + FS_WRITE + {Execute, MakeChar, MakeBlock}
    + (if abi >= ABI_REFER then {Refer} else {})
    + (if abi >= ABI_TRUNCATE then {TruncateFile} else {})
    + (if abi >= ABI_IOCTL_DEV then {IoctlDev} else {})
  }

  function NetMaskForAbi(abi: int): set<NetRight> {
    if abi < ABI_NET_TCP then {} else {BindTcp, ConnectTcp}
  }

  /** The rights a rule may carry on this kind of inode. */
  function MaskForType(access: Mask, isDir: bool): Mask {
    if isDir then access else access * {ReadFile, WriteFile, Execute, TruncateFile, IoctlDev}
  }

  datatype Verb = Ro | Rx | Rw

  /** What a verb stands for, whatever the kernel knows. */
  function RightsOf(verb: Verb): Mask {
    match verb
    case Ro => FS_READ
    case Rx => FS_READ + {Execute}
    case Rw => FS_READ + FS_WRITE + {Execute, Refer, TruncateFile, IoctlDev}
  }

  function AccessOf(verb: Verb, abi: int): Mask {
    RightsOf(verb) * FsMaskForAbi(abi)
  }

  /** Reading is less than running is less than writing, and a newer kernel never handles fewer rights. */
  lemma VerbsAreOrdered(abi: int, newer: int)
    ensures AccessOf(Ro, abi) < AccessOf(Rx, abi) < AccessOf(Rw, abi) <= FsMaskForAbi(abi)
    ensures abi <= newer ==> FsMaskForAbi(abi) <= FsMaskForAbi(newer) && NetMaskForAbi(abi) <= NetMaskForAbi(newer)
    ensures forall verb :: abi <= newer ==> AccessOf(verb, abi) <= AccessOf(verb, newer)
  {
    assert Execute in AccessOf(Rx, abi) && Execute !in AccessOf(Ro, abi);
    assert MakeReg in AccessOf(Rw, abi) && MakeReg !in AccessOf(Rx, abi);
  }

  // ---------------------------------------------------------------- reading lines

  const NL: char := '\n'
  const MAX_LINE := 4096
  const MAX_RULES := 256
  const PATH_MAX := 4096

  /** How much one read takes: through the newline, and never more than the buffer holds. */
  function ReadLength(input: string, room: nat): (n: nat)
    ensures n <= |input| && n <= room
    ensures input != "" && room > 0 ==> n > 0
  {
    if input == "" || room == 0 then 0
    else if input[0] == NL then 1
    else 1 + ReadLength(input[1..], room - 1)
  }

  function Strip(line: string): string {
    if line != "" && line[|line| - 1] == NL then line[..|line| - 1] else line
  }

  /** What `fgets` delivers, newlines stripped: a line too long for the buffer comes in pieces. */
  function TextLines(input: string): seq<string>
    decreases |input|
  {
    if input == "" then []
    else
      var n := ReadLength(input, MAX_LINE - 1);
      [Strip(input[..n])] + TextLines(input[n..])
  }

  function Unlines(lines: seq<string>): string {
    if lines == [] then "" else lines[0] + [NL] + Unlines(lines[1..])
  }

  lemma {:induction false} ReadLengthOfLine(line: string, more: string, room: nat)
    requires NL !in line
    ensures |line| < room ==> ReadLength(line + [NL] + more, room) == |line| + 1
    ensures |line| >= room ==> ReadLength(line + [NL] + more, room) == room
    decreases |line|
  {
    var input := line + [NL] + more;
    if line != "" && room > 0 {
      assert input[1..] == line[1..] + [NL] + more;
      ReadLengthOfLine(line[1..], more, room - 1);
    }
  }

  /** A line that fits the buffer is read whole. */
  lemma ShortLineIsRead(line: string, more: string)
    requires NL !in line && |line| < MAX_LINE - 1
    ensures TextLines(line + [NL] + more) == [line] + TextLines(more)
  {
    var input := line + [NL] + more;
    ReadLengthOfLine(line, more, MAX_LINE - 1);
    assert input[..|line| + 1] == line + [NL];
    assert input[|line| + 1..] == more;
  }

  /** The lines of a plan reach the reader as written exactly when each fits the buffer. */
  lemma {:induction false} LinesAreRead(lines: seq<string>)
    requires forall k :: 0 <= k < |lines| ==> NL !in lines[k]
    ensures |TextLines(Unlines(lines))| >= |lines|
    ensures TextLines(Unlines(lines)) == lines <==> forall k :: 0 <= k < |lines| ==> |lines[k]| < MAX_LINE - 1
    decreases |lines|
  {
    if lines != [] {
      var line, more := lines[0], Unlines(lines[1..]);
      LinesAreRead(lines[1..]);
      assert lines == [line] + lines[1..];
      if |line| < MAX_LINE - 1 {
        ShortLineIsRead(line, more);
      } else {
        LongLineIsCut(line, more);
      }
    }
  }

  lemma LongLineIsCut(line: string, more: string)
    requires NL !in line && |line| >= MAX_LINE - 1
    ensures |TextLines(line + [NL] + more)| >= 2 + |TextLines(more)|
  {
    var n := MAX_LINE - 1;
    ReadLengthOfLine(line, more, n);
    assert (line + [NL] + more)[n..] == line[n..] + [NL] + more;
    PiecesThenMore(line[n..], more);
  }

  lemma {:induction false} PiecesThenMore(line: string, more: string)
    requires NL !in line
    ensures |TextLines(line + [NL] + more)| >= 1 + |TextLines(more)|
    decreases |line|
  {
    var input := line + [NL] + more;
    ReadLengthOfLine(line, more, MAX_LINE - 1);
    if |line| < MAX_LINE - 1 {
      assert input[|line| + 1..] == more;
    } else {
      var n := MAX_LINE - 1;
      assert input[n..] == line[n..] + [NL] + more;
      PiecesThenMore(line[n..], more);
    }
  }

  // ---------------------------------------------------------------- the plan

  const EXIT_PLAN := 65
  const EXIT_UNSUPPORTED := 66
  const EXIT_APPLY := 67

  datatype Rule = Rule(path: string, access: Mask)

  /** The plan as read so far. */
  datatype Reading = Reading(
    rules: seq<Rule>,
    netDeny: bool,
    noNewPrivs: bool,
    seccomp: bool,
    seenEnd: bool,
    versionSeen: bool
  )

  const NOTHING_READ := Reading([], false, false, false, false, false)

  datatype Read = Go(reading: Reading) | Die(code: int)

  function FirstSpace(line: string): (k: nat)
    ensures k <= |line|
  {
    if line == "" || line[0] == ' ' then 0 else 1 + FirstSpace(line[1..])
  }

  /** One line of the protocol. */
  datatype Command =
    | Ignored
    | Version(arg: string)
    | Grant(verb: Verb, path: string)
    | Net(arg: string)
    | Seccomp(arg: string)
    | Nnp(arg: string)
    | End
    | Unknown

  function CommandOf(line: string): Command {
    if line == "" || line[0] == '#' then Ignored
    else
      var space := FirstSpace(line);
      var verb := line[..space];
      var arg := if space < |line| then line[space + 1..] else "";
      if verb == "version" then Version(arg)
      else if verb == "ro" then Grant(Ro, arg)
      else if verb == "rx" then Grant(Rx, arg)
      else if verb == "rw" then Grant(Rw, arg)
      else if verb == "net" then Net(arg)
      else if verb == "seccomp" then Seccomp(arg)
      else if verb == "nnp" then Nnp(arg)
      else if verb == "end" then End
      else Unknown
  }

  function Commands(lines: seq<string>): (r: seq<Command>)
    ensures |r| == |lines|
  {
    if lines == [] then [] else [CommandOf(lines[0])] + Commands(lines[1..])
  }

  /** A path a rule may name. */
  predicate PathOk(path: string) {
    path != "" && path[0] == '/' && |path| < PATH_MAX
  }

  function AddRule(r: Reading, path: string, access: Mask): Read {
    if |r.rules| >= MAX_RULES || !PathOk(path) then Die(EXIT_PLAN)
    else Go(r.(rules := r.rules + [Rule(path, access)]))
  }

  function ReadCommand(c: Command, r: Reading, abi: int): Read {
    match c
    case Ignored => Go(r)
    case Version(arg) => if arg == "1" then Go(r.(versionSeen := true)) else Die(EXIT_PLAN)
    case Grant(verb, path) => AddRule(r, path, AccessOf(verb, abi))
    case Net(arg) =>
      if arg == "deny" then Go(r.(netDeny := true))
      else if arg == "unrestricted" then Go(r.(netDeny := false))
      else Die(EXIT_PLAN)
    case Seccomp(arg) => Go(r.(seccomp := arg == "1"))
    case Nnp(arg) => Go(r.(noNewPrivs := arg == "1"))
    case End => Go(r.(seenEnd := true))
    case Unknown => Die(EXIT_PLAN)
  }

  /** Commands one after another, until the end marker or the end of the text. */
  function ReadCommands(cs: seq<Command>, r: Reading, abi: int): Read
    decreases |cs|
  {
    if cs == [] || r.seenEnd then Go(r)
    else match ReadCommand(cs[0], r, abi)
      case Die(code) => Die(code)
      case Go(next) => ReadCommands(cs[1..], next, abi)
  }

  function Finished(read: Read): Read {
    match read
    case Die(code) => Die(code)
    case Go(r) => if r.versionSeen && r.seenEnd then Go(r) else Die(EXIT_PLAN)
  }

  function ReadPlan(text: string, abi: int): Read {
    Finished(ReadCommands(Commands(TextLines(text)), NOTHING_READ, abi))
  }

  // ---------------------------------------------------------------- what a plan says

  /** The commands a reader attends to: those up to and including the first end marker. */
  function Body(cs: seq<Command>): (body: seq<Command>)
  {
    if cs == [] then [] else if cs[0].End? then [End] else [cs[0]] + Body(cs[1..])
  }

  /** The rules a body asks for, in order. */
  function RulesAsked(body: seq<Command>, abi: int): seq<Rule> {
    if body == [] then []
    else
      var rest := RulesAsked(body[1..], abi);
      if body[0].Grant? then [Rule(body[0].path, AccessOf(body[0].verb, abi))] + rest else rest
  }

  datatype Setting = NetSetting | SeccompSetting | NnpSetting

  function ArgOf(c: Command, setting: Setting): seq<string> {
    match c
    case Net(arg) => if setting.NetSetting? then [arg] else []
    case Seccomp(arg) => if setting.SeccompSetting? then [arg] else []
    case Nnp(arg) => if setting.NnpSetting? then [arg] else []
    case _ => []
  }

  /** Whether the last command for this setting, or `before` if there is none, turns it on. */
  function LastSays(body: seq<Command>, setting: Setting, on: string, before: bool): bool {
    if body == [] then before
    else
      var arg := ArgOf(body[0], setting);
      LastSays(body[1..], setting, on, if arg == [] then before else arg[0] == on)
  }

  /** A command that may stand in a plan at all. */
  predicate CommandOk(c: Command) {
    match c
    case Version(arg) => arg == "1"
    case Grant(_, path) => PathOk(path)
    case Net(arg) => arg == "deny" || arg == "unrestricted"
    case Unknown => false
    case _ => true
  }

  ghost predicate AllOk(body: seq<Command>) {
    forall k :: 0 <= k < |body| ==> CommandOk(body[k])
  }

  /** What a whole body leaves the reader holding. */
  function Holding(body: seq<Command>, r: Reading, abi: int): Reading {
    Reading(
      r.rules + RulesAsked(body, abi),
      LastSays(body, NetSetting, "deny", r.netDeny),
      LastSays(body, NnpSetting, "1", r.noNewPrivs),
      LastSays(body, SeccompSetting, "1", r.seccomp),
      r.seenEnd || End in body,
      r.versionSeen || Version("1") in body)
  }

  lemma GrantHolds(verb: Verb, path: string, more: seq<Command>, r: Reading, abi: int)
    requires PathOk(path) && |r.rules| < MAX_RULES
    ensures Holding([Grant(verb, path)] + more, r, abi)
      == Holding(more, r.(rules := r.rules + [Rule(path, AccessOf(verb, abi))]), abi)
  {
    var c, rule := Grant(verb, path), Rule(path, AccessOf(verb, abi));
    assert ([c] + more)[1..] == more;
    assert r.rules + ([rule] + RulesAsked(more, abi)) == r.rules + [rule] + RulesAsked(more, abi);
  }

  /** One command does to the reader what a body of that one command says. */
  lemma CommandHolds(c: Command, more: seq<Command>, r: Reading, abi: int)
    requires CommandOk(c) && |r.rules| + |RulesAsked([c], abi)| <= MAX_RULES
    ensures ReadCommand(c, r, abi).Go?
    ensures Holding([c] + more, r, abi) == Holding(more, ReadCommand(c, r, abi).reading, abi)
  {
    assert [c][1..] == [];
    if c.Grant? {
      GrantHolds(c.verb, c.path, more, r, abi);
    } else {
      assert ([c] + more)[1..] == more;
    }
  }

  lemma CommandRefused(c: Command, r: Reading, abi: int)
    requires |r.rules| <= MAX_RULES
    requires !(CommandOk(c) && |r.rules| + |RulesAsked([c], abi)| <= MAX_RULES)
    ensures ReadCommand(c, r, abi) == Die(EXIT_PLAN)
  {
    assert [c][1..] == [];
  }

  lemma RulesAskedFirst(c: Command, more: seq<Command>, abi: int)
    ensures RulesAsked([c] + more, abi) == RulesAsked([c], abi) + RulesAsked(more, abi)
  {
    assert ([c] + more)[1..] == more && [c][1..] == [];
  }

  /**
   * The reader accepts a plan exactly when every command up to the end marker is well formed and
   * the rules fit, and then holds exactly what those commands say. Any other plan is refused.
   */
  lemma {:induction false} CommandsAreRead(cs: seq<Command>, r: Reading, abi: int)
    requires !r.seenEnd && |r.rules| <= MAX_RULES
    ensures ReadCommands(cs, r, abi) ==
            if AllOk(Body(cs)) && |r.rules| + |RulesAsked(Body(cs), abi)| <= MAX_RULES
            then Go(Holding(Body(cs), r, abi))
            else Die(EXIT_PLAN)
    decreases |cs|
  {
    if cs == [] {
      assert r.rules + [] == r.rules;
    } else {
      var c := cs[0];
      var more := if c.End? then [] else Body(cs[1..]);
      assert Body(cs) == [c] + more;
      RulesAskedFirst(c, more, abi);
      assert AllOk([c] + more) <==> CommandOk(c) && AllOk(more) by {
        assert forall k :: 0 <= k < |more| ==> more[k] == ([c] + more)[k + 1];
        assert ([c] + more)[0] == c;
      }
      if CommandOk(c) && |r.rules| + |RulesAsked([c], abi)| <= MAX_RULES {
        CommandHolds(c, more, r, abi);
        var next := ReadCommand(c, r, abi).reading;
        assert |next.rules| == |r.rules| + |RulesAsked([c], abi)| by { assert [c][1..] == []; }
        if c.End? {
          assert next.rules + [] == next.rules;
        } else {
          CommandsAreRead(cs[1..], next, abi);
        }
      } else {
        CommandRefused(c, r, abi);
      }
    }
  }

  /** The whole reader: exactly which plans are accepted, and what an accepted plan means. */
  lemma PlanIsRead(text: string, abi: int)
    ensures var body := Body(Commands(TextLines(text)));
      ReadPlan(text, abi) ==
        if AllOk(body) && |RulesAsked(body, abi)| <= MAX_RULES && Version("1") in body && End in body
        then Go(Reading(RulesAsked(body, abi), LastSays(body, NetSetting, "deny", false),
          LastSays(body, NnpSetting, "1", false),
                        LastSays(body, SeccompSetting, "1", false), true, true))
        else Die(EXIT_PLAN)
  {
    var body := Body(Commands(TextLines(text)));
    CommandsAreRead(Commands(TextLines(text)), NOTHING_READ, abi);
    assert [] + RulesAsked(body, abi) == RulesAsked(body, abi);
  }

  // ---------------------------------------------------------------- the reader's loop

  class Plan {
    var rules: array<Rule>
    var ruleCount: nat
    var netDeny: bool
    var noNewPrivs: bool
    var seccomp: bool
    var seenEnd: bool

    ghost predicate Valid()
      reads this
    {
      rules.Length == MAX_RULES && ruleCount <= MAX_RULES
    }

    ghost function Value(versionSeen: bool): Reading
      reads this, rules
      requires Valid()
    {
      Reading(rules[..ruleCount], netDeny, noNewPrivs, seccomp, seenEnd, versionSeen)
    }

    constructor ()
      ensures Valid() && fresh(rules)
      ensures Value(false) == NOTHING_READ
    {
      rules := new Rule[MAX_RULES](_ => Rule("", {}));
      ruleCount, netDeny, noNewPrivs, seccomp, seenEnd := 0, false, false, false, false;
    }

    /** The exit code, or zero when the rule was added. */
    method Add(path: string, access: Mask) returns (code: int)
      requires Valid()
      modifies this`ruleCount, rules
      ensures Valid()
      ensures var r := AddRule(old(Value(false)), path, access);
        if code == 0 then r == Go(Value(false)) else r == Die(code)
    {
      if ruleCount >= MAX_RULES || path == "" || path[0] != '/' || |path| >= PATH_MAX {
        return EXIT_PLAN;
      }
      rules[ruleCount] := Rule(path, access);
      ruleCount := ruleCount + 1;
      code := 0;
    }

    /** One line: the exit code, or zero, and whether a version has been seen by now. */
    method Take(c: Command, abi: int, seen: bool) returns (code: int, versionSeen: bool)
      requires Valid()
      modifies this`ruleCount, this`netDeny, this`noNewPrivs, this`seccomp, this`seenEnd, rules
      ensures Valid()
      ensures var r := ReadCommand(c, old(Value(seen)), abi);
        if code == 0 then r == Go(Value(versionSeen)) else r == Die(code)
    {
      code, versionSeen := 0, seen;
      match c
      case Ignored =>
      case Version(arg) =>
        if arg == "1" { versionSeen := true; } else { code := EXIT_PLAN; }
      case Grant(verb, path) =>
        code := Add(path, AccessOf(verb, abi));
      case Net(arg) =>
        if arg == "deny" {
          netDeny := true;
        } else if arg == "unrestricted" {
          netDeny := false;
        } else {
          code := EXIT_PLAN;
        }
      case Seccomp(arg) => seccomp := arg == "1";
      case Nnp(arg) => noNewPrivs := arg == "1";
      case End => seenEnd := true;
      case Unknown => code := EXIT_PLAN;
    }
  }

  lemma FirstCommand(input: string)
    requires input != ""
    ensures var n := ReadLength(input, MAX_LINE - 1);
      Commands(TextLines(input)) == [CommandOf(Strip(input[..n]))] + Commands(TextLines(input[n..]))
  {
    var n := ReadLength(input, MAX_LINE - 1);
    var line, more := Strip(input[..n]), TextLines(input[n..]);
    assert TextLines(input) == [line] + more;
    assert ([line] + more)[1..] == more;
  }

  /** The plan read line by line. The exit code, or zero when the plan was accepted. */
  method ReadPlanText(text: string, abi: int, plan: Plan) returns (code: int)
    requires plan.Valid() && plan.Value(false) == NOTHING_READ
    modifies plan`ruleCount, plan`netDeny, plan`noNewPrivs, plan`seccomp, plan`seenEnd, plan.rules
    ensures plan.Valid()
    ensures if code == 0 then ReadPlan(text, abi) == Go(plan.Value(true)) else ReadPlan(text, abi) == Die(code)
  {
    ghost var all := ReadCommands(Commands(TextLines(text)), NOTHING_READ, abi);
    var input, versionSeen := text, false;
    while input != "" && !plan.seenEnd
      invariant plan.Valid()
      invariant all == ReadCommands(Commands(TextLines(input)), plan.Value(versionSeen), abi)
      decreases |input|
    {
      var n := ReadLength(input, MAX_LINE - 1);
      FirstCommand(input);
      assert Commands(TextLines(input))[1..] == Commands(TextLines(input[n..]));
      code, versionSeen := plan.Take(CommandOf(Strip(input[..n])), abi, versionSeen);
      if code != 0 {
        return;
      }
      input := input[n..];
    }
    code := if versionSeen && plan.seenEnd then 0 else EXIT_PLAN;
  }

  // ---------------------------------------------------------------- from plan to exec

  datatype Inode = CannotOpen | CannotStat | IsFile | IsDirectory

  /** What the system answers: its Landlock ABI, and each request that can fail. */
  datatype System = System(
    abi: int,
    inode: string -> Inode,
    creates: bool,
    adds: (string, Mask) -> bool,
    setsNnp: bool,
    installsSeccomp: bool,
    restricts: bool
  )

  datatype Request =
    | CloseInherited
    | CreateRuleset(fs: Mask, net: set<NetRight>)
    | AddPathRule(path: string, access: Mask)
    | SetNoNewPrivs
    | InstallSeccomp
    | RestrictSelf
    | Exec

  /** The mask a rule is added with: what the verb grants, the ruleset handles and the inode can carry. */
  function Granted(rule: Rule, handled: Mask, inode: Inode): Mask {
    MaskForType(rule.access * handled, inode.IsDirectory?)
  }

  predicate CanAdd(rule: Rule, sys: System) {
    var inode := sys.inode(rule.path);
    var access := Granted(rule, FsMaskForAbi(sys.abi), inode);
    !inode.CannotOpen? && !inode.CannotStat? && access != {} && sys.adds(rule.path, access)
  }

  /** Exactly what must be true of a system for a plan's target to run on it. */
  ghost predicate CanApply(plan: Reading, sys: System) {
    && (plan.netDeny ==> sys.abi >= ABI_NET_TCP)
    && sys.creates
    && (forall k :: 0 <= k < |plan.rules| ==> CanAdd(plan.rules[k], sys))
    && plan.noNewPrivs && sys.setsNnp
    && (plan.seccomp ==> sys.installsSeccomp)
    && sys.restricts
  }

  ghost predicate CanLaunch(text: string, sys: System) {
    sys.abi >= 1 && ReadPlan(text, sys.abi).Go? && CanApply(ReadPlan(text, sys.abi).reading, sys)
  }

  function RuleRequests(rules: seq<Rule>, sys: System): (r: seq<Request>)
    ensures |r| == |rules|
  {
    seq(|rules|, k requires 0 <= k < |rules| =>
      AddPathRule(rules[k].path, Granted(rules[k], FsMaskForAbi(sys.abi), sys.inode(rules[k].path))))
  }

  /** Everything asked of the system on a launch, in order: every restriction before the target. */
  function FullRun(plan: Reading, sys: System): seq<Request> {
    [CloseInherited, CreateRuleset(FsMaskForAbi(sys.abi), if plan.netDeny then NetMaskForAbi(sys.abi) else {})]
    + RuleRequests(plan.rules, sys)
    + LastRequests(plan.seccomp)
  }

  /** The exit code of one rule, zero if it can be added. */
  function RuleExit(rule: Rule, sys: System): int {
    var inode := sys.inode(rule.path);
    var access := Granted(rule, FsMaskForAbi(sys.abi), inode);
    if inode.CannotOpen? || inode.CannotStat? then EXIT_APPLY
    else if access == {} then EXIT_PLAN
    else if !sys.adds(rule.path, access) then EXIT_APPLY
    else 0
  }

  /** That of the first rule that cannot be added. */
  function RulesExit(rules: seq<Rule>, sys: System): int {
    if rules == [] then 0
    else if RuleExit(rules[0], sys) != 0 then RuleExit(rules[0], sys)
    else RulesExit(rules[1..], sys)
  }

  function LastExit(noNewPrivs: bool, seccomp: bool, sys: System): int {
    if !noNewPrivs then EXIT_PLAN
    else if sys.setsNnp && (seccomp ==> sys.installsSeccomp) && sys.restricts then 0
    else EXIT_APPLY
  }

  /** The exit code of what comes first among what goes wrong. */
  function ApplyExit(plan: Reading, sys: System): int {
    if plan.netDeny && sys.abi < ABI_NET_TCP then EXIT_UNSUPPORTED
    else if !sys.creates then EXIT_APPLY
    else if RulesExit(plan.rules, sys) != 0 then RulesExit(plan.rules, sys)
    else LastExit(plan.noNewPrivs, plan.seccomp, sys)
  }

  function ExitOf(text: string, sys: System): int {
    if sys.abi < 1 then EXIT_UNSUPPORTED
    else match ReadPlan(text, sys.abi)
      case Die(code) => code
      case Go(plan) => ApplyExit(plan, sys)
  }

  lemma {:induction false} RulesExitIs(rules: seq<Rule>, i: nat, sys: System)
    requires i < |rules| && forall k :: 0 <= k < i ==> RuleExit(rules[k], sys) == 0
    requires RuleExit(rules[i], sys) != 0
    ensures RulesExit(rules, sys) == RuleExit(rules[i], sys)
    decreases i
  {
    if i > 0 {
      RulesExitIs(rules[1..], i - 1, sys);
    }
  }

  lemma {:induction false} RulesExitIsZero(rules: seq<Rule>, sys: System)
    ensures RulesExit(rules, sys) == 0 <==> forall k :: 0 <= k < |rules| ==> CanAdd(rules[k], sys)
  {
    if rules != [] {
      RulesExitIsZero(rules[1..], sys);
      assert forall k :: 0 <= k < |rules| - 1 ==> rules[1..][k] == rules[k + 1];
    }
  }

  /** Zero exactly when everything could be applied. */
  lemma ExitIsZero(text: string, sys: System)
    ensures ExitOf(text, sys) == 0 <==> CanLaunch(text, sys)
  {
    PlanIsRead(text, sys.abi);
    if sys.abi >= 1 && ReadPlan(text, sys.abi).Go? {
      RulesExitIsZero(ReadPlan(text, sys.abi).reading.rules, sys);
    }
  }

  class Kernel {
    const sys: System
    var requests: seq<Request>

    constructor (sys: System)
      ensures this.sys == sys && requests == []
    {
      this.sys, requests := sys, [];
    }

    method Ask(request: Request)
      modifies this
      ensures requests == old(requests) + [request]
    {
      requests := requests + [request];
    }
  }

  /** The requests of the first rules, with one more. */
  lemma RequestsGrow(rules: seq<Rule>, i: nat, sys: System)
    requires i < |rules|
    ensures var rule := rules[i];
      var request := AddPathRule(rule.path, Granted(rule, FsMaskForAbi(sys.abi), sys.inode(rule.path)));
      && RuleRequests(rules[..i + 1], sys) == RuleRequests(rules[..i], sys) + [request]
      && RuleRequests(rules[..i + 1], sys) <= RuleRequests(rules, sys)
      && RuleRequests(rules[..i], sys) <= RuleRequests(rules, sys)
  {
  }

  /** The plan's rules added one after another. The exit code, or zero. */
  method AddRules(rules: seq<Rule>, handled: Mask, kernel: Kernel) returns (code: int)
    requires handled == FsMaskForAbi(kernel.sys.abi)
    modifies kernel
    ensures code == RulesExit(rules, kernel.sys)
    ensures code == 0 ==> kernel.requests == old(kernel.requests) + RuleRequests(rules, kernel.sys)
    ensures old(kernel.requests) <= kernel.requests <= old(kernel.requests) + RuleRequests(rules, kernel.sys)
    ensures Exec in kernel.requests ==> Exec in old(kernel.requests)
  {
    var i := 0;
    while i < |rules|
      invariant 0 <= i <= |rules|
      invariant forall k :: 0 <= k < i ==> RuleExit(rules[k], kernel.sys) == 0
      invariant kernel.requests == old(kernel.requests) + RuleRequests(rules[..i], kernel.sys)
      invariant Exec in kernel.requests ==> Exec in old(kernel.requests)
    {
      var rule := rules[i];
      var inode := kernel.sys.inode(rule.path);
      if RuleExit(rule, kernel.sys) != 0 {
        RulesExitIs(rules, i, kernel.sys);
      }
      RequestsGrow(rules, i, kernel.sys);
      if inode.CannotOpen? || inode.CannotStat? {
        return EXIT_APPLY;
      }
      var access := Granted(rule, handled, inode);
      if access == {} {
        return EXIT_PLAN;
      }
      kernel.Ask(AddPathRule(rule.path, access));
      if !kernel.sys.adds(rule.path, access) {
        return EXIT_APPLY;
      }
      i := i + 1;
    }
    assert rules[..i] == rules;
    RulesExitIsZero(rules, kernel.sys);
    code := 0;
  }

  function LastRequests(seccomp: bool): seq<Request> {
    [SetNoNewPrivs] + (if seccomp then [InstallSeccomp] else []) + [RestrictSelf, Exec]
  }

  /** The last steps, each of which must succeed before the next. */
  method ConfineAndExec(noNewPrivs: bool, seccomp: bool, kernel: Kernel) returns (code: int)
    requires Exec !in kernel.requests
    modifies kernel
    ensures code == LastExit(noNewPrivs, seccomp, kernel.sys)
    ensures code == 0 ==> kernel.requests == old(kernel.requests) + LastRequests(seccomp)
    ensures old(kernel.requests) <= kernel.requests <= old(kernel.requests) + LastRequests(seccomp)
    ensures code == 0 <==> Exec in kernel.requests
  {
    if !noNewPrivs {
      return EXIT_PLAN;
    }
    kernel.Ask(SetNoNewPrivs);
    if !kernel.sys.setsNnp {
      return EXIT_APPLY;
    }
    if seccomp {
      kernel.Ask(InstallSeccomp);
      if !kernel.sys.installsSeccomp {
        return EXIT_APPLY;
      }
    }
    kernel.Ask(RestrictSelf);
    if !kernel.sys.restricts {
      return EXIT_APPLY;
    }
    kernel.Ask(Exec);
    code := 0;
  }

  /** Everything after the plan has been read. */
  method Apply(plan: Plan, kernel: Kernel) returns (code: int)
    requires plan.Valid() && kernel.requests == []
    modifies kernel
    ensures code == ApplyExit(old(plan.Value(true)), kernel.sys)
    ensures code == 0 <==> Exec in kernel.requests
    ensures code == 0 ==> kernel.requests == FullRun(old(plan.Value(true)), kernel.sys)
    ensures kernel.requests <= FullRun(old(plan.Value(true)), kernel.sys)
  {
    var sys := kernel.sys;
    kernel.Ask(CloseInherited);
    if plan.netDeny && sys.abi < ABI_NET_TCP {
      return EXIT_UNSUPPORTED;
    }
    var handled := FsMaskForAbi(sys.abi);
    var net := if plan.netDeny then NetMaskForAbi(sys.abi) else {};
    kernel.Ask(CreateRuleset(handled, net));
    assert kernel.requests == [CloseInherited, CreateRuleset(handled, net)];
    if !sys.creates {
      return EXIT_APPLY;
    }
    code := AddRules(plan.rules[..plan.ruleCount], handled, kernel);
    if code != 0 {
      return;
    }
    code := ConfineAndExec(plan.noNewPrivs, plan.seccomp, kernel);
  }

  /**
   * Main result: the target is executed exactly when the plan was accepted and every restriction it
   * asks for was applied, in that order. Otherwise the code says what went wrong first, there is no exec,
   * and nothing has been asked of the system but the start of what the plan needs.
   */
  method Launch(text: string, kernel: Kernel) returns (code: int)
    requires kernel.requests == []
    modifies kernel
    ensures code == 0 <==> CanLaunch(text, kernel.sys)
    ensures code == 0 <==> Exec in kernel.requests
    ensures code == ExitOf(text, kernel.sys)
    ensures code == 0 ==> kernel.requests == FullRun(ReadPlan(text, kernel.sys.abi).reading, kernel.sys)
    ensures if kernel.sys.abi >= 1 && ReadPlan(text, kernel.sys.abi).Go?
      then kernel.requests <= FullRun(ReadPlan(text, kernel.sys.abi).reading, kernel.sys)
      else kernel.requests == []
  {
    var abi := kernel.sys.abi;
    ExitIsZero(text, kernel.sys);
    if abi < 1 {
      return EXIT_UNSUPPORTED;
    }
    var plan := new Plan();
    code := ReadPlanText(text, abi, plan);
    if code == 0 {
      code := Apply(plan, kernel);
    }
  }

  /** Every rule the target runs under is one the plan asks for, with rights its verb has and the kernel handles. */
  lemma RulesAreThePlans(text: string, sys: System, k: nat)
    requires CanLaunch(text, sys)
    requires k < |ReadPlan(text, sys.abi).reading.rules|
    ensures var rule := ReadPlan(text, sys.abi).reading.rules[k];
      var granted := Granted(rule, FsMaskForAbi(sys.abi), sys.inode(rule.path));
      && granted != {} && granted <= FsMaskForAbi(sys.abi)
      && exists verb, c ::
        c in Commands(TextLines(text)) && c == Grant(verb, rule.path) && PathOk(rule.path) && granted <= RightsOf(verb)
  {
    var cs := Commands(TextLines(text));
    var rules := ReadPlan(text, sys.abi).reading.rules;
    var rule := rules[k];
    assert CanAdd(rule, sys);
    PlanIsRead(text, sys.abi);
    var c := RuleComesFrom(Body(cs), sys.abi, k);
    BodyIsPart(cs, c);
    assert c == Grant(c.verb, rule.path);
    assert Granted(rule, FsMaskForAbi(sys.abi), sys.inode(rule.path)) <= RightsOf(c.verb);
  }

  lemma {:induction false} RuleComesFrom(body: seq<Command>, abi: int, k: nat) returns (c: Command)
    requires AllOk(body) && k < |RulesAsked(body, abi)|
    ensures c in body && c.Grant? && PathOk(c.path) && RulesAsked(body, abi)[k] == Rule(c.path, AccessOf(c.verb, abi))
    decreases |body|
  {
    assert CommandOk(body[0]);
    if body[0].Grant? && k == 0 {
      c := body[0];
    } else {
      assert AllOk(body[1..]);
      c := RuleComesFrom(body[1..], abi, if body[0].Grant? then k - 1 else k);
    }
  }

  lemma {:induction false} BodyIsPart(cs: seq<Command>, c: Command)
    requires c in Body(cs)
    ensures c in cs
    decreases |cs|
  {
    if c != cs[0] {
      BodyIsPart(cs[1..], c);
    }
  }

  /** Any argument of the seccomp verb but 1 asks for no filter, and is not refused. */
  lemma OnlyOneAsksForSeccomp(arg: string, abi: int)
    requires arg != "1"
    ensures var cs := [Version("1"), Seccomp("1"), Seccomp(arg), Nnp("1"), End];
      ReadCommands(cs, NOTHING_READ, abi) == Go(Reading([], false, true, false, true, true))
  {
    var cs := [Version("1"), Seccomp("1"), Seccomp(arg), Nnp("1"), End];
    var r1 := NOTHING_READ.(versionSeen := true);
    assert cs[1..] == [Seccomp("1"), Seccomp(arg), Nnp("1"), End];
    assert ReadCommands(cs, NOTHING_READ, abi) == ReadCommands(cs[1..], r1, abi);
    var r2 := r1.(seccomp := true);
    assert cs[1..][1..] == [Seccomp(arg), Nnp("1"), End];
    assert ReadCommands(cs[1..], r1, abi) == ReadCommands([Seccomp(arg), Nnp("1"), End], r2, abi);
    assert [Seccomp(arg), Nnp("1"), End][1..] == [Nnp("1"), End];
    assert [Nnp("1"), End][1..] == [End];
    assert [End][1..] == [];
  }
}
