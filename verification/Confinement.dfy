/**
 * What a launched target may do (native/mycoder-sandbox.c): which rights the ruleset handles, and which
 * of them the lines of the plan give back.
 *
 * A right that is handled is denied unless a rule above the inode allows it; one that is not handled is
 * not restricted (the Landlock documentation of the Linux kernel, section "Filesystem flags").
 */
module Confinement {
  import opened Launcher

  // ---------------------------------------------------------------- what is handled

  /** The Landlock version that brought a right in. */
  function IntroducedIn(right: Right): nat {
    match right
    case Refer => 2
    case TruncateFile => 3
    case IoctlDev => 5
    case _ => 1
  }

  /** Every right that the kernel knows is handled, and no other. */
  lemma HandledExactly(right: Right, abi: int)
    requires abi >= 1
    ensures right in FsMaskForAbi(abi) <==> IntroducedIn(right) <= abi
  {
  }

  lemma NetHandledExactly(right: NetRight, abi: int)
    ensures right in NetMaskForAbi(abi) <==> abi >= 4
  {
  }

  // ---------------------------------------------------------------- what a verb gives

  /** The rights of a verb, by name: reading and listing; running; writing, making and removing. */
  predicate Gives(verb: Verb, right: Right) {
    match right
    case ReadFile => true
    case ReadDir => true
    case Execute => verb.Rx? || verb.Rw?
    case MakeChar => false
    case MakeBlock => false
    case WriteFile => verb.Rw?
    case MakeReg => verb.Rw?
    case MakeDir => verb.Rw?
    case MakeSym => verb.Rw?
    case MakeFifo => verb.Rw?
    case MakeSock => verb.Rw?
    case RemoveFile => verb.Rw?
    case RemoveDir => verb.Rw?
    case Refer => verb.Rw?
    case TruncateFile => verb.Rw?
    case IoctlDev => verb.Rw?
  }

  lemma RightsOfVerb(verb: Verb, right: Right)
    ensures right in RightsOf(verb) <==> Gives(verb, right)
  {
  }

  /** The rights that mean something on an inode that is no directory. */
  predicate OfAFile(right: Right) {
    right.ReadFile? || right.WriteFile? || right.Execute? || right.TruncateFile? || right.IoctlDev?
  }

  lemma GrantedExactly(verb: Verb, abi: int, path: string, inode: Inode, right: Right)
    requires abi >= 1
    ensures right in Granted(Rule(path, AccessOf(verb, abi)), FsMaskForAbi(abi), inode)
      <==> Gives(verb, right) && IntroducedIn(right) <= abi && (inode.IsDirectory? || OfAFile(right))
  {
    HandledExactly(right, abi);
    RightsOfVerb(verb, right);
  }

  // ---------------------------------------------------------------- the lines of a plan

  /** The word of a verb. */
  function Word(verb: Verb): string {
    match verb
    case Ro => "ro"
    case Rx => "rx"
    case Rw => "rw"
  }

  lemma {:induction false} SpaceIsFirst(word: string, arg: string)
    requires ' ' !in word
    ensures FirstSpace(word + " " + arg) == |word|
    ensures FirstSpace(word) == |word|
  {
    if word != "" {
      assert (word + " " + arg)[1..] == word[1..] + " " + arg;
      SpaceIsFirst(word[1..], arg);
    }
  }

  /** A line is its first word and what follows the first space. */
  lemma LineInTwo(word: string, arg: string)
    requires ' ' !in word
    ensures var line := word + " " + arg;
      FirstSpace(line) == |word| && line[..|word|] == word && line[|word| + 1..] == arg
  {
    SpaceIsFirst(word, arg);
  }

  /** What a command is written as. */
  function Written(c: Command): string {
    match c
    case Ignored => ""
    case Version(arg) => "version" + " " + arg
    case Grant(verb, path) => Word(verb) + " " + path
    case Net(arg) => "net" + " " + arg
    case Seccomp(arg) => "seccomp" + " " + arg
    case Nnp(arg) => "nnp" + " " + arg
    case End => "end"
    case Unknown => "?"
  }

  lemma GrantIsRead(verb: Verb, path: string)
    ensures CommandOf(Written(Grant(verb, path))) == Grant(verb, path)
  {
    LineInTwo(Word(verb), path);
  }

  lemma SettingIsRead(word: string, arg: string)
    requires word == "version" || word == "net" || word == "seccomp" || word == "nnp"
    ensures var c := CommandOf(word + " " + arg);
      && (word == "version" ==> c == Version(arg)) && (word == "net" ==> c == Net(arg))
      && (word == "seccomp" ==> c == Seccomp(arg)) && (word == "nnp" ==> c == Nnp(arg))
  {
    LineInTwo(word, arg);
  }

  /** Each command is read back from its line. */
  lemma CommandIsRead(c: Command)
    ensures CommandOf(Written(c)) == c
  {
    match c
    case Ignored =>
    case Version(arg) => SettingIsRead("version", arg);
    case Grant(verb, path) => GrantIsRead(verb, path);
    case Net(arg) => SettingIsRead("net", arg);
    case Seccomp(arg) => SettingIsRead("seccomp", arg);
    case Nnp(arg) => SettingIsRead("nnp", arg);
    case End => SpaceIsFirst("end", "");
    case Unknown => SpaceIsFirst("?", "");
  }

  function WrittenAll(cs: seq<Command>): (lines: seq<string>)
    ensures |lines| == |cs|
  {
    if cs == [] then [] else [Written(cs[0])] + WrittenAll(cs[1..])
  }

  lemma {:induction false} CommandsAreBack(cs: seq<Command>)
    ensures Commands(WrittenAll(cs)) == cs
  {
    if cs != [] {
      CommandIsRead(cs[0]);
      CommandsAreBack(cs[1..]);
      assert WrittenAll(cs)[1..] == WrittenAll(cs[1..]);
    }
  }

  /** A plan of commands, a line each, reaches the reader as those commands. */
  lemma PlanIsBack(cs: seq<Command>)
    requires forall k :: 0 <= k < |cs| ==> NL !in Written(cs[k]) && |Written(cs[k])| < MAX_LINE - 1
    ensures Commands(TextLines(Unlines(WrittenAll(cs)))) == cs
  {
    LinesOfAll(cs);
    LinesAreRead(WrittenAll(cs));
    CommandsAreBack(cs);
  }

  lemma {:induction false} LinesOfAll(cs: seq<Command>)
    ensures forall k :: 0 <= k < |cs| ==> WrittenAll(cs)[k] == Written(cs[k])
  {
    if cs != [] {
      LinesOfAll(cs[1..]);
    }
  }

  // ---------------------------------------------------------------- what is permitted

  /** Which inodes lie below a rule's path, themselves included. */
  type Beneath = (string, string) -> bool

  /** What the kernel then lets a process do that has made these requests. */
  ghost predicate Permits(requests: seq<Request>, below: Beneath, inode: string, right: Right) {
    RestrictSelf in requests ==>
      || (forall r :: r in requests && r.CreateRuleset? ==> right !in r.fs)
      || (exists r :: r in requests && r.AddPathRule? && right in r.access && below(r.path, inode))
  }

  ghost predicate PermitsNet(requests: seq<Request>, right: NetRight) {
    RestrictSelf in requests ==> forall r :: r in requests && r.CreateRuleset? ==> right !in r.net
  }

  /** Some line of the plan gives this right on this inode. */
  ghost predicate SomeLineGives(body: seq<Command>, sys: System, below: Beneath, inode: string, right: Right) {
    exists c :: c in body && c.Grant? && LineGives(c, sys, below, inode, right)
  }

  predicate LineGives(c: Command, sys: System, below: Beneath, inode: string, right: Right)
    requires c.Grant?
  {
    Gives(c.verb, right) && below(c.path, inode) && (sys.inode(c.path).IsDirectory? || OfAFile(right))
  }

  lemma {:induction false} GrantIsAsked(body: seq<Command>, abi: int, c: Command)
    requires c in body && c.Grant?
    ensures Rule(c.path, AccessOf(c.verb, abi)) in RulesAsked(body, abi)
    decreases |body|
  {
    if body[0] != c {
      GrantIsAsked(body[1..], abi, c);
    }
  }

  /** A run's requests for one path: those of the plan's rules. */
  lemma PathRequests(plan: Reading, sys: System, path: string, access: Mask)
    ensures AddPathRule(path, access) in FullRun(plan, sys)
      <==> exists k :: 0 <= k < |plan.rules|
             && AddPathRule(path, access) == RuleRequests(plan.rules, sys)[k]
  {
    var rules, run := RuleRequests(plan.rules, sys), FullRun(plan, sys);
    assert AddPathRule(path, access) in run <==> AddPathRule(path, access) in rules;
  }

  lemma RulesetOf(plan: Reading, sys: System)
    ensures RestrictSelf in FullRun(plan, sys)
    ensures CreateRuleset(FsMaskForAbi(sys.abi), if plan.netDeny then NetMaskForAbi(sys.abi) else {})
      in FullRun(plan, sys)
    ensures forall r :: r in FullRun(plan, sys) && r.CreateRuleset? ==>
      r.fs == FsMaskForAbi(sys.abi) && r.net == if plan.netDeny then NetMaskForAbi(sys.abi) else {}
  {
    var rules := RuleRequests(plan.rules, sys);
    assert forall k :: 0 <= k < |rules| ==> rules[k].AddPathRule?;
    var run := FullRun(plan, sys);
    assert run[1].CreateRuleset? && run[1] in run;
    assert run[|run| - 2] == RestrictSelf;
  }

  /** The rule of a line is among the requests with exactly the rights that it gives. */
  lemma LineIsRequested(text: string, sys: System, c: Command)
    requires CanLaunch(text, sys) && c in Body(Commands(TextLines(text))) && c.Grant?
    ensures var granted := Granted(Rule(c.path, AccessOf(c.verb, sys.abi)), FsMaskForAbi(sys.abi), sys.inode(c.path));
      AddPathRule(c.path, granted) in FullRun(ReadPlan(text, sys.abi).reading, sys)
  {
    var body, plan := Body(Commands(TextLines(text))), ReadPlan(text, sys.abi).reading;
    PlanIsRead(text, sys.abi);
    GrantIsAsked(body, sys.abi, c);
    var k :| 0 <= k < |plan.rules| && plan.rules[k] == Rule(c.path, AccessOf(c.verb, sys.abi));
    var request := RuleRequests(plan.rules, sys)[k];
    assert request == AddPathRule(request.path, request.access);
    PathRequests(plan, sys, request.path, request.access);
  }

  /** And every rule among the requests is that of a line. */
  lemma RequestIsALine(text: string, sys: System, path: string, access: Mask) returns (c: Command)
    requires CanLaunch(text, sys) && AddPathRule(path, access) in FullRun(ReadPlan(text, sys.abi).reading, sys)
    ensures c in Body(Commands(TextLines(text))) && c.Grant? && c.path == path
    ensures access == Granted(Rule(c.path, AccessOf(c.verb, sys.abi)), FsMaskForAbi(sys.abi), sys.inode(c.path))
  {
    var plan := ReadPlan(text, sys.abi).reading;
    PlanIsRead(text, sys.abi);
    PathRequests(plan, sys, path, access);
    var k :| 0 <= k < |plan.rules| && AddPathRule(path, access) == RuleRequests(plan.rules, sys)[k];
    c := RuleComesFrom(Body(Commands(TextLines(text))), sys.abi, k);
  }

  /**
   * Main result: a target that is launched may use a right its kernel knows on an inode exactly when some
   * line of the plan, of a verb that gives it, names a path above the inode that can carry it. What no
   * verb gives, making device nodes, it may never do.
   */
  lemma LaunchPermits(text: string, sys: System, below: Beneath, inode: string, right: Right)
    requires CanLaunch(text, sys) && IntroducedIn(right) <= sys.abi
    ensures Permits(FullRun(ReadPlan(text, sys.abi).reading, sys), below, inode, right)
      <==> SomeLineGives(Body(Commands(TextLines(text))), sys, below, inode, right)
  {
    var plan, body := ReadPlan(text, sys.abi).reading, Body(Commands(TextLines(text)));
    var run := FullRun(plan, sys);
    RulesetOf(plan, sys);
    HandledExactly(right, sys.abi);
    if Permits(run, below, inode, right) {
      var r :| r in run && r.AddPathRule? && right in r.access && below(r.path, inode);
      var c := RequestIsALine(text, sys, r.path, r.access);
      GrantedExactly(c.verb, sys.abi, c.path, sys.inode(c.path), right);
      assert LineGives(c, sys, below, inode, right);
    }
    if SomeLineGives(body, sys, below, inode, right) {
      var c :| c in body && c.Grant? && LineGives(c, sys, below, inode, right);
      LineIsRequested(text, sys, c);
      GrantedExactly(c.verb, sys.abi, c.path, sys.inode(c.path), right);
    }
  }

  /** It may bind and connect over TCP exactly unless the last word of the plan on the network is to deny it. */
  lemma LaunchPermitsNet(text: string, sys: System, right: NetRight)
    requires CanLaunch(text, sys)
    ensures PermitsNet(FullRun(ReadPlan(text, sys.abi).reading, sys), right)
      <==> !LastSays(Body(Commands(TextLines(text))), NetSetting, "deny", false)
  {
    var plan := ReadPlan(text, sys.abi).reading;
    PlanIsRead(text, sys.abi);
    RulesetOf(plan, sys);
    NetHandledExactly(right, sys.abi);
  }

  /**
   * Before the target runs: what was inherited is closed first, then the ruleset is made, no new
   * privileges can be gained, the filter is installed when the plan's last word on it is to, and the
   * ruleset is in force.
   */
  lemma LaunchIsConfinedFirst(text: string, sys: System)
    requires CanLaunch(text, sys)
    ensures var run, n := FullRun(ReadPlan(text, sys.abi).reading, sys),
      |FullRun(ReadPlan(text, sys.abi).reading, sys)|;
      && n >= 5 && run[0] == CloseInherited && run[1].CreateRuleset?
      && run[n - 2] == RestrictSelf && run[n - 1] == Exec
      && (InstallSeccomp in run <==> LastSays(Body(Commands(TextLines(text))), SeccompSetting, "1", false))
      && run[if InstallSeccomp in run then n - 4 else n - 3] == SetNoNewPrivs
      && (InstallSeccomp in run ==> run[n - 3] == InstallSeccomp)
      && (forall k :: 0 <= k < n - 1 ==> run[k] != Exec)
  {
    var plan := ReadPlan(text, sys.abi).reading;
    PlanIsRead(text, sys.abi);
    OrderOf(plan, sys);
  }

  lemma OrderOf(plan: Reading, sys: System)
    ensures var run, n := FullRun(plan, sys), |FullRun(plan, sys)|;
      && n >= 5 && run[0] == CloseInherited && run[1].CreateRuleset?
      && run[n - 2] == RestrictSelf && run[n - 1] == Exec
      && (InstallSeccomp in run <==> plan.seccomp)
      && run[if InstallSeccomp in run then n - 4 else n - 3] == SetNoNewPrivs
      && (InstallSeccomp in run ==> run[n - 3] == InstallSeccomp)
      && (forall k :: 0 <= k < n - 1 ==> run[k] != Exec)
  {
    var rules, last := RuleRequests(plan.rules, sys), LastRequests(plan.seccomp);
    var run := FullRun(plan, sys);
    assert forall k :: 0 <= k < |rules| ==> rules[k].AddPathRule?;
    assert forall k :: 0 <= k < |last| ==> run[2 + |rules| + k] == last[k];
    assert forall k :: 0 <= k < |rules| ==> run[2 + k] == rules[k];
    if plan.seccomp {
      assert last[1] == InstallSeccomp;
    } else {
      assert forall k :: 0 <= k < |run| ==> run[k] != InstallSeccomp;
    }
  }
}
