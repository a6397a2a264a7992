// The OCI seccomp profile compiler of pkg/security/seccomp.go.
module Seccomp {

  import opened Wrappers
  import opened Bpf

  datatype Action =
    | ActAllow | ActErrno | ActKillProcess | ActKill | ActTrap | ActTrace | ActLog
    | ActOther(text: string)

  // A Go uint or uint64.
  type Long = n: nat | n < 0x1_0000_0000_0000_0000

  datatype Arg = Arg(index: nat, value: Long, valueTwo: Long, op: string)

  datatype Rule = Rule(names: seq<string>, action: Action, errnoRet: Option<Long>, args: seq<Arg>)

  datatype Profile = Profile(defaultAction: Action, defaultErrnoRet: Option<Long>, syscalls: seq<Rule>)

  // The build-time constants of one architecture. Distinct names may share a number.
  datatype Target = Target(auditArch: Word, guardX32: bool, numbers: map<string, Word>)

  datatype ActionError = EmptyAction | UnknownAction(text: string)

  datatype CompileError =
    | UnsupportedArch
    | BadDefaultAction(cause: ActionError)
    | ConditionalRule(index: nat)
    | BadRuleAction(index: nat, cause: ActionError)
    | TooManyInstructions(count: nat)

  const X32_SYSCALL_BIT: Word := 0x4000_0000

  // The verdict word of an OCI action. Only ActErrno looks at `errnoRet`, which is cut to
  // 32 bits and then masked to 16; the masked bits and RET_ERRNO have no bit in common, so
  // their bitwise or is their sum.
  function ActionValue(action: Action, errnoRet: Option<Long>): Result<Word, ActionError> {
    match action
    case ActAllow => Success(RET_ALLOW)
    case ActErrno =>
      var errno: Word := if errnoRet.Some? then errnoRet.value % 0x1_0000_0000 else 1;
      Success(RET_ERRNO + errno % 0x1_0000)
    case ActKillProcess => Success(RET_KILL_PROCESS)
    case ActKill => Success(RET_KILL_THREAD)
    case ActTrap => Success(RET_TRAP)
    case ActTrace => Success(RET_TRACE)
    case ActLog => Success(RET_LOG)
    case ActOther(text) => Failure(if text == "" then EmptyAction else UnknownAction(text))
  }

  // What the OCI Runtime Specification, config-linux.md section "Seccomp", says an action
  // does: SCMP_ACT_KILL kills the thread, SCMP_ACT_ERRNO fails with the low 16 bits of its
  // errno, EPERM when there is none.
  function Intended(action: Action, errnoRet: Option<Long>): Disposition {
    match action
    case ActAllow => Allow
    case ActErrno => Errno(if errnoRet.Some? then errnoRet.value % 0x1_0000 else 1)
    case ActKillProcess => KillProcess
    case ActKill => KillThread
    case ActTrap => Trap
    case ActTrace => Trace
    case ActLog => Log
    case ActOther(_) => KillProcess
  }

  lemma LowHalf(n: nat)
    ensures n % 0x1_0000_0000 % 0x1_0000 == n % 0x1_0000
  {
    assert n == 0x1_0000 * (0x1_0000 * (n / 0x1_0000_0000)) + n % 0x1_0000_0000;
    ModShift(n % 0x1_0000_0000, 0x1_0000 * (n / 0x1_0000_0000));
  }

  lemma ModShift(low: nat, k: nat)
    ensures (0x1_0000 * k + low) % 0x1_0000 == low % 0x1_0000
  {
  }

  lemma ErrnoDecodes(errno: Word)
    ensures Decode(RET_ERRNO + errno % 0x1_0000) == Errno(errno % 0x1_0000)
  {
    ModShift(errno % 0x1_0000, 5);
    assert (RET_ERRNO + errno % 0x1_0000) % 0x1_0000 == errno % 0x1_0000;
  }

  // The kernel reads every accepted action back as what was meant, so no errno value can
  // spill into the action half of the word.
  lemma ActionSurvivesEncoding(action: Action, errnoRet: Option<Long>)
    ensures ActionValue(action, errnoRet).Failure? <==> action.ActOther?
    ensures ActionValue(action, errnoRet).Success? ==>
              Decode(ActionValue(action, errnoRet).value) == Intended(action, errnoRet)
  {
    if action.ActErrno? {
      var errno: Word := if errnoRet.Some? then errnoRet.value % 0x1_0000_0000 else 1;
      ErrnoDecodes(errno);
      if errnoRet.Some? {
        LowHalf(errnoRet.value);
      }
    }
  }

  // A rule covers a number when one of its names resolves to it.
  ghost predicate Covers(rule: Rule, target: Target, nr: Word) {
    exists name :: name in rule.names && name in target.numbers && target.numbers[name] == nr
  }

  // The position of the first rule, in profile order, that covers a number.
  ghost function FirstRule(rules: seq<Rule>, target: Target, nr: Word): (r: Option<nat>)
    ensures r.Some? ==>
              && r.value < |rules| && Covers(rules[r.value], target, nr)
              && forall j :: 0 <= j < r.value ==> !Covers(rules[j], target, nr)
    ensures r.None? ==> forall j :: 0 <= j < |rules| ==> !Covers(rules[j], target, nr)
  {
    if rules == [] then None
    else
      var n := |rules| - 1;
      var earlier := FirstRule(rules[..n], target, nr);
      if earlier.Some? then
        assert forall j :: 0 <= j <= earlier.value ==> rules[..n][j] == rules[j];
        earlier
      else
        assert forall j :: 0 <= j < n ==> rules[..n][j] == rules[j];
        if Covers(rules[n], target, nr) then Some(n) else None
  }

  // The profile's own meaning, with no reference to a program: foreign architectures and
  // x32 calls die, then the first covering rule decides, then the default.
  ghost function Meaning(profile: Profile, target: Target, data: SeccompData): Disposition {
    if data.arch != target.auditArch then KillProcess
    else if target.guardX32 && data.nr >= 0x4000_0000 then KillProcess
    else
      match FirstRule(profile.syscalls, target, data.nr)
      case Some(i) => Intended(profile.syscalls[i].action, profile.syscalls[i].errnoRet)
      case None => Intended(profile.defaultAction, profile.defaultErrnoRet)
  }

  // The first reason, in source order, to refuse one of the rules from `i` on.
  function RuleFault(rules: seq<Rule>, i: nat): Option<CompileError>
    decreases |rules| - i
  {
    if i >= |rules| then None
    else if rules[i].args != [] then Some(ConditionalRule(i))
    else
      match ActionValue(rules[i].action, rules[i].errnoRet)
      case Failure(cause) => Some(BadRuleAction(i, cause))
      case Success(_) => RuleFault(rules, i + 1)
  }

  // How many of the names resolve.
  function Resolved(names: seq<string>, target: Target): nat {
    if names == [] then 0
    else Resolved(names[..|names| - 1], target) + if names[|names| - 1] in target.numbers then 1 else 0
  }

  function ResolvedInRules(rules: seq<Rule>, target: Target): nat {
    if rules == [] then 0
    else ResolvedInRules(rules[..|rules| - 1], target) + Resolved(rules[|rules| - 1].names, target)
  }

  function ProgramLength(profile: Profile, target: Target): nat {
    (if target.guardX32 then 7 else 5) + 2 * ResolvedInRules(profile.syscalls, target)
  }

  // The reason a profile is refused, if it is.
  function Fault(profile: Profile, target: Target): Option<CompileError> {
    if target.auditArch == 0 then Some(UnsupportedArch)
    else
      match ActionValue(profile.defaultAction, profile.defaultErrnoRet)
      case Failure(cause) => Some(BadDefaultAction(cause))
      case Success(_) =>
        if RuleFault(profile.syscalls, 0).Some? then RuleFault(profile.syscalls, 0)
        else if ProgramLength(profile, target) > MAX_INSTRUCTIONS then
          Some(TooManyInstructions(ProgramLength(profile, target)))
        else None
  }

  // A compiled rule list is a list of (number, verdict word) decisions.
  datatype Decision = Decision(nr: Word, word: Word)

  function VerdictWord(action: Action, errnoRet: Option<Long>): Word {
    match ActionValue(action, errnoRet)
    case Success(word) => word
    case Failure(_) => 0
  }

  function NameDecisions(names: seq<string>, word: Word, target: Target): (ds: seq<Decision>)
    ensures |ds| == Resolved(names, target)
  {
    if names == [] then []
    else
      var name := names[|names| - 1];
      NameDecisions(names[..|names| - 1], word, target)
      + if name in target.numbers then [Decision(target.numbers[name], word)] else []
  }

  function RuleDecisions(rules: seq<Rule>, target: Target): (ds: seq<Decision>)
    ensures |ds| == ResolvedInRules(rules, target)
  {
    if rules == [] then []
    else
      var rule := rules[|rules| - 1];
      RuleDecisions(rules[..|rules| - 1], target)
      + NameDecisions(rule.names, VerdictWord(rule.action, rule.errnoRet), target)
  }

  function Compare(d: Decision): SockFilter {
    SockFilter(OP_JUMP_EQUAL, 0, 1, d.nr)
  }

  function Return(word: Word): SockFilter {
    SockFilter(OP_RETURN, 0, 0, word)
  }

  function Body(ds: seq<Decision>): (body: seq<SockFilter>)
    ensures |body| == 2 * |ds|
    ensures forall i :: 0 <= i < |ds| ==> body[2 * i] == Compare(ds[i]) && body[2 * i + 1] == Return(ds[i].word)
  {
    if ds == [] then []
    else
      var n := |ds| - 1;
      var front := Body(ds[..n]);
      assert forall i :: 0 <= i < n ==> ds[..n][i] == ds[i];
      front + [Compare(ds[n]), Return(ds[n].word)]
  }

  function Prologue(target: Target): seq<SockFilter> {
    [ SockFilter(OP_LOAD_ABS_WORD, 0, 0, OFFSET_ARCH),
      SockFilter(OP_JUMP_EQUAL, 1, 0, target.auditArch),
      Return(RET_KILL_PROCESS),
      SockFilter(OP_LOAD_ABS_WORD, 0, 0, OFFSET_NR) ]
    + if target.guardX32 then [SockFilter(OP_JUMP_GE, 0, 1, X32_SYSCALL_BIT), Return(RET_KILL_PROCESS)] else []
  }

  function Program(profile: Profile, target: Target): seq<SockFilter> {
    Prologue(target) + Body(RuleDecisions(profile.syscalls, target))
    + [Return(VerdictWord(profile.defaultAction, profile.defaultErrnoRet))]
  }

  // The pin to one architecture, and the x32 guard where there is one.
  method EmitPrologue(target: Target) returns (r: seq<SockFilter>)
    ensures r == Prologue(target)
  {
    r := [
      SockFilter(OP_LOAD_ABS_WORD, 0, 0, OFFSET_ARCH),
      SockFilter(OP_JUMP_EQUAL, 1, 0, target.auditArch),
      SockFilter(OP_RETURN, 0, 0, RET_KILL_PROCESS),
      SockFilter(OP_LOAD_ABS_WORD, 0, 0, OFFSET_NR)
    ];
    if target.guardX32 {
      r := r + [
        SockFilter(OP_JUMP_GE, 0, 1, X32_SYSCALL_BIT),
        SockFilter(OP_RETURN, 0, 0, RET_KILL_PROCESS)
      ];
    }
  }

  // The inner loop: a comparison and a return for every name this architecture has.
  method EmitNames(filter: seq<SockFilter>, names: seq<string>, action: Word, target: Target, ghost done: seq<Decision>)
    returns (r: seq<SockFilter>)
    requires filter == Prologue(target) + Body(done)
    ensures r == Prologue(target) + Body(done + NameDecisions(names, action, target))
  {
    r := filter;
    ghost var ds: seq<Decision> := [];
    assert done + ds == done;
    var j := 0;
    while j < |names|
      invariant 0 <= j <= |names|
      invariant ds == NameDecisions(names[..j], action, target)
      invariant r == Prologue(target) + Body(done + ds)
    {
      var name := names[j];
      NamesGrow(names, j, action, target);
      if name in target.numbers {
        var nr := target.numbers[name];
        r := r + [SockFilter(OP_JUMP_EQUAL, 0, 1, nr), SockFilter(OP_RETURN, 0, 0, action)];
        BodyGrows(Prologue(target), done, ds, Decision(nr, action));
        ds := ds + [Decision(nr, action)];
      }
      j := j + 1;
    }
    assert names[..j] == names;
  }

  // The outer loop: rule by rule, up to the first one at fault.
  method EmitRules(filter: seq<SockFilter>, rules: seq<Rule>, target: Target)
    returns (r: Result<seq<SockFilter>, CompileError>)
    requires filter == Prologue(target)
    ensures r == match RuleFault(rules, 0)
                 case Some(fault) => Failure(fault)
                 case None => Success(Prologue(target) + Body(RuleDecisions(rules, target)))
  {
    var emitted := filter;
    var i := 0;
    while i < |rules|
      invariant 0 <= i <= |rules|
      invariant RuleFault(rules, 0) == RuleFault(rules, i)
      invariant emitted == Prologue(target) + Body(RuleDecisions(rules[..i], target))
    {
      var rule := rules[i];
      if |rule.args| > 0 {
        return Failure(ConditionalRule(i));
      }
      var action := ActionValue(rule.action, rule.errnoRet);
      if action.Failure? {
        return Failure(BadRuleAction(i, action.error));
      }
      emitted := EmitNames(emitted, rule.names, action.value, target, RuleDecisions(rules[..i], target));
      RulesGrow(rules, i, target);
      i := i + 1;
    }
    assert rules[..i] == rules;
    return Success(emitted);
  }

  // ----- Which profiles are accepted -----

  predicate Sound(r: Rule) {
    r.args == [] && !r.action.ActOther?
  }

  // Where a name of this architecture stands in the profile: rule and place.
  function Hits(rules: seq<Rule>, target: Target): set<(nat, nat)> {
    set i, j | 0 <= i < |rules| && 0 <= j < |rules[i].names| && rules[i].names[j] in target.numbers :: (i, j)
  }

  predicate Acceptable(profile: Profile, target: Target) {
    && target.auditArch != 0 && !profile.defaultAction.ActOther?
    && (forall i :: 0 <= i < |profile.syscalls| ==> Sound(profile.syscalls[i]))
    && (if target.guardX32 then 7 else 5) + 2 * |Hits(profile.syscalls, target)| <= 4096
  }

  predicate FirstUnsound(profile: Profile, i: nat) {
    && i < |profile.syscalls| && !Sound(profile.syscalls[i])
    && forall j :: 0 <= j < i ==> Sound(profile.syscalls[j])
  }

  // Why a profile is refused, error by error.
  ghost predicate Explains(e: CompileError, profile: Profile, target: Target) {
    var supported := target.auditArch != 0;
    var started := supported && !profile.defaultAction.ActOther?;
    match e
    case UnsupportedArch => !supported
    case BadDefaultAction(cause) => supported && Blames(cause, profile.defaultAction)
    case ConditionalRule(i) => started && FirstUnsound(profile, i) && profile.syscalls[i].args != []
    case BadRuleAction(i, cause) =>
      started && FirstUnsound(profile, i) && profile.syscalls[i].args == [] && Blames(cause, profile.syscalls[i].action)
    case TooManyInstructions(count) =>
      && started && (forall i :: 0 <= i < |profile.syscalls| ==> Sound(profile.syscalls[i]))
      && count == (if target.guardX32 then 7 else 5) + 2 * |Hits(profile.syscalls, target)| > 4096
  }

  // An action with no name, or with one that means nothing.
  predicate Blames(cause: ActionError, action: Action) {
    match cause
    case EmptyAction => action == ActOther("")
    case UnknownAction(text) => text != "" && action == ActOther(text)
  }

  function Places(n: nat, names: seq<string>, target: Target): set<(nat, nat)> {
    set j | 0 <= j < |names| && names[j] in target.numbers :: (n, j)
  }

  lemma {:induction false} PlacesCounted(n: nat, names: seq<string>, target: Target)
    ensures |Places(n, names, target)| == Resolved(names, target)
  {
    if names != [] {
      var k := |names| - 1;
      PlacesCounted(n, names[..k], target);
      assert Places(n, names, target) ==
             Places(n, names[..k], target) + if names[k] in target.numbers then {(n, k)} else {};
    }
  }

  lemma {:induction false} HitsCounted(rules: seq<Rule>, target: Target)
    ensures |Hits(rules, target)| == ResolvedInRules(rules, target)
  {
    if rules != [] {
      var n := |rules| - 1;
      HitsCounted(rules[..n], target);
      PlacesCounted(n, rules[n].names, target);
      LastHits(rules, target);
      assert Hits(rules[..n], target) !! Places(n, rules[n].names, target);
    }
  }

  lemma LastHits(rules: seq<Rule>, target: Target)
    requires rules != []
    ensures var n := |rules| - 1; Hits(rules, target) == Hits(rules[..n], target) + Places(n, rules[n].names, target)
  {
  }

  // The first fault among the rules from `i` on is that of the first unsound one.
  lemma {:induction false} RuleFaultExact(rules: seq<Rule>, i: nat)
    requires i <= |rules|
    ensures match RuleFault(rules, i)
            case None => forall j :: i <= j < |rules| ==> Sound(rules[j])
            case Some(e) =>
              && (e.ConditionalRule? || e.BadRuleAction?)
              && i <= e.index < |rules| && !Sound(rules[e.index])
              && (forall j :: i <= j < e.index ==> Sound(rules[j]))
              && (e.ConditionalRule? <==> rules[e.index].args != [])
              && (e.BadRuleAction? ==> Blames(e.cause, rules[e.index].action))
    decreases |rules| - i
  {
    if i < |rules| {
      ActionFault(rules[i].action, rules[i].errnoRet);
      RuleFaultExact(rules, i + 1);
    }
  }

  lemma ActionFault(action: Action, errnoRet: Option<Long>)
    ensures match ActionValue(action, errnoRet)
            case Success(_) => !action.ActOther?
            case Failure(cause) => Blames(cause, action)
  {
  }

  // A profile has no fault exactly when it is acceptable, and its fault explains why not.
  lemma FaultExact(profile: Profile, target: Target)
    ensures Fault(profile, target).None? <==> Acceptable(profile, target)
    ensures Fault(profile, target).Some? ==> Explains(Fault(profile, target).value, profile, target)
  {
    ActionFault(profile.defaultAction, profile.defaultErrnoRet);
    RuleFaultExact(profile.syscalls, 0);
    HitsCounted(profile.syscalls, target);
  }

  // At most one error explains a refusal, and none an acceptable profile.
  lemma OneExplanation(e: CompileError, f: CompileError, profile: Profile, target: Target)
    requires Explains(e, profile, target)
    ensures !Acceptable(profile, target)
    ensures Explains(f, profile, target) ==> e == f
  {
    if Explains(f, profile, target) && (e.ConditionalRule? || e.BadRuleAction?) && (f.ConditionalRule? || f.BadRuleAction?) {
      assert e.index == f.index;
    }
  }

  // A filter the kernel loads, of the expected length, whose verdict on every system call
  // is the profile's.
  ghost predicate Faithful(program: seq<SockFilter>, profile: Profile, target: Target) {
    && WellFormed(program)
    && |program| == ProgramLength(profile, target) < 0x1_0000
    && forall data :: Judge(program, data) == Some(Meaning(profile, target, data))
  }

  // Turns a profile into a filter. Every accepted profile yields a well-formed filter of
  // known length that judges every system call as the profile means; every other profile
  // is refused with its first fault.
  method CompileSeccomp(profile: Profile, target: Target) returns (r: Result<seq<SockFilter>, CompileError>)
    ensures r == match Fault(profile, target)
                 case Some(fault) => Failure(fault)
                 case None => Success(Program(profile, target))
    ensures r.Success? <==> Acceptable(profile, target)
    ensures r.Success? ==> Faithful(r.value, profile, target)
    ensures r.Failure? ==> Explains(r.error, profile, target)
  {
    FaultExact(profile, target);
    if target.auditArch == 0 {
      return Failure(UnsupportedArch);
    }
    var defaultAction := ActionValue(profile.defaultAction, profile.defaultErrnoRet);
    if defaultAction.Failure? {
      return Failure(BadDefaultAction(defaultAction.error));
    }
    var filter := EmitPrologue(target);
    var rules := EmitRules(filter, profile.syscalls, target);
    if rules.Failure? {
      return Failure(rules.error);
    }
    filter := rules.value;
    filter := filter + [SockFilter(OP_RETURN, 0, 0, defaultAction.value)];
    if |filter| > MAX_INSTRUCTIONS {
      return Failure(TooManyInstructions(|filter|));
    }
    CompiledIsFaithful(profile, target);
    return Success(filter);
  }

  lemma BodyGrows(front: seq<SockFilter>, done: seq<Decision>, ds: seq<Decision>, d: Decision)
    ensures front + Body(done + (ds + [d])) == front + Body(done + ds) + [Compare(d), Return(d.word)]
  {
    assert done + (ds + [d]) == (done + ds) + [d];
    assert (done + ds + [d])[..|done + ds|] == done + ds;
  }

  lemma NamesGrow(names: seq<string>, j: nat, word: Word, target: Target)
    requires j < |names|
    ensures NameDecisions(names[..j + 1], word, target) ==
            NameDecisions(names[..j], word, target)
            + if names[j] in target.numbers then [Decision(target.numbers[names[j]], word)] else []
  {
    assert names[..j + 1][..j] == names[..j];
  }

  lemma RulesGrow(rules: seq<Rule>, i: nat, target: Target)
    requires i < |rules|
    ensures RuleDecisions(rules[..i + 1], target) ==
            RuleDecisions(rules[..i], target)
            + NameDecisions(rules[i].names, VerdictWord(rules[i].action, rules[i].errnoRet), target)
  {
    assert rules[..i + 1][..i] == rules[..i];
  }

  lemma BodyInsn(ds: seq<Decision>, i: nat)
    requires i < 2 * |ds|
    ensures Body(ds)[i] == if i % 2 == 0 then Compare(ds[i / 2]) else Return(ds[i / 2].word)
  {
    assert i == 2 * (i / 2) || i == 2 * (i / 2) + 1;
  }

  // Every emitted filter satisfies the kernel's rules, whatever the profile asks for.
  lemma EmittedIsWellFormed(profile: Profile, target: Target)
    requires ProgramLength(profile, target) <= MAX_INSTRUCTIONS
    ensures WellFormed(Program(profile, target))
    ensures |Program(profile, target)| == ProgramLength(profile, target)
    ensures |Program(profile, target)| < 0x1_0000
  {
    var program, n := Program(profile, target), |Prologue(target)|;
    var ds := RuleDecisions(profile.syscalls, target);
    forall i | 0 <= i < |program| ensures InsnOk(program[i], i, |program|) {
      if n <= i < |program| - 1 {
        assert program[i] == Body(ds)[i - n];
        BodyInsn(ds, i - n);
      } else if i < n {
        assert program[i] == Prologue(target)[i];
      }
    }
  }

  // The word of the first decision on a number.
  function FirstHit(ds: seq<Decision>, nr: Word): Option<Word> {
    if ds == [] then None
    else if ds[0].nr == nr then Some(ds[0].word)
    else FirstHit(ds[1..], nr)
  }

  lemma {:induction false} FirstHitConcat(a: seq<Decision>, b: seq<Decision>, nr: Word)
    ensures FirstHit(a + b, nr) == if FirstHit(a, nr).Some? then FirstHit(a, nr) else FirstHit(b, nr)
  {
    if a == [] {
      assert a + b == b;
    } else {
      assert (a + b)[1..] == a[1..] + b;
      FirstHitConcat(a[1..], b, nr);
    }
  }

  lemma {:induction false} NameDecisionsHit(names: seq<string>, word: Word, target: Target, nr: Word)
    ensures FirstHit(NameDecisions(names, word, target), nr) ==
            if exists name :: name in names && name in target.numbers && target.numbers[name] == nr
            then Some(word) else None
  {
    if names != [] {
      var front, name := names[..|names| - 1], names[|names| - 1];
      assert names == front + [name];
      NameDecisionsHit(front, word, target, nr);
      if name in target.numbers {
        var last := [Decision(target.numbers[name], word)];
        assert last[1..] == [];
        FirstHitConcat(NameDecisions(front, word, target), last, nr);
      } else {
        assert NameDecisions(names, word, target) == NameDecisions(front, word, target);
      }
    }
  }

  // The decision list answers with the first covering rule.
  lemma {:induction false} RuleDecisionsHit(rules: seq<Rule>, target: Target, nr: Word)
    ensures FirstHit(RuleDecisions(rules, target), nr) ==
            match FirstRule(rules, target, nr)
            case Some(i) => Some(VerdictWord(rules[i].action, rules[i].errnoRet))
            case None => None
  {
    if rules != [] {
      var front, rule := rules[..|rules| - 1], rules[|rules| - 1];
      var word := VerdictWord(rule.action, rule.errnoRet);
      RuleDecisionsHit(front, target, nr);
      NameDecisionsHit(rule.names, word, target, nr);
      FirstHitConcat(RuleDecisions(front, target), NameDecisions(rule.names, word, target), nr);
    }
  }

  // Running the filter from its i-th comparison yields the first later decision.
  lemma {:induction false} BodyRuns(program: seq<SockFilter>, start: nat, ds: seq<Decision>, i: nat, fallback: Word,
                                    data: SeccompData)
    requires i <= |ds| && |program| == start + 2 * |ds| + 1
    requires program[start..start + 2 * |ds|] == Body(ds)
    requires program[start + 2 * |ds|] == Return(fallback)
    ensures Run(program, start + 2 * i, data.nr, data) ==
            Returned(match FirstHit(ds[i..], data.nr) case Some(word) => word case None => fallback)
    decreases |ds| - i
  {
    if i < |ds| {
      var pc := start + 2 * i;
      assert program[pc] == program[start..start + 2 * |ds|][2 * i] == Compare(ds[i]);
      assert program[pc + 1] == program[start..start + 2 * |ds|][2 * i + 1] == Return(ds[i].word);
      assert ds[i..][1..] == ds[i + 1..];
      BodyRuns(program, start, ds, i + 1, fallback, data);
    }
  }

  lemma PrologueRuns(profile: Profile, target: Target, data: SeccompData)
    ensures var program, n := Program(profile, target), |Prologue(target)|;
            Run(program, 0, 0, data) ==
            if data.arch != target.auditArch then Returned(RET_KILL_PROCESS)
            else if target.guardX32 && data.nr >= X32_SYSCALL_BIT then Returned(RET_KILL_PROCESS)
            else Run(program, n, data.nr, data)
  {
    var program := Program(profile, target);
    assert program[0] == SockFilter(OP_LOAD_ABS_WORD, 0, 0, OFFSET_ARCH);
    assert program[1] == SockFilter(OP_JUMP_EQUAL, 1, 0, target.auditArch);
    assert program[2] == Return(RET_KILL_PROCESS);
    assert program[3] == SockFilter(OP_LOAD_ABS_WORD, 0, 0, OFFSET_NR);
    assert Run(program, 0, 0, data) == Run(program, 1, data.arch, data);
    if data.arch != target.auditArch {
      assert Run(program, 1, data.arch, data) == Run(program, 2, data.arch, data);
    } else {
      assert Run(program, 1, data.arch, data) == Run(program, 3, data.arch, data);
      assert Run(program, 3, data.arch, data) == Run(program, 4, data.nr, data);
      if target.guardX32 {
        assert program[4] == SockFilter(OP_JUMP_GE, 0, 1, X32_SYSCALL_BIT);
        assert program[5] == Return(RET_KILL_PROCESS);
        if data.nr >= X32_SYSCALL_BIT {
          assert Run(program, 4, data.nr, data) == Run(program, 5, data.nr, data);
        } else {
          assert Run(program, 4, data.nr, data) == Run(program, 6, data.nr, data);
        }
      }
    }
  }

  lemma {:induction false} RuleFaultIsFirst(rules: seq<Rule>, i: nat, j: nat)
    requires i <= j < |rules| && RuleFault(rules, i).None?
    ensures rules[j].args == [] && ActionValue(rules[j].action, rules[j].errnoRet).Success?
    decreases j - i
  {
    if i < j {
      RuleFaultIsFirst(rules, i + 1, j);
    }
  }

  lemma MiddleOf<T>(front: seq<T>, middle: seq<T>, last: T)
    ensures var s := front + middle + [last];
            && |s| == |front| + |middle| + 1
            && s[|front|..|front| + |middle|] == middle
            && s[|front| + |middle|] == last
  {
  }

  // Past the prologue the filter runs its comparisons.
  lemma ComparisonsRun(profile: Profile, target: Target, data: SeccompData)
    ensures Run(Program(profile, target), |Prologue(target)|, data.nr, data) ==
            Returned(match FirstHit(RuleDecisions(profile.syscalls, target), data.nr)
                     case Some(word) => word
                     case None => VerdictWord(profile.defaultAction, profile.defaultErrnoRet))
  {
    var ds := RuleDecisions(profile.syscalls, target);
    var word := VerdictWord(profile.defaultAction, profile.defaultErrnoRet);
    var n, start := |Prologue(target)|, 0;
    MiddleOf(Prologue(target), Body(ds), Return(word));
    BodyRuns(Program(profile, target), n, ds, start, word, data);
    assert ds[start..] == ds;
  }

  // The filter returns the word of the first covering rule, or the default's.
  lemma FilterReturns(profile: Profile, target: Target, data: SeccompData)
    requires data.arch == target.auditArch
    requires !(target.guardX32 && data.nr >= X32_SYSCALL_BIT)
    ensures Run(Program(profile, target), 0, 0, data) ==
            Returned(match FirstRule(profile.syscalls, target, data.nr)
                     case Some(i) => VerdictWord(profile.syscalls[i].action, profile.syscalls[i].errnoRet)
                     case None => VerdictWord(profile.defaultAction, profile.defaultErrnoRet))
  {
    PrologueRuns(profile, target, data);
    ComparisonsRun(profile, target, data);
    RuleDecisionsHit(profile.syscalls, target, data.nr);
  }

  // Compiler correctness: the filter of an accepted profile judges every system call as
  // the profile means.
  lemma CompilerCorrect(profile: Profile, target: Target, data: SeccompData)
    requires Fault(profile, target).None?
    ensures Judge(Program(profile, target), data) == Some(Meaning(profile, target, data))
  {
    if data.arch != target.auditArch || (target.guardX32 && data.nr >= X32_SYSCALL_BIT) {
      PrologueRuns(profile, target, data);
    } else {
      FilterReturns(profile, target, data);
      ActionSurvivesEncoding(profile.defaultAction, profile.defaultErrnoRet);
      var first := FirstRule(profile.syscalls, target, data.nr);
      if first.Some? {
        var rule := profile.syscalls[first.value];
        RuleFaultIsFirst(profile.syscalls, 0, first.value);
        ActionSurvivesEncoding(rule.action, rule.errnoRet);
      }
    }
  }

  lemma CompiledIsFaithful(profile: Profile, target: Target)
    requires Fault(profile, target).None?
    ensures Faithful(Program(profile, target), profile, target)
  {
    EmittedIsWellFormed(profile, target);
    forall data ensures Judge(Program(profile, target), data) == Some(Meaning(profile, target, data)) {
      CompilerCorrect(profile, target, data);
    }
  }
}
