// What comes of the handshake: everything when no step fails, and no container when one does.
module HandshakeOutcomes {

  import opened Wrappers
  import opened Handshake
  import opened HandshakeInvariant
  import opened HandshakeTheorems

  // ----- Runs in which no step fails -----

  ghost predicate AllSucceed(schedule: seq<Action>) {
    forall i :: 0 <= i < |schedule| ==> Succeeds(schedule[i])
  }

  // Nothing has gone wrong so far: nobody is rolling back or reporting, no error is under
  // way, and the child has not ended before running the user's command.
  predicate Smooth(s: State) {
    && !RollingBack(s.parent) && s.parent != PSendError && (s.parent.PReturned? ==> s.parent == PReturned(Ok))
    && (s.parent.PClaim? ==> s.record == NoRecord)
    && s.child != CReport && s.child != CReaped
    && (s.child == CUserProcess || s.child == CDead ==> |s.trace| == 17 && s.parent == PReturned(Ok))
    && (|s.toParent| == 1 ==> s.toParent[0] != ErrorMessage) && (|s.toChild| == 1 ==> s.toChild[0] != ErrorMessage)
    && (s.starter == SDone ==> s.record == Running) && (s.parent == PReturned(Ok) && s.starter != SDone ==> s.record == Created)
    && (s.starter == SSaving || s.starter == SDone ==> |s.trace| > 8)
  }

  lemma ParentStaysSmooth(env: Env, s: State, bytes: nat)
    requires Coupled(env, s) && Smooth(s) && ParentStep(env, s, true, bytes).Some?
    requires s.starter != SIdle ==> s.parent == PReturned(Ok)
    ensures Smooth(ParentStep(env, s, true, bytes).value)
  {
    match s.parent
    case PAwait(m) => ParentHearsSmoothly(env, s);
    case PSend(m) => ParentIsHeard(env, s);
    case PDo(e) => ParentDoesSmoothly(env, s);
    case PWriteConfig => ParentWritesSmoothly(env, s, bytes);
    case _ => ParentGoesOnSmoothly(env, s, bytes);
  }

  lemma ParentDoesSmoothly(env: Env, s: State)
    requires Coupled(env, s) && Smooth(s) && s.parent.PDo?
    ensures Smooth(ParentDoes(s, s.parent.e, true))
  {
  }

  lemma ParentWritesSmoothly(env: Env, s: State, bytes: nat)
    requires Smooth(s) && s.parent.PWriteConfig? && ParentWrites(env, s, true, bytes).Some?
    ensures Smooth(ParentWrites(env, s, true, bytes).value)
  {
  }

  lemma ParentGoesOnSmoothly(env: Env, s: State, bytes: nat)
    requires Coupled(env, s) && Smooth(s) && ParentStep(env, s, true, bytes).Some?
    requires s.parent.PClaim? || s.parent.PPrepare? || s.parent.PSpawn? || s.parent.PNewCgroup? || s.parent.PSaveRecord?
    ensures Smooth(ParentStep(env, s, true, bytes).value)
  {
  }

  lemma ParentHearsSmoothly(env: Env, s: State)
    requires Coupled(env, s) && Smooth(s) && s.parent.PAwait? && ParentAwaits(s, s.parent.m).Some?
    ensures Smooth(ParentAwaits(s, s.parent.m).value)
  {
  }

  lemma ParentIsHeard(env: Env, s: State)
    requires Coupled(env, s) && Smooth(s) && s.parent.PSend?
    ensures ChildEndOpen(s) && Smooth(ParentSends(s, s.parent.m, true))
  {
  }

  lemma ChildStaysSmooth(env: Env, s: State, bytes: nat)
    requires Coupled(env, s) && TraceInOrder(s) && Smooth(s) && ChildStep(env, s, true, bytes).Some?
    ensures Smooth(ChildStep(env, s, true, bytes).value)
  {
    match s.child
    case CAwait(m) => ChildHearsSmoothly(env, s);
    case CDo(e) => ChildDoesSmoothly(env, s);
    case CSend(m) => ChildSendsSmoothly(env, s);
    case COpenFifo => ChildOpensSmoothly(env, s);
    case _ => ChildGoesOnSmoothly(env, s, bytes);
  }

  lemma ChildSendsSmoothly(env: Env, s: State)
    requires Coupled(env, s) && Smooth(s) && s.child.CSend? && ChildSends(s, s.child.m, true).Some?
    ensures Smooth(ChildSends(s, s.child.m, true).value)
  {
  }

  lemma ChildOpensSmoothly(env: Env, s: State)
    requires Coupled(env, s) && TraceInOrder(s) && Smooth(s) && s.child.COpenFifo? && ChildOpensFifo(s, true).Some?
    ensures Smooth(ChildOpensFifo(s, true).value)
  {
  }

  lemma ChildGoesOnSmoothly(env: Env, s: State, bytes: nat)
    requires Smooth(s) && ChildStep(env, s, true, bytes).Some?
    requires s.child.CReExec? || s.child.CReadConfig? || s.child.CEnterNamespaces? || s.child.CUserProcess?
    ensures Smooth(ChildStep(env, s, true, bytes).value)
  {
  }

  lemma ChildHearsSmoothly(env: Env, s: State)
    requires Coupled(env, s) && Smooth(s) && s.child.CAwait? && ChildAwaits(s, s.child.m).Some?
    ensures Smooth(ChildAwaits(s, s.child.m).value)
  {
  }

  lemma ChildDoesSmoothly(env: Env, s: State)
    requires Coupled(env, s) && TraceInOrder(s) && Smooth(s) && s.child.CDo?
    ensures Smooth(ChildDoes(s, s.child.e, true))
  {
  }

  lemma StaysSmooth(env: Env, s: State, a: Action)
    requires Inv(env, s) && Smooth(s) && Succeeds(a) && Apply(env, s, a).Some?
    ensures Smooth(Apply(env, s, a).value)
  {
    match a
    case ParentActs(_, bytes) => ParentStaysSmooth(env, s, bytes);
    case ChildActs(_, bytes) => ChildStaysSmooth(env, s, bytes);
    case StarterActs =>
  }

  // On a free id, as long as no step fails, Create never rolls back or gives up.
  lemma {:induction false} RunStaysSmooth(env: Env, schedule: seq<Action>)
    requires AllSucceed(schedule)
    ensures match Exec(env, Init(false), schedule)
            case None => true
            case Some(s) => Inv(env, s) && Smooth(s)
  {
    RunKeepsInv(env, false, schedule);
    if schedule != [] {
      var n := |schedule| - 1;
      RunStaysSmooth(env, schedule[..n]);
      match Exec(env, Init(false), schedule[..n]) {
        case None =>
        case Some(s) =>
          if Apply(env, s, schedule[n]).Some? {
            StaysSmooth(env, s, schedule[n]);
          }
      }
    }
  }

  // Parent and child have nothing left to do.
  ghost predicate AtRest(env: Env, s: State) {
    && (forall bytes :: ParentStep(env, s, true, bytes) == None)
    && (forall bytes :: ChildStep(env, s, true, bytes) == None)
  }

  // A container that waits for its start.
  predicate Parked(env: Env, s: State) {
    && s.parent == PReturned(Ok) && s.record == Created && s.child == COpenFifo
    && s.leaf == !env.noCgroup && |s.trace| == 8
  }

  // One that has been started, and whose command has run to its end.
  predicate Finished(env: Env, s: State) {
    && s.parent == PReturned(Ok) && s.record == Running && s.child == CDead && s.starter == SDone
    && s.leaf == !env.noCgroup && |s.trace| == 17
  }

  // The whole life of a container up to the user's exec.
  function WholeTrace(): seq<Event> {
    [IdMaps, JoinCgroup, SetLimits, Mounts, PrestartHooks, CreateRuntimeHooks, CreateContainerHooks, Pivot, Rendezvous,
     StartContainerHooks, ResolveBinary, ProcessLimits, SwitchUser, ReduceCapabilities, NoNewPrivileges, InstallSeccomp,
     UserExec]
  }

  lemma WholeTraceOnly(trace: seq<Event>)
    requires Ordered(trace) && |trace| <= 17
    ensures trace == WholeTrace()[..|trace|]
  {
    forall i | 0 <= i < |trace| ensures trace[i] == WholeTrace()[i] {
      assert Rank(trace[i]) == i;
      SameRank(trace[i], WholeTrace()[i]);
    }
  }

  lemma RestingParent(env: Env, s: State)
    requires env.configSize <= env.capacity && Inv(env, s) && Smooth(s)
    requires ParentStep(env, s, true, 1) == None && ChildStep(env, s, true, 1) == None
    ensures s.parent == PReturned(Ok)
  {
    if s.parent.PAwait? {
      assert |s.toParent| == 0;
      RestingChild(env, s);
    }
  }

  lemma RestingChild(env: Env, s: State)
    requires env.configSize <= env.capacity && Inv(env, s) && Smooth(s)
    requires s.parent.PAwait? && |s.toParent| == 0
    ensures ChildStep(env, s, true, 1).Some? || ParentStep(env, s, true, 1).Some?
  {
  }

  lemma RestsParked(env: Env, s: State)
    requires Inv(env, s) && Smooth(s) && s.parent == PReturned(Ok) && ChildStep(env, s, true, 1) == None
    ensures s.starter == SIdle ==> Parked(env, s)
    ensures s.starter != SIdle && StarterStep(s) == None ==> Finished(env, s)
  {
    if |s.trace| == 8 {
      OpensFifo(env, s);
    }
  }

  lemma OpensFifo(env: Env, s: State)
    requires Coupled(env, s) && TraceInOrder(s) && s.parent == PReturned(Ok) && |s.trace| == 8 && Smooth(s)
    ensures s.child == COpenFifo
  {
  }

  // Where a run on a free id in which no step fails comes to rest before anybody starts the
  // container, Create has succeeded: the record says created and the container is parked.
  lemma CreateSucceeds(env: Env, schedule: seq<Action>)
    requires env.configSize <= env.capacity && AllSucceed(schedule)
    ensures match Exec(env, Init(false), schedule)
            case None => true
            case Some(s) =>
              && !RollingBack(s.parent) && (s.parent.PReturned? ==> s.parent == PReturned(Ok))
              && (AtRest(env, s) && s.starter == SIdle ==> Parked(env, s) && s.trace == WholeTrace()[..8])
  {
    RunStaysSmooth(env, schedule);
    match Exec(env, Init(false), schedule) {
      case None =>
      case Some(s) =>
        if AtRest(env, s) && s.starter == SIdle {
          RestingParent(env, s);
          RestsParked(env, s);
          WholeTraceOnly(s.trace);
        }
    }
  }

  // A start that meets a parked container releases it, and itself.
  lemma StartReleases(env: Env, foreign: bool, s: State)
    requires Reachable(env, foreign, s) && s.parent == PReturned(Ok) && s.child == COpenFifo && s.starter == SOpening
    ensures forall bytes :: ChildStep(env, s, true, bytes).Some?
    ensures forall bytes ::
              var t := ChildStep(env, s, true, bytes).value;
              t.trace == s.trace + [Rendezvous] && |t.trace| == 9 && t.starter == SSaving && StarterStep(t).Some?
  {
    ReachableInv(env, foreign, s);
  }

  // Where a run on a free id in which no step fails can go no further at all, a start has
  // come by, every event has happened in order up to the user's exec, and the record says
  // running.
  lemma RunFinishes(env: Env, schedule: seq<Action>)
    requires env.configSize <= env.capacity && AllSucceed(schedule)
    ensures match Exec(env, Init(false), schedule)
            case None => true
            case Some(s) => (forall a :: Succeeds(a) ==> Apply(env, s, a) == None) ==> Finished(env, s) && s.trace == WholeTrace()
  {
    RunStaysSmooth(env, schedule);
    match Exec(env, Init(false), schedule) {
      case None =>
      case Some(s) =>
        if forall a :: Succeeds(a) ==> Apply(env, s, a) == None {
          assert Apply(env, s, ParentActs(true, 1)) == None && Apply(env, s, ChildActs(true, 1)) == None;
          assert Apply(env, s, StarterActs) == None;
          RestingParent(env, s);
          RestsParked(env, s);
          WholeTraceOnly(s.trace);
          assert WholeTrace()[..17] == WholeTrace();
        }
    }
  }

  // Such a run can always be continued to that end.
  lemma {:induction false} EveryRunCanFinish(env: Env, schedule: seq<Action>) returns (whole: seq<Action>)
    requires env.configSize <= env.capacity && AllSucceed(schedule) && Exec(env, Init(false), schedule).Some?
    ensures schedule <= whole && AllSucceed(whole)
    ensures Exec(env, Init(false), whole).Some? && Finished(env, Exec(env, Init(false), whole).value)
    decreases Left(env, Init(false)) - |schedule|
  {
    var s := Exec(env, Init(false), schedule).value;
    RunsAreBounded(env, false, schedule);
    if a :| Succeeds(a) && Apply(env, s, a).Some? {
      assert (schedule + [a])[..|schedule|] == schedule;
      assert Exec(env, Init(false), schedule + [a]) == Apply(env, s, a);
      RunsAreBounded(env, false, schedule + [a]);
      whole := EveryRunCanFinish(env, schedule + [a]);
    } else {
      RunFinishes(env, schedule);
      whole := schedule;
    }
  }

  // ----- Runs in which a step fails -----

  // The steps of the parent that have a failure of their own: a send, an event, and so on,
  // but not a wait and not the rollback.
  predicate ParentFails(env: Env, s: State, a: Action) {
    && a.ParentActs? && !a.ok
    && (s.parent.PClaim? || s.parent.PPrepare? || s.parent.PSpawn? || s.parent.PSend? || s.parent.PDo?
        || s.parent.PNewCgroup? || s.parent.PSaveRecord? || (s.parent.PWriteConfig? && s.written < env.configSize))
  }

  predicate ChildFails(s: State, a: Action) {
    || (a.ChildActs? && !a.ok
        && (s.child.CSend? || s.child.CReExec? || s.child.CEnterNamespaces? || s.child.CDo? || s.child.COpenFifo?))
    || a.ChildVanishes?
  }

  // Create cannot succeed any more: the parent has given up, or the child is gone, or about
  // to go, and has not said procReady.
  predicate ParentLost(s: State) {
    RollingBack(s.parent) || s.parent == PSendError || s.parent == PReturned(ClaimFailed) || s.parent == PReturned(Taken)
  }

  predicate Deserted(s: State) {
    && (s.child == CReport || s.child == CDead)
    && (s.parent.PWriteConfig? || s.parent.PAwait? || s.parent.PSend? || s.parent.PDo? || s.parent.PNewCgroup?)
    && (|s.toParent| == 1 ==> s.toParent[0] != ProcReady)
  }

  predicate Lost(s: State) {
    ParentLost(s) || Deserted(s)
  }

  // The user's command cannot be run any more.
  predicate Stopped(s: State) {
    |s.trace| < 17 && (s.child == CReport || s.child == CDead || s.child == CReaped)
  }

  lemma ParentStaysLost(env: Env, s: State, ok: bool, bytes: nat)
    requires ParentLost(s) && ParentStep(env, s, ok, bytes).Some?
    ensures ParentLost(ParentStep(env, s, ok, bytes).value)
  {
  }

  lemma HearsDeserted(env: Env, s: State)
    requires Coupled(env, s) && Deserted(s) && s.parent.PAwait? && ParentAwaits(s, s.parent.m).Some?
    ensures Lost(ParentAwaits(s, s.parent.m).value)
  {
  }

  lemma ParentDeserted(env: Env, s: State, ok: bool, bytes: nat)
    requires Coupled(env, s) && Deserted(s) && ParentStep(env, s, ok, bytes).Some?
    ensures Lost(ParentStep(env, s, ok, bytes).value)
  {
    match s.parent
    case PAwait(m) => HearsDeserted(env, s);
    case _ =>
  }

  lemma ChildDeserts(env: Env, s: State, ok: bool, bytes: nat)
    requires Coupled(env, s) && Deserted(s) && ChildStep(env, s, ok, bytes).Some?
    ensures Deserted(ChildStep(env, s, ok, bytes).value)
  {
  }

  lemma StaysLost(env: Env, s: State, a: Action)
    requires Inv(env, s) && Lost(s) && Apply(env, s, a).Some?
    ensures Lost(Apply(env, s, a).value)
  {
    match a
    case ParentActs(ok, bytes) =>
      if ParentLost(s) {
        ParentStaysLost(env, s, ok, bytes);
      } else {
        ParentDeserted(env, s, ok, bytes);
      }
    case ChildActs(ok, bytes) =>
      ChildKeepsHostState(env, s, ok, bytes);
      if Deserted(s) {
        ChildDeserts(env, s, ok, bytes);
      }
    case _ =>
  }

  lemma ParentKeepsStopped(env: Env, s: State, ok: bool, bytes: nat)
    requires TraceInOrder(s) && OwnSteps(s) && (s.parent.PSpawn? ==> s.child == CNone)
    requires Stopped(s) && ParentStep(env, s, ok, bytes).Some?
    ensures Stopped(ParentStep(env, s, ok, bytes).value)
  {
  }

  lemma ChildKeepsStopped(env: Env, s: State, ok: bool, bytes: nat)
    requires Stopped(s) && ChildStep(env, s, ok, bytes).Some?
    ensures Stopped(ChildStep(env, s, ok, bytes).value)
  {
  }

  lemma StaysStopped(env: Env, s: State, a: Action)
    requires Inv(env, s) && Stopped(s) && Apply(env, s, a).Some?
    ensures Stopped(Apply(env, s, a).value)
  {
    match a
    case ParentActs(ok, bytes) => ParentKeepsStopped(env, s, ok, bytes);
    case ChildActs(ok, bytes) => ChildKeepsStopped(env, s, ok, bytes);
    case _ =>
  }

  lemma ParentFailureLoses(env: Env, s: State, a: Action)
    requires ParentFails(env, s, a) && Apply(env, s, a).Some?
    ensures ParentLost(Apply(env, s, a).value)
  {
  }

  lemma ChildFailureStops(env: Env, s: State, a: Action)
    requires Inv(env, s) && ChildFails(s, a) && Apply(env, s, a).Some?
    ensures Stopped(Apply(env, s, a).value)
  {
  }

  // Before procReady a child that fails takes Create with it.
  lemma ChildFailureLoses(env: Env, s: State, a: Action)
    requires Inv(env, s) && ChildFails(s, a) && Owing(s.child) && Apply(env, s, a).Some?
    ensures Lost(Apply(env, s, a).value)
  {
  }

  lemma {:induction false} LostForGood(env: Env, s: State, rest: seq<Action>)
    requires Inv(env, s)
    ensures match Exec(env, s, rest)
            case None => true
            case Some(t) => Inv(env, t) && (Lost(s) ==> Lost(t)) && (Stopped(s) ==> Stopped(t))
  {
    if rest != [] {
      var n := |rest| - 1;
      LostForGood(env, s, rest[..n]);
      match Exec(env, s, rest[..n]) {
        case None =>
        case Some(u) =>
          if Apply(env, u, rest[n]).Some? {
            StepKeepsInv(env, u, rest[n]);
            if Lost(u) {
              StaysLost(env, u, rest[n]);
            }
            if Stopped(u) {
              StaysStopped(env, u, rest[n]);
            }
          }
      }
    }
  }

  lemma NeverRun(env: Env, t: State)
    requires Inv(env, t) && (Lost(t) || Stopped(t))
    ensures UserExec !in t.trace && (Lost(t) ==> t.parent != PReturned(Ok))
  {
    assert |t.trace| < 17;
    forall i | 0 <= i < |t.trace| ensures t.trace[i] != UserExec {
      assert Rank(t.trace[i]) == i;
    }
  }

  lemma FailureLosesOrStops(env: Env, s: State, a: Action)
    requires Inv(env, s) && Apply(env, s, a).Some?
    requires ParentFails(env, s, a) || ChildFails(s, a)
    ensures Lost(Apply(env, s, a).value) || (Stopped(Apply(env, s, a).value) && ChildFails(s, a) && !Owing(s.child))
  {
    if ParentFails(env, s, a) {
      ParentFailureLoses(env, s, a);
    } else if Owing(s.child) {
      ChildFailureLoses(env, s, a);
    } else {
      ChildFailureStops(env, s, a);
    }
  }

  // No failure is ever ignored. Once a step of the parent has failed, or one of the child
  // before procReady, Create does not succeed, however the run goes on; and once any step
  // of either has failed the user's command is not run.
  lemma FailureIsFatal(env: Env, foreign: bool, s: State, a: Action, rest: seq<Action>)
    requires Reachable(env, foreign, s) && Apply(env, s, a).Some?
    requires ParentFails(env, s, a) || ChildFails(s, a)
    ensures match Exec(env, Apply(env, s, a).value, rest)
            case None => true
            case Some(t) =>
              && (ParentFails(env, s, a) || Owing(s.child) ==> t.parent != PReturned(Ok))
              && UserExec !in t.trace
  {
    ReachableInv(env, foreign, s);
    StepKeepsInv(env, s, a);
    FailureLosesOrStops(env, s, a);
    var u := Apply(env, s, a).value;
    LostForGood(env, u, rest);
    match Exec(env, u, rest) {
      case None =>
      case Some(t) => NeverRun(env, t);
    }
  }

  // A failed hook of the parent is reported to the child, which waits for hooksDone if it is
  // there at all, before the rollback begins.
  lemma HookFailureTold(env: Env, foreign: bool, s: State, bytes: nat)
    requires Reachable(env, foreign, s) && (s.parent == PDo(PrestartHooks) || s.parent == PDo(CreateRuntimeHooks))
    requires ChildEndOpen(s)
    ensures var failed := ParentStep(env, s, false, bytes).value;
            var told := ParentStep(env, failed, true, bytes);
            told.Some? && told.value.toChild == [ErrorMessage] && told.value.parent == PKill
    ensures ChildHolds(s.child) ==> s.child == CAwait(HooksDone)
  {
    ReachableInv(env, foreign, s);
    HooksFindChannelEmpty(env, s);
    if ChildHolds(s.child) {
      HooksMeetChild(env, s);
    }
  }

  lemma HooksFindChannelEmpty(env: Env, s: State)
    requires Coupled(env, s) && (s.parent == PDo(PrestartHooks) || s.parent == PDo(CreateRuntimeHooks))
    ensures s.toChild == []
  {
  }

  lemma HooksMeetChild(env: Env, s: State)
    requires Coupled(env, s) && (s.parent == PDo(PrestartHooks) || s.parent == PDo(CreateRuntimeHooks)) && ChildHolds(s.child)
    ensures s.child == CAwait(HooksDone)
  {
  }

  // The child, if it lives to hear of it, reports it in turn and ends.
  lemma HookFailureHeard(env: Env, foreign: bool, s: State, bytes: nat)
    requires Reachable(env, foreign, s) && s.child == CAwait(HooksDone) && s.toChild == [ErrorMessage]
    ensures var heard := ChildStep(env, s, true, bytes);
            heard.Some? && heard.value.child == CReport &&
            var gone := ChildStep(env, heard.value, true, bytes);
            gone.Some? && gone.value.child == CDead && gone.value.toParent == s.toParent + [ErrorMessage]
  {
    ReachableInv(env, foreign, s);
    assert s.childBuffer == [];
  }

  // ----- The config -----

  predicate PastConfig(c: ChildAt) {
    match c
    case CEnterNamespaces => true
    case CDo(_) => true
    case CSend(m) => m != NsReady
    case CAwait(m) => m != MapsReady
    case COpenFifo => true
    case CUserProcess => true
    case _ => false
  }

  // A child past the config has read all of it, and nothing is mounted before.
  predicate ConfigHeard(env: Env, s: State) {
    PastConfig(s.child) || |s.trace| > 3 ==> s.read == env.configSize
  }

  lemma ParentKeepsConfigHeard(env: Env, s: State, ok: bool, bytes: nat)
    requires Coupled(env, s) && TraceInOrder(s) && ConfigHeard(env, s) && ParentStep(env, s, ok, bytes).Some?
    ensures ConfigHeard(env, ParentStep(env, s, ok, bytes).value)
  {
    if s.parent.PDo? {
      ParentDoesAfterMounts(env, s, ok);
    } else {
      ParentTouchesNothing(env, s, ok, bytes);
    }
  }

  // But for its events the parent changes nothing the child has read or done, and moves the
  // child only by cloning, killing or reaping it.
  lemma ParentTouchesNothing(env: Env, s: State, ok: bool, bytes: nat)
    requires !s.parent.PDo? && ParentStep(env, s, ok, bytes).Some?
    ensures var t := ParentStep(env, s, ok, bytes).value;
            t.trace == s.trace && t.read == s.read && (t.child == s.child || !PastConfig(t.child))
  {
  }

  lemma ParentDoesAfterMounts(env: Env, s: State, ok: bool)
    requires Coupled(env, s) && TraceInOrder(s) && ConfigHeard(env, s) && s.parent.PDo?
    ensures ConfigHeard(env, ParentDoes(s, s.parent.e, ok))
  {
  }

  lemma ChildKeepsConfigHeard(env: Env, s: State, ok: bool, bytes: nat)
    requires OwnSteps(s) && ConfigFlows(env, s) && ConfigHeard(env, s) && ChildStep(env, s, ok, bytes).Some?
    ensures ConfigHeard(env, ChildStep(env, s, ok, bytes).value)
  {
  }

  // In every run the whole config has been read before the first mount.
  lemma {:induction false} ConfigBeforeMounts(env: Env, foreign: bool, schedule: seq<Action>)
    ensures match Exec(env, Init(foreign), schedule)
            case None => true
            case Some(s) => ConfigHeard(env, s) && (Mounts in s.trace ==> s.read == s.written == env.configSize)
  {
    RunKeepsInv(env, foreign, schedule);
    if schedule != [] {
      var n := |schedule| - 1;
      ConfigBeforeMounts(env, foreign, schedule[..n]);
      RunKeepsInv(env, foreign, schedule[..n]);
      match Exec(env, Init(foreign), schedule[..n]) {
        case None =>
        case Some(s) =>
          match schedule[n] {
            case ParentActs(ok, bytes) => if ParentStep(env, s, ok, bytes).Some? { ParentKeepsConfigHeard(env, s, ok, bytes); }
            case ChildActs(ok, bytes) => if ChildStep(env, s, ok, bytes).Some? { ChildKeepsConfigHeard(env, s, ok, bytes); }
            case _ =>
          }
      }
    }
    match Exec(env, Init(foreign), schedule) {
      case None =>
      case Some(s) => MountsAreFourth(env, s);
    }
  }

  lemma MountsAreFourth(env: Env, s: State)
    requires Inv(env, s) && ConfigHeard(env, s)
    ensures Mounts in s.trace ==> s.read == s.written == env.configSize
  {
    forall i | 0 <= i < |s.trace| && s.trace[i] == Mounts ensures |s.trace| > 3 {
      assert Rank(s.trace[i]) == i;
    }
  }
}
