// What holds of every run of the handshake.
module HandshakeTheorems {

  import opened Wrappers
  import opened Handshake
  import opened HandshakeInvariant

  lemma ReachableInv(env: Env, foreign: bool, s: State)
    requires Reachable(env, foreign, s)
    ensures Inv(env, s)
  {
    var schedule :| Exec(env, Init(foreign), schedule) == Some(s);
    RunKeepsInv(env, foreign, schedule);
  }

  // ----- Channel discipline -----

  function InFlight(s: State): nat {
    |s.toParent| + |s.parentBuffer| + |s.toChild| + |s.childBuffer|
  }

  // At most one message is anywhere between the two sides, no decoder ever holds one back
  // (so the decoder dropped at the re-exec is empty), and the "unexpected message" branch
  // of await is never taken by either side.
  lemma ChannelDiscipline(env: Env, foreign: bool, s: State)
    requires Reachable(env, foreign, s)
    ensures InFlight(s) <= 1 && s.parentBuffer == [] && s.childBuffer == []
    ensures s.parent.PAwait? && CanDecode(s.parentBuffer, s.toParent) ==>
              Await(s.parent.m, Decoded(s.parentBuffer, s.toParent)) != Unexpected
    ensures s.child.CAwait? && CanDecode(s.childBuffer, s.toChild) ==>
              Await(s.child.m, Decoded(s.childBuffer, s.toChild)) != Unexpected
  {
    ReachableInv(env, foreign, s);
  }

  // ----- End of file -----

  // The program's parent keeps its copy of the child's end, so until Create returns neither
  // side can ever be told that the other is gone, as an end of file would.
  lemma NoEndOfFile(env: Env, foreign: bool, s: State)
    requires Reachable(env, foreign, s) && !env.closesCopy
    ensures s.parent.PAwait? ==>
              && ChildEndOpen(s)
              && Hear(s.parentBuffer, s.toParent, ChildEndOpen(s), s.parent.m) != Some(EndOfFile)
    ensures s.child.CAwait? ==>
              && ParentEndOpen(s)
              && Hear(s.childBuffer, s.toChild, ParentEndOpen(s), s.child.m) != Some(EndOfFile)
  {
    ReachableInv(env, foreign, s);
  }

  // A parent that closes its copy is told exactly when the child is gone without a word.
  lemma EndOfFileExact(env: Env, foreign: bool, s: State)
    requires Reachable(env, foreign, s) && env.closesCopy && s.parent.PAwait?
    ensures Hear(s.parentBuffer, s.toParent, ChildEndOpen(s), s.parent.m) == Some(EndOfFile)
            <==> s.child == CDead && s.toParent == []
    ensures s.child == CDead && s.toParent == [] ==> env.mayDieSilently
  {
    ReachableInv(env, foreign, s);
  }

  // ----- Run ordering -----

  lemma SameRank(a: Event, b: Event)
    requires Rank(a) == Rank(b)
    ensures a == b
  {
  }

  // In every run, an event is preceded by every event of lower rank, and nothing past the
  // rendezvous happens unless Create has returned and a start has opened the FIFO.
  lemma RunOrdering(env: Env, foreign: bool, s: State, early: Event, late: Event)
    requires Reachable(env, foreign, s)
    requires late in s.trace && Rank(early) < Rank(late)
    ensures Rank(late) < |s.trace| && s.trace[Rank(early)] == early && s.trace[Rank(late)] == late
    ensures Rank(late) >= Rank(Rendezvous) ==> s.parent == PReturned(Ok) && s.starter in {SSaving, SDone}
  {
    ReachableInv(env, foreign, s);
    var i :| 0 <= i < |s.trace| && s.trace[i] == late;
    SameRank(s.trace[Rank(early)], early);
  }

  // ----- All or nothing -----

  lemma FailedLeavesNothing(env: Env, s: State)
    requires Coupled(env, s) && Bookkeeping(env, s)
    ensures s.parent == PReturned(Failed) || s.parent == PReturned(ClaimFailed) ==>
              s.record !in {Creating, Created, Running} && s.child in {CNone, CReaped} && !s.leaf
    ensures s.parent == PReturned(ClaimFailed) ==> s.child == CNone
  {
  }

  lemma OkLeavesContainer(env: Env, s: State)
    requires TraceInOrder(s) && Bookkeeping(env, s) && s.parent == PReturned(Ok)
    ensures s.record in {Created, Running} && s.leaf == !env.noCgroup && |s.trace| >= 8
  {
  }

  predicate AllOrNothing(env: Env, s: State)
    requires s.parent.PReturned?
  {
    match s.parent.outcome
    case Ok => s.record in {Created, Running} && s.leaf == !env.noCgroup && |s.trace| >= 8
    case Failed => s.record == NoRecord && s.child in {CNone, CReaped} && !s.leaf
    case ClaimFailed => s.record == NoRecord && s.child == CNone && !s.leaf
    case Taken => false
  }

  lemma ReturnedOnFreeId(env: Env, s: State)
    requires Coupled(env, s) && TraceInOrder(s) && Bookkeeping(env, s) && s.parent.PReturned?
    requires s.record != Foreign && s.parent != PReturned(Taken)
    ensures AllOrNothing(env, s)
  {
    match s.parent.outcome
    case Ok => OkLeavesContainer(env, s);
    case _ => FailedLeavesNothing(env, s);
  }

  // However Create ends on a free id, it leaves a whole container or nothing at all.
  lemma CreateAllOrNothing(env: Env, s: State)
    requires Reachable(env, false, s) && s.parent.PReturned?
    ensures AllOrNothing(env, s)
  {
    var schedule :| Exec(env, Init(false), schedule) == Some(s);
    RunKeepsInv(env, false, schedule);
    FreeIdClaimed(env, schedule);
    ReturnedOnFreeId(env, s);
  }

  // A taken id: the claim is refused, and the existing record and whatever belongs to it
  // stay as they are.
  lemma {:induction false} TakenIdUntouched(env: Env, schedule: seq<Action>)
    ensures match Exec(env, Init(true), schedule)
            case None => true
            case Some(s) => s == Init(true) || s == Init(true).(parent := PReturned(Taken))
  {
    if schedule != [] {
      var n := |schedule| - 1;
      TakenIdUntouched(env, schedule[..n]);
      if Exec(env, Init(true), schedule[..n]).Some? {
        TakenStep(env, Exec(env, Init(true), schedule[..n]).value, schedule[n]);
      }
    }
  }

  lemma TakenStep(env: Env, s: State, a: Action)
    requires s == Init(true) || s == Init(true).(parent := PReturned(Taken))
    ensures Apply(env, s, a).Some? ==> Apply(env, s, a).value == Init(true).(parent := PReturned(Taken))
  {
  }

  lemma {:induction false} FreeIdClaimed(env: Env, schedule: seq<Action>)
    ensures match Exec(env, Init(false), schedule)
            case None => true
            case Some(s) => s.record != Foreign && s.parent != PReturned(Taken)
  {
    if schedule != [] {
      var n := |schedule| - 1;
      FreeIdClaimed(env, schedule[..n]);
      RunKeepsInv(env, false, schedule[..n]);
      if Exec(env, Init(false), schedule[..n]).Some? {
        FreeStep(env, Exec(env, Init(false), schedule[..n]).value, schedule[n]);
      }
    }
  }

  lemma FreeStep(env: Env, s: State, a: Action)
    requires Bookkeeping(env, s) && s.record != Foreign && s.parent != PReturned(Taken)
    ensures Apply(env, s, a).Some? ==>
              Apply(env, s, a).value.record != Foreign && Apply(env, s, a).value.parent != PReturned(Taken)
  {
    match a
    case ParentActs(ok, bytes) =>
    case ChildActs(ok, bytes) => ChildKeepsHostState(env, s, ok, bytes);
    case _ =>
  }

  lemma ChildKeepsHostState(env: Env, s: State, ok: bool, bytes: nat)
    ensures ChildStep(env, s, ok, bytes).Some? ==>
              var t := ChildStep(env, s, ok, bytes).value;
              t.record == s.record && t.leaf == s.leaf && t.parent == s.parent && t.written == s.written
  {
  }

  lemma ParentRemovesLeafLast(env: Env, s: State, ok: bool, bytes: nat)
    requires Coupled(env, s) && Bookkeeping(env, s) && ParentStep(env, s, ok, bytes).Some?
    ensures s.leaf && !ParentStep(env, s, ok, bytes).value.leaf ==> s.parent == PRemoveLeaf && s.child == CReaped
  {
  }

  // The cgroup leaf only ever goes away after the child has been killed and reaped.
  lemma LeafOutlivesChild(env: Env, foreign: bool, s: State, a: Action)
    requires Reachable(env, foreign, s) && Apply(env, s, a).Some?
    ensures s.leaf && !Apply(env, s, a).value.leaf ==> s.child == CReaped && s.parent == PRemoveLeaf
  {
    ReachableInv(env, foreign, s);
    match a
    case ParentActs(ok, bytes) => ParentRemovesLeafLast(env, s, ok, bytes);
    case ChildActs(ok, bytes) => ChildKeepsHostState(env, s, ok, bytes);
    case _ =>
  }

  // ----- Termination -----

  function ParentLeft(p: ParentAt): nat {
    match p
    case PClaim => 40
    case PPrepare => 39
    case PSpawn => 38
    case PWriteConfig => 37
    case PAwait(m) => if m == NsReady then 36 else if m == HookPoint then 30 else 26
    case PDo(e) => if Rank(e) == 0 then 35 else if Rank(e) < 4 then 34 - Rank(e) else 33 - Rank(e)
    case PNewCgroup => 34
    case PSend(m) => if m == MapsReady then 31 else 27
    case PSaveRecord => 25
    case PSendError => 5
    case PKill => 4
    case PReap => 3
    case PRemoveLeaf => 2
    case PDeleteRecord => 1
    case PReturned(_) => 0
  }

  function ChildLeft(c: ChildAt): nat {
    match c
    case CNone => 60
    case CSend(m) => if m == NsReady then 59 else if m == HookPoint then 47 else 39
    case CAwait(m) => if m == MapsReady then 58 else 46
    case CReExec => 57
    case CReadConfig => 56
    case CEnterNamespaces => 55
    case CDo(e) => 54 - 2 * Rank(e)
    case COpenFifo => 38
    case CUserProcess => 21
    case CReport => 2
    case CDead => 1
    case CReaped => 0
  }

  function StarterLeft(t: StarterAt): nat {
    match t
    case SIdle => 3
    case SOpening => 2
    case SSaving => 1
    case SDone => 0
  }

  // A bound on the steps any run can still take.
  function Left(env: Env, s: State): int {
    ParentLeft(s.parent) + ChildLeft(s.child) + StarterLeft(s.starter)
    + (env.configSize - s.written) + (env.configSize - s.read)
  }

  lemma ParentStepsDown(env: Env, s: State, ok: bool, bytes: nat)
    requires OwnSteps(s) && (s.parent == PSpawn ==> s.child == CNone)
    requires ParentStep(env, s, ok, bytes).Some?
    ensures Left(env, ParentStep(env, s, ok, bytes).value) < Left(env, s)
  {
    var t := ParentStep(env, s, ok, bytes).value;
    match s.parent
    case PDo(e) =>
      ParentDoesDown(s, e, ok);
      ParentAloneDown(env, s, t);
    case PAwait(m) =>
      ParentAwaitsDown(s, m);
      ParentAloneDown(env, s, t);
    case PSend(m) =>
      ParentSendsDown(s, m, ok);
      ParentAloneDown(env, s, t);
    case PWriteConfig => ParentWritesDown(env, s, ok, bytes);
    case PSendError => ParentEndsDown(env, s, ok, bytes);
    case PKill => ParentEndsDown(env, s, ok, bytes);
    case PReap => ParentEndsDown(env, s, ok, bytes);
    case PRemoveLeaf => ParentEndsDown(env, s, ok, bytes);
    case PDeleteRecord => ParentEndsDown(env, s, ok, bytes);
    case _ => ParentBeginsDown(env, s, ok, bytes);
  }

  lemma ParentAloneDown(env: Env, s: State, t: State)
    requires ParentLeft(t.parent) < ParentLeft(s.parent)
    requires t.child == s.child && t.starter == s.starter && t.written == s.written && t.read == s.read
    ensures Left(env, t) < Left(env, s)
  {
  }

  lemma ParentBeginsDown(env: Env, s: State, ok: bool, bytes: nat)
    requires s.parent.PClaim? || s.parent.PPrepare? || s.parent.PSpawn? || s.parent.PNewCgroup? || s.parent.PSaveRecord?
    requires s.parent == PSpawn ==> s.child == CNone
    requires ParentStep(env, s, ok, bytes).Some?
    ensures Left(env, ParentStep(env, s, ok, bytes).value) < Left(env, s)
  {
  }

  lemma ParentEndsDown(env: Env, s: State, ok: bool, bytes: nat)
    requires s.parent.PSendError? || s.parent.PKill? || s.parent.PReap? || s.parent.PRemoveLeaf? || s.parent.PDeleteRecord?
    requires ParentStep(env, s, ok, bytes).Some?
    ensures Left(env, ParentStep(env, s, ok, bytes).value) < Left(env, s)
  {
  }

  lemma ParentDoesDown(s: State, e: Event, ok: bool)
    requires s.parent == PDo(e) && OwnSteps(s)
    ensures ParentLeft(ParentDoes(s, e, ok).parent) < ParentLeft(PDo(e))
  {
  }

  lemma ParentSendsDown(s: State, m: Message, ok: bool)
    requires s.parent == PSend(m) && OwnSteps(s)
    ensures ParentLeft(ParentSends(s, m, ok).parent) < ParentLeft(PSend(m))
  {
  }

  lemma ParentWritesDown(env: Env, s: State, ok: bool, bytes: nat)
    requires s.parent == PWriteConfig && ParentWrites(env, s, ok, bytes).Some?
    ensures Left(env, ParentWrites(env, s, ok, bytes).value) < Left(env, s)
  {
  }

  lemma ParentAwaitsDown(s: State, m: Message)
    requires s.parent == PAwait(m) && OwnSteps(s) && ParentAwaits(s, m).Some?
    ensures ParentLeft(ParentAwaits(s, m).value.parent) < ParentLeft(PAwait(m))
  {
  }

  lemma ChildStepsDown(env: Env, s: State, ok: bool, bytes: nat)
    requires OwnSteps(s) && ChildStep(env, s, ok, bytes).Some?
    ensures Left(env, ChildStep(env, s, ok, bytes).value) < Left(env, s)
  {
    var t := ChildStep(env, s, ok, bytes).value;
    match s.child
    case CDo(e) =>
      ChildDoesDown(s, e, ok);
      ChildAloneDown(env, s, t);
    case CAwait(m) =>
      ChildAwaitsDown(s, m);
      ChildAloneDown(env, s, t);
    case CSend(m) =>
      ChildSendsDown(s, m, ok);
      ChildAloneDown(env, s, t);
    case CReadConfig => ChildReadsDown(env, s, bytes);
    case COpenFifo => ChildOpensDown(env, s, ok);
    case _ => ChildMovesOnDown(env, s, ok, bytes);
  }

  lemma ChildAloneDown(env: Env, s: State, t: State)
    requires ChildLeft(t.child) < ChildLeft(s.child)
    requires t.parent == s.parent && t.starter == s.starter && t.written == s.written && t.read == s.read
    ensures Left(env, t) < Left(env, s)
  {
  }

  lemma ChildReadsDown(env: Env, s: State, bytes: nat)
    requires s.child.CReadConfig? && ChildReads(env, s, bytes).Some?
    ensures Left(env, ChildReads(env, s, bytes).value) < Left(env, s)
  {
  }

  lemma ChildOpensDown(env: Env, s: State, ok: bool)
    requires s.child.COpenFifo? && ChildOpensFifo(s, ok).Some?
    ensures Left(env, ChildOpensFifo(s, ok).value) < Left(env, s)
  {
  }

  lemma ChildMovesOnDown(env: Env, s: State, ok: bool, bytes: nat)
    requires s.child.CReExec? || s.child.CEnterNamespaces? || s.child.CUserProcess? || s.child.CReport?
    requires ChildStep(env, s, ok, bytes).Some?
    ensures Left(env, ChildStep(env, s, ok, bytes).value) < Left(env, s)
  {
  }

  lemma ChildAwaitsDown(s: State, m: Message)
    requires s.child == CAwait(m) && OwnSteps(s) && ChildAwaits(s, m).Some?
    ensures var t := ChildAwaits(s, m).value; ChildLeft(t.child) < ChildLeft(CAwait(m))
  {
  }

  lemma ChildSendsDown(s: State, m: Message, ok: bool)
    requires s.child == CSend(m) && OwnSteps(s) && ChildSends(s, m, ok).Some?
    ensures var t := ChildSends(s, m, ok).value; ChildLeft(t.child) < ChildLeft(CSend(m))
  {
  }

  lemma ChildDoesDown(s: State, e: Event, ok: bool)
    requires s.child == CDo(e)
    ensures ChildLeft(ChildDoes(s, e, ok).child) < ChildLeft(CDo(e))
  {
  }

  lemma StepsDown(env: Env, s: State, a: Action)
    requires Inv(env, s) && Apply(env, s, a).Some?
    ensures Left(env, Apply(env, s, a).value) < Left(env, s)
  {
    match a
    case ParentActs(ok, bytes) => ParentStepsDown(env, s, ok, bytes);
    case ChildActs(ok, bytes) => ChildStepsDown(env, s, ok, bytes);
    case ChildVanishes =>
    case StarterActs =>
  }

  lemma {:induction false} RunsAreBounded(env: Env, foreign: bool, schedule: seq<Action>)
    ensures match Exec(env, Init(foreign), schedule)
            case None => true
            case Some(s) => Left(env, s) >= 0 && |schedule| + Left(env, s) <= Left(env, Init(foreign))
  {
    RunKeepsInv(env, foreign, schedule);
    if schedule != [] {
      var n := |schedule| - 1;
      RunsAreBounded(env, foreign, schedule[..n]);
      RunKeepsInv(env, foreign, schedule[..n]);
      match Exec(env, Init(foreign), schedule[..n]) {
        case None =>
        case Some(s) =>
          if Apply(env, s, schedule[n]).Some? {
            StepsDown(env, s, schedule[n]);
          }
      }
    }
  }

  // ----- Deadlock -----

  // Every schedule leaves somebody able to move until Create has returned.
  ghost predicate DeadlockFree(env: Env) {
    forall foreign, s :: Reachable(env, foreign, s) ==> !Deadlocked(env, s)
  }

  predicate Safe(env: Env) {
    env.configSize <= env.capacity && (!env.mayDieSilently || env.closesCopy)
  }

  // Who moves next when the parent is waiting for a message that is not there.
  lemma ChildCanMove(env: Env, s: State)
    requires Safe(env) && Inv(env, s) && s.parent.PAwait? && |s.toParent| == 0
    ensures ChildStep(env, s, true, 1).Some? || (s.child == CDead && !ChildEndOpen(s))
  {
  }

  lemma SomebodyMoves(env: Env, s: State)
    requires Safe(env) && Inv(env, s) && !s.parent.PReturned?
    ensures Apply(env, s, ParentActs(true, 1)).Some? || Apply(env, s, ChildActs(true, 1)).Some?
  {
    if s.parent.PAwait? && |s.toParent| == 0 {
      ChildCanMove(env, s);
    }
  }

  // With a config that fits, and silent deaths only where they can be noticed, Create returns in every run: a run has
  // no more than a fixed number of steps, and one that cannot go on has Create returned.
  lemma CreateReturns(env: Env, foreign: bool, schedule: seq<Action>)
    requires Safe(env)
    ensures match Exec(env, Init(foreign), schedule)
            case None => true
            case Some(s) =>
              && |schedule| <= 103 + 2 * env.configSize
              && !Deadlocked(env, s)
              && ((forall a :: Apply(env, s, a) == None) ==> s.parent.PReturned?)
  {
    RunsAreBounded(env, foreign, schedule);
    RunKeepsInv(env, foreign, schedule);
    match Exec(env, Init(foreign), schedule) {
      case None =>
      case Some(s) =>
        if !s.parent.PReturned? {
          SomebodyMoves(env, s);
        }
    }
  }

  lemma ReachableNext(env: Env, foreign: bool, s: State, a: Action)
    requires Reachable(env, foreign, s) && Apply(env, s, a).Some?
    ensures Reachable(env, foreign, Apply(env, s, a).value)
  {
    var schedule :| Exec(env, Init(foreign), schedule) == Some(s);
    assert (schedule + [a])[..|schedule|] == schedule;
    assert Exec(env, Init(foreign), schedule + [a]) == Apply(env, s, a);
  }

  function Spawned(env: Env): State {
    Init(false).(record := Creating, child := CSend(NsReady), parent := PWriteConfig, copyOpen := !env.closesCopy)
  }

  lemma SpawnedReachable(env: Env)
    ensures Reachable(env, false, Spawned(env))
  {
    var s0 := Init(false);
    assert Exec(env, s0, []) == Some(s0);
    var s1 := s0.(record := Creating, parent := PPrepare);
    ReachableNext(env, false, s0, ParentActs(true, 0));
    var s2 := s1.(parent := PSpawn, copyOpen := true);
    ReachableNext(env, false, s1, ParentActs(true, 0));
    ReachableNext(env, false, s2, ParentActs(true, 0));
  }

  // The parent writes as much of the config as the pipe takes while the child is at `c`.
  lemma PipeFilled(env: Env, s: State)
    requires Reachable(env, false, s) && s.parent == PWriteConfig && s.written == 0 && s.read == 0
    ensures Reachable(env, false, s.(written := if env.configSize <= env.capacity then env.configSize else env.capacity))
  {
    var bytes := if env.configSize <= env.capacity then env.configSize else env.capacity;
    if bytes > 0 {
      ReachableNext(env, false, s, ParentActs(true, bytes));
    } else {
      assert s.(written := bytes) == s;
    }
  }

  // A config longer than the pipe: the parent is stuck writing what the child will only
  // read once the parent has gone on.
  lemma OversizedDeadlock(env: Env) returns (s: State)
    requires env.configSize > env.capacity && !env.mayDieSilently
    ensures Reachable(env, false, s) && Deadlocked(env, s)
    ensures s.parent == PWriteConfig && s.child == CAwait(MapsReady)
  {
    SpawnedReachable(env);
    ReachableNext(env, false, Spawned(env), ChildActs(true, 0));
    s := Spawned(env).(child := CAwait(MapsReady), toParent := [NsReady]);
    assert Spawned(env).toParent + [NsReady] == [NsReady];
    PipeFilled(env, s);
    s := s.(written := env.capacity);
  }

  // A silent death: the parent keeps the child's end of the socket open itself, so it is
  // never told. One that closes it is still stuck if it has more config than the pipe takes,
  // because it keeps the reading end of that pipe too.
  lemma SilentDeadlock(env: Env) returns (s: State)
    requires env.mayDieSilently && (!env.closesCopy || env.configSize > env.capacity)
    ensures Reachable(env, false, s) && Deadlocked(env, s) && s.child == CDead
  {
    SpawnedReachable(env);
    ReachableNext(env, false, Spawned(env), ChildVanishes);
    s := Spawned(env).(child := CDead);
    PipeFilled(env, s);
    s := s.(written := if env.configSize <= env.capacity then env.configSize else env.capacity);
    if env.configSize <= env.capacity {
      ReachableNext(env, false, s, ParentActs(true, 0));
      s := s.(parent := PAwait(NsReady));
    }
  }

  // Create can never be left waiting exactly when the config fits the pipe and no child
  // dies unreported or the parent closes its copy of the child's end.
  lemma DeadlockFreeExact(env: Env)
    ensures DeadlockFree(env) <==> env.configSize <= env.capacity && (!env.mayDieSilently || env.closesCopy)
  {
    if Safe(env) {
      forall foreign, s | Reachable(env, foreign, s) ensures !Deadlocked(env, s) {
        var schedule :| Exec(env, Init(foreign), schedule) == Some(s);
        CreateReturns(env, foreign, schedule);
      }
    } else if env.mayDieSilently {
      var s := SilentDeadlock(env);
    } else {
      var s := OversizedDeadlock(env);
    }
  }

  // ----- A config that does not fit, when nothing else goes wrong -----

  predicate Succeeds(a: Action) {
    match a
    case ParentActs(ok, _) => ok
    case ChildActs(ok, _) => ok
    case ChildVanishes => false
    case StarterActs => true
  }

  // The parent is on its way into the full pipe, the child on its way to wait for mapsReady.
  predicate Filling(env: Env, s: State) {
    && (s.parent.PClaim? || s.parent.PPrepare? || s.parent.PSpawn? || s.parent.PWriteConfig?)
    && (s.parent.PClaim? ==> s.record == NoRecord) && s.record != Created && s.starter == SIdle
    && (s.parent.PWriteConfig? ==> s.child == CSend(NsReady) || s.child == CAwait(MapsReady))
    && (!s.parent.PWriteConfig? ==> s.child == CNone && s.written == 0)
    && s.read == 0 && s.written <= env.capacity
    && |s.toChild| == 0 && |s.childBuffer| == 0
  }

  lemma FillingStays(env: Env, s: State, a: Action)
    requires env.configSize > env.capacity && Filling(env, s) && Succeeds(a) && Apply(env, s, a).Some?
    ensures Filling(env, Apply(env, s, a).value)
  {
  }

  // Only a full pipe stops them, and that for good.
  lemma FillingStops(env: Env, s: State)
    requires env.configSize > env.capacity && Filling(env, s)
    requires forall a :: Succeeds(a) ==> Apply(env, s, a) == None
    ensures s.parent == PWriteConfig && s.child == CAwait(MapsReady) && s.written == env.capacity
    ensures !env.mayDieSilently ==> Deadlocked(env, s)
  {
    assert Succeeds(ParentActs(true, 1)) && Succeeds(ChildActs(true, 1));
    assert Apply(env, s, ParentActs(true, 1)) == None && Apply(env, s, ChildActs(true, 1)) == None;
  }

  // In every run on a free id in which no step fails, a config longer than the pipe keeps
  // Create from returning; where such a run ends, and it must, the parent is stuck writing
  // into the full pipe and the child waiting for mapsReady, for ever.
  lemma {:induction false} OversizedBlocksForever(env: Env, schedule: seq<Action>)
    requires env.configSize > env.capacity
    requires forall i :: 0 <= i < |schedule| ==> Succeeds(schedule[i])
    ensures match Exec(env, Init(false), schedule)
            case None => true
            case Some(s) =>
              && Filling(env, s) && !s.parent.PReturned?
              && ((forall a :: Succeeds(a) ==> Apply(env, s, a) == None) ==>
                    && s.parent == PWriteConfig && s.child == CAwait(MapsReady) && s.written == env.capacity
                    && (!env.mayDieSilently ==> Deadlocked(env, s)))
  {
    if schedule != [] {
      var n := |schedule| - 1;
      OversizedBlocksForever(env, schedule[..n]);
      match Exec(env, Init(false), schedule[..n]) {
        case None =>
        case Some(s) =>
          if Apply(env, s, schedule[n]).Some? {
            FillingStays(env, s, schedule[n]);
          }
      }
    }
    match Exec(env, Init(false), schedule) {
      case None =>
      case Some(s) =>
        if forall a :: Succeeds(a) ==> Apply(env, s, a) == None {
          FillingStops(env, s);
        }
    }
  }

  predicate StuckWriting(s: State) {
    NotSpawned(s.parent) || s.parent == PWriteConfig || RollingBack(s.parent)
  }

  lemma ParentStaysStuck(env: Env, s: State, ok: bool, bytes: nat)
    requires env.configSize > env.capacity && ConfigFlows(env, s) && StuckWriting(s)
    ensures ParentStep(env, s, ok, bytes).Some? ==> StuckWriting(ParentStep(env, s, ok, bytes).value)
  {
  }

  // With a config longer than the pipe no run ever gets past writing it, so Create never
  // succeeds.
  lemma {:induction false} OversizedNeverCreates(env: Env, foreign: bool, schedule: seq<Action>)
    requires env.configSize > env.capacity
    ensures match Exec(env, Init(foreign), schedule)
            case None => true
            case Some(s) => StuckWriting(s) && s.parent != PReturned(Ok)
  {
    if schedule != [] {
      var n := |schedule| - 1;
      OversizedNeverCreates(env, foreign, schedule[..n]);
      RunKeepsInv(env, foreign, schedule[..n]);
      if Exec(env, Init(foreign), schedule[..n]).Some? {
        var s := Exec(env, Init(foreign), schedule[..n]).value;
        match schedule[n] {
          case ParentActs(ok, bytes) => ParentStaysStuck(env, s, ok, bytes);
          case ChildActs(ok, bytes) => ChildKeepsHostState(env, s, ok, bytes);
          case _ =>
        }
      }
    }
  }
}
