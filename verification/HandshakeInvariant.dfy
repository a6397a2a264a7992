// What every step of the handshake keeps.
module HandshakeInvariant {

  import opened Wrappers
  import opened Handshake

  // The five messages of a successful handshake, in order. The child sends the even ones
  // and the parent the odd ones, so each side has five turns at the channel and turn i of
  // one is the partner of turn i of the other.
  function Index(m: Message): nat {
    match m
    case NsReady => 0
    case MapsReady => 1
    case HookPoint => 2
    case HooksDone => 3
    case ProcReady => 4
    case ErrorMessage => 5
  }

  // How many turns the parent has had, unless it is rolling back.
  function ParentTurns(p: ParentAt): nat {
    match p
    case PAwait(m) => Index(m)
    case PSend(m) => Index(m)
    case PDo(e) => if Rank(e) < Rank(Mounts) then 1 else 3
    case PNewCgroup => 1
    case PSendError => 3
    case PSaveRecord => 5
    case PReturned(_) => 5
    case _ => 0
  }

  // How many turns a living child has had.
  function ChildTurns(c: ChildAt): nat {
    match c
    case CSend(m) => Index(m)
    case CAwait(m) => Index(m)
    case CReExec => 2
    case CReadConfig => 2
    case CEnterNamespaces => 2
    case CDo(e) => if Rank(e) < Rank(PrestartHooks) then 2 else if Rank(e) < Rank(Rendezvous) then 4 else 5
    case COpenFifo => 5
    case CUserProcess => 5
    case _ => 0
  }

  predicate RollingBack(p: ParentAt) {
    p.PKill? || p.PReap? || p.PRemoveLeaf? || p.PDeleteRecord? || p == PReturned(Failed)
  }

  predicate NotSpawned(p: ParentAt) {
    p.PClaim? || p.PPrepare? || p.PSpawn? || p == PReturned(Taken) || p == PReturned(ClaimFailed)
  }

  // Each side only ever awaits, sends or does what is its own.
  predicate OwnSteps(s: State) {
    && (s.parent.PAwait? ==> s.parent.m.NsReady? || s.parent.m.HookPoint? || s.parent.m.ProcReady?)
    && (s.parent.PSend? ==> s.parent.m.MapsReady? || s.parent.m.HooksDone?)
    && (s.parent.PDo? ==> Rank(s.parent.e) in {0, 1, 2, 4, 5})
    && (s.child.CSend? ==> s.child.m.NsReady? || s.child.m.HookPoint? || s.child.m.ProcReady?)
    && (s.child.CAwait? ==> s.child.m.MapsReady? || s.child.m.HooksDone?)
    && (s.child.CDo? ==> Rank(s.child.e) in {3, 6, 7} || Rank(s.child.e) > 8)
  }

  // The turns at which the parent is the one to receive.
  predicate Receives(turn: nat) {
    turn == 0 || turn == 2 || turn == 4
  }

  predicate Holds(queue: seq<Message>, turn: nat) {
    |queue| == 1 && Index(queue[0]) == turn
  }

  // Parent going forward, child alive: their turns differ by at most one, and the one
  // message in flight is the one that makes the difference.
  predicate InStep(s: State) {
    var p, c := ParentTurns(s.parent), ChildTurns(s.child);
    if c == p then |s.toParent| == 0 && |s.toChild| == 0
    else if c == p + 1 then Receives(p) && Holds(s.toParent, p) && |s.toChild| == 0
    else p == c + 1 && !Receives(c) && Holds(s.toChild, c) && |s.toParent| == 0
  }

  // Parent going forward, child about to report a failure or dead. Only a parent whose
  // turn it is to receive can have anything waiting; unless the child may die silently, a
  // parent that is not done with the channel does have something.
  predicate Abandoned(env: Env, s: State) {
    var p := ParentTurns(s.parent);
    && (s.child.CReport? ==> s.parent.PAwait? && p > 0 && |s.toParent| == 0 && |s.toChild| == 0)
    && (s.child.CDead? ==>
          && |s.toParent| + |s.toChild| <= 1
          && (!Receives(p) ==> |s.toParent| + |s.toChild| == 0)
          && (|s.toParent| == 1 ==> Index(s.toParent[0]) == p || (s.toParent[0] == ErrorMessage && s.parent.PAwait?))
          && (|s.toChild| == 1 ==> p > 0 && Index(s.toChild[0]) == p - 1 && env.mayDieSilently)
          && (|s.toParent| == 0 && p < 5 ==> env.mayDieSilently)
          && (|s.toParent| == 1 && s.toParent[0] != ErrorMessage && p < 4 ==> env.mayDieSilently))
  }

  // Parent rolling back: a child that is still alive is waiting for it, or has nobody left
  // to wait for.
  predicate Doomed(s: State) {
    && |s.toParent| + |s.toChild| <= 1
    && (s.parent.PKill? ==> s.child != CNone && s.child != CReaped)
    && (s.parent.PReap? ==> s.child == CDead)
    && (s.parent.PRemoveLeaf? || s.parent.PDeleteRecord? || s.parent.PReturned? ==> s.child == CNone || s.child == CReaped)
    && (s.parent.PKill? && s.child != CDead ==>
          && (s.child == CSend(NsReady) || s.child == CAwait(MapsReady) || s.child == CAwait(HooksDone)
              || s.child == CReport || s.child == COpenFifo)
          && (|s.toChild| == 1 ==> s.child == CAwait(HooksDone) && s.toChild[0] == ErrorMessage)
          && (|s.toParent| == 1 ==> s.child == CAwait(MapsReady)))
  }

  // The whole coupling. Decoders never read ahead.
  predicate Coupled(env: Env, s: State) {
    && |s.parentBuffer| == 0 && |s.childBuffer| == 0
    && OwnSteps(s)
    && (NotSpawned(s.parent) ==> s.child == CNone)
    && (s.child == CNone ==>
          |s.toParent| + |s.toChild| == 0 && (NotSpawned(s.parent) || (RollingBack(s.parent) && !s.parent.PKill?)))
    && (s.child == CReaped ==> RollingBack(s.parent))
    && (RollingBack(s.parent) ==> Doomed(s))
    && (!RollingBack(s.parent) && Alive(s.child) && s.child != CReport ==> InStep(s))
    && (!RollingBack(s.parent) && (s.child == CReport || s.child == CDead) ==> Abandoned(env, s))
    && (s.starter != SIdle ==> s.parent == PReturned(Ok))
    && (ChildTurns(s.child) == 5 && s.child != COpenFifo ==> s.parent == PReturned(Ok))
  }

  // Config bytes are conserved and never overfill the pipe; a parent past the write has
  // written everything.
  predicate ConfigFlows(env: Env, s: State) {
    && s.read <= s.written <= env.configSize && s.written - s.read <= env.capacity
    && (NotSpawned(s.parent) ==> s.written == 0)
    && (!RollingBack(s.parent) && !NotSpawned(s.parent) && s.parent != PWriteConfig ==> s.written == env.configSize)
    && (!RollingBack(s.parent) && ParentTurns(s.parent) < 2 ==> s.read == 0)
  }

  // Events happen in rank order without gaps.
  predicate Ordered(trace: seq<Event>) {
    forall i :: 0 <= i < |trace| ==> Rank(trace[i]) == i
  }

  // How many events are behind a message.
  function EventsBefore(m: Message): nat {
    match m
    case NsReady => 0
    case MapsReady => 3
    case HookPoint => 4
    case HooksDone => 6
    case _ => 8
  }

  // Whoever is about to do an event finds exactly the earlier ones done.
  predicate TraceInOrder(s: State) {
    && Ordered(s.trace)
    && (NotSpawned(s.parent) || s.parent.PWriteConfig? || s.parent == PAwait(NsReady) ==> |s.trace| == 0)
    && (s.parent.PDo? ==> |s.trace| == Rank(s.parent.e))
    && (s.parent.PNewCgroup? ==> |s.trace| == 1)
    && (s.parent.PSend? ==> |s.trace| == EventsBefore(s.parent.m))
    && (s.parent.PSaveRecord? || s.parent == PReturned(Ok) ==> |s.trace| >= 8)
    && (s.child.CDo? ==> |s.trace| == Rank(s.child.e))
    && (s.child.CReExec? || s.child.CReadConfig? || s.child.CEnterNamespaces? ==> |s.trace| == 3)
    && (s.child.CSend? && !s.child.m.NsReady? ==> |s.trace| == EventsBefore(s.child.m))
    && (s.child.COpenFifo? ==> |s.trace| == 8)
    && (|s.trace| > 8 ==> s.starter == SSaving || s.starter == SDone)
    && (!RollingBack(s.parent) && |s.toParent| == 1 && s.toParent[0] != ErrorMessage ==> |s.trace| == EventsBefore(s.toParent[0]))
    && (!RollingBack(s.parent) && |s.toChild| == 1 ==> |s.trace| == EventsBefore(s.toChild[0]))
  }

  predicate BeforeCgroup(p: ParentAt) {
    NotSpawned(p) || p.PWriteConfig? || p == PAwait(NsReady) || p == PDo(IdMaps) || p.PNewCgroup?
  }

  // The record and the cgroup leaf follow the parent.
  predicate Bookkeeping(env: Env, s: State) {
    && (s.record == Foreign ==> s.parent.PClaim? || s.parent == PReturned(Taken))
    && (s.record == Creating <==> !s.parent.PClaim? && !s.parent.PReturned?)
    && (s.record == Created || s.record == Running <==> s.parent == PReturned(Ok))
    && (s.parent == PReturned(Taken) ==> s.record == Foreign)
    && (s.parent.PDeleteRecord? || s.parent == PReturned(Failed) || s.child == CNone ==> !s.leaf)
    && (BeforeCgroup(s.parent) ==> !s.leaf)
    && (!RollingBack(s.parent) && ParentTurns(s.parent) > 1 && !NotSpawned(s.parent) ==> s.leaf == !env.noCgroup)
    && (s.parent == PDo(SetLimits) || s.parent == PSend(MapsReady) || s.parent == PDo(JoinCgroup) ==> s.leaf == !env.noCgroup)
  }

  // The parent has its copy of the child's end from making the pair until it has cloned
  // the child, and after that, unless it closes it there, until its deferred closing.
  predicate CopyKept(env: Env, s: State) {
    s.copyOpen <==> s.parent.PSpawn? || (!env.closesCopy && !NotSpawned(s.parent) && ParentEndOpen(s))
  }

  // What the coupling does not say.
  predicate Accounts(env: Env, s: State) {
    ConfigFlows(env, s) && TraceInOrder(s) && Bookkeeping(env, s) && CopyKept(env, s)
  }

  predicate Inv(env: Env, s: State) {
    Coupled(env, s) && Accounts(env, s)
  }

  lemma InitInv(env: Env, foreign: bool)
    ensures Inv(env, Init(foreign))
  {
  }

  // ----- The coupling, step by step -----

  lemma ParentSetsUp(env: Env, s: State, ok: bool, bytes: nat)
    requires Coupled(env, s) && NotSpawned(s.parent) && ParentStep(env, s, ok, bytes).Some?
    ensures Coupled(env, ParentStep(env, s, ok, bytes).value)
  {
  }

  lemma ParentWritesSome(env: Env, s: State, written: nat)
    requires Coupled(env, s)
    ensures Coupled(env, s.(written := written))
  {
  }

  lemma ParentTurnsToListen(env: Env, s: State)
    requires Coupled(env, s) && s.parent.PWriteConfig?
    ensures Coupled(env, s.(parent := PAwait(NsReady)))
  {
  }

  lemma ParentFailsToWrite(env: Env, s: State)
    requires Coupled(env, s) && s.parent.PWriteConfig?
    ensures Coupled(env, s.(parent := PKill))
  {
  }

  lemma ParentWritesConfig(env: Env, s: State, ok: bool, bytes: nat)
    requires Coupled(env, s) && s.parent.PWriteConfig? && ParentWrites(env, s, ok, bytes).Some?
    ensures Coupled(env, ParentWrites(env, s, ok, bytes).value)
  {
    ParentWritesSome(env, s, s.written + bytes);
    ParentTurnsToListen(env, s);
    ParentFailsToWrite(env, s);
  }

  lemma ParentReceivesFromLiving(env: Env, s: State)
    requires Coupled(env, s) && s.parent.PAwait? && ParentAwaits(s, s.parent.m).Some? && s.child != CDead
    ensures Coupled(env, ParentAwaits(s, s.parent.m).value)
  {
  }

  lemma ParentReceivesFromDead(env: Env, s: State)
    requires Coupled(env, s) && s.parent.PAwait? && ParentAwaits(s, s.parent.m).Some? && s.child == CDead
    ensures Coupled(env, ParentAwaits(s, s.parent.m).value)
  {
  }

  lemma ParentSendsMapsReady(env: Env, s: State, ok: bool)
    requires Coupled(env, s) && s.parent == PSend(MapsReady)
    ensures Coupled(env, ParentSends(s, MapsReady, ok))
  {
  }

  lemma ParentSendsHooksDone(env: Env, s: State, ok: bool)
    requires Coupled(env, s) && s.parent == PSend(HooksDone)
    ensures Coupled(env, ParentSends(s, HooksDone, ok))
  {
  }

  lemma ParentConfines(env: Env, s: State, ok: bool)
    requires Coupled(env, s) && s.parent.PDo? && Rank(s.parent.e) < Rank(Mounts)
    ensures Coupled(env, ParentDoes(s, s.parent.e, ok))
  {
  }

  lemma ParentRunsHooks(env: Env, s: State, ok: bool)
    requires Coupled(env, s) && s.parent.PDo? && Rank(s.parent.e) > Rank(Mounts)
    ensures Coupled(env, ParentDoes(s, s.parent.e, ok))
  {
  }

  lemma ParentMakesCgroup(env: Env, s: State, ok: bool, bytes: nat)
    requires Coupled(env, s) && s.parent.PNewCgroup? && ParentStep(env, s, ok, bytes).Some?
    ensures Coupled(env, ParentStep(env, s, ok, bytes).value)
  {
  }

  lemma ParentSaves(env: Env, s: State, ok: bool, bytes: nat)
    requires Coupled(env, s) && s.parent.PSaveRecord? && ParentStep(env, s, ok, bytes).Some?
    ensures Coupled(env, ParentStep(env, s, ok, bytes).value)
  {
  }

  lemma ParentReports(env: Env, s: State, ok: bool, bytes: nat)
    requires Coupled(env, s) && s.parent.PSendError? && ParentStep(env, s, ok, bytes).Some?
    ensures Coupled(env, ParentStep(env, s, ok, bytes).value)
  {
  }

  lemma ParentRollsBack(env: Env, s: State, ok: bool, bytes: nat)
    requires Coupled(env, s) && RollingBack(s.parent) && ParentStep(env, s, ok, bytes).Some?
    ensures Coupled(env, ParentStep(env, s, ok, bytes).value)
  {
  }

  lemma ParentStepCoupled(env: Env, s: State, ok: bool, bytes: nat)
    requires Coupled(env, s) && ParentStep(env, s, ok, bytes).Some?
    ensures Coupled(env, ParentStep(env, s, ok, bytes).value)
  {
    match s.parent
    case PWriteConfig => ParentWritesConfig(env, s, ok, bytes);
    case PAwait(m) =>
      if s.child == CDead {
        ParentReceivesFromDead(env, s);
      } else {
        ParentReceivesFromLiving(env, s);
      }
    case PSend(m) =>
      if m == MapsReady {
        ParentSendsMapsReady(env, s, ok);
      } else {
        ParentSendsHooksDone(env, s, ok);
      }
    case PDo(e) =>
      if Rank(e) < Rank(Mounts) {
        ParentConfines(env, s, ok);
      } else {
        ParentRunsHooks(env, s, ok);
      }
    case PNewCgroup => ParentMakesCgroup(env, s, ok, bytes);
    case PSaveRecord => ParentSaves(env, s, ok, bytes);
    case PSendError => ParentReports(env, s, ok, bytes);
    case PClaim => ParentSetsUp(env, s, ok, bytes);
    case PPrepare => ParentSetsUp(env, s, ok, bytes);
    case PSpawn => ParentSetsUp(env, s, ok, bytes);
    case _ => ParentRollsBack(env, s, ok, bytes);
  }

  lemma ChildSendsNsReady(env: Env, s: State, ok: bool)
    requires Coupled(env, s) && s.child == CSend(NsReady) && ChildSends(s, NsReady, ok).Some?
    ensures Coupled(env, ChildSends(s, NsReady, ok).value)
  {
  }

  lemma ChildSendsLater(env: Env, s: State, ok: bool)
    requires Coupled(env, s) && s.child.CSend? && s.child.m != NsReady
    ensures Coupled(env, ChildSends(s, s.child.m, ok).value)
  {
  }

  lemma ChildReceivesMapsReady(env: Env, s: State)
    requires Coupled(env, s) && s.child == CAwait(MapsReady) && ChildAwaits(s, MapsReady).Some?
    ensures Coupled(env, ChildAwaits(s, MapsReady).value)
  {
  }

  lemma ChildReceivesHooksDone(env: Env, s: State)
    requires Coupled(env, s) && s.child == CAwait(HooksDone) && ChildAwaits(s, HooksDone).Some?
    ensures Coupled(env, ChildAwaits(s, HooksDone).value)
  {
  }

  lemma ChildReExecs(env: Env, s: State, ok: bool, bytes: nat)
    requires Coupled(env, s) && s.child.CReExec? && ChildStep(env, s, ok, bytes).Some?
    ensures Coupled(env, ChildStep(env, s, ok, bytes).value)
  {
  }

  lemma ChildReadsConfig(env: Env, s: State, bytes: nat)
    requires Coupled(env, s) && s.child.CReadConfig? && ChildReads(env, s, bytes).Some?
    ensures Coupled(env, ChildReads(env, s, bytes).value)
  {
  }

  lemma ChildEntersNamespaces(env: Env, s: State, ok: bool, bytes: nat)
    requires Coupled(env, s) && s.child.CEnterNamespaces? && ChildStep(env, s, ok, bytes).Some?
    ensures Coupled(env, ChildStep(env, s, ok, bytes).value)
  {
  }

  lemma ChildPreparesRoot(env: Env, s: State, ok: bool)
    requires Coupled(env, s) && s.child.CDo? && Rank(s.child.e) < Rank(Rendezvous)
    ensures Coupled(env, ChildDoes(s, s.child.e, ok))
  {
  }

  lemma ChildBecomesUser(env: Env, s: State, ok: bool)
    requires Coupled(env, s) && s.child.CDo? && Rank(s.child.e) > Rank(Rendezvous)
    ensures Coupled(env, ChildDoes(s, s.child.e, ok))
  {
  }

  lemma ChildReleases(env: Env, s: State, ok: bool)
    requires Coupled(env, s) && s.child.COpenFifo? && ChildOpensFifo(s, ok).Some?
    ensures Coupled(env, ChildOpensFifo(s, ok).value)
  {
  }

  lemma ChildEnds(env: Env, s: State, ok: bool, bytes: nat)
    requires Coupled(env, s) && (s.child.CUserProcess? || s.child.CReport?) && ChildStep(env, s, ok, bytes).Some?
    ensures Coupled(env, ChildStep(env, s, ok, bytes).value)
  {
  }

  lemma ChildVanishing(env: Env, s: State)
    requires Coupled(env, s) && ChildDies(env, s).Some?
    ensures Coupled(env, ChildDies(env, s).value)
  {
  }

  lemma ChildStepCoupled(env: Env, s: State, ok: bool, bytes: nat)
    requires Coupled(env, s) && ChildStep(env, s, ok, bytes).Some?
    ensures Coupled(env, ChildStep(env, s, ok, bytes).value)
  {
    match s.child
    case CSend(m) =>
      if m == NsReady {
        ChildSendsNsReady(env, s, ok);
      } else {
        ChildSendsLater(env, s, ok);
      }
    case CAwait(m) =>
      if m == MapsReady {
        ChildReceivesMapsReady(env, s);
      } else {
        ChildReceivesHooksDone(env, s);
      }
    case CReExec => ChildReExecs(env, s, ok, bytes);
    case CReadConfig => ChildReadsConfig(env, s, bytes);
    case CEnterNamespaces => ChildEntersNamespaces(env, s, ok, bytes);
    case CDo(e) =>
      if Rank(e) < Rank(Rendezvous) {
        ChildPreparesRoot(env, s, ok);
      } else {
        ChildBecomesUser(env, s, ok);
      }
    case COpenFifo => ChildReleases(env, s, ok);
    case _ => ChildEnds(env, s, ok, bytes);
  }

  lemma StarterMoves(env: Env, s: State)
    requires Coupled(env, s) && StarterStep(s).Some? && (s.record == Created ==> s.parent == PReturned(Ok))
    ensures Coupled(env, StarterStep(s).value)
  {
  }

  // ----- The rest of the invariant, step by step -----

  lemma SetUpAccounts(env: Env, s: State, ok: bool, bytes: nat)
    requires Coupled(env, s) && Accounts(env, s) && (s.parent.PClaim? || s.parent.PPrepare? || s.parent.PSpawn?) && ParentStep(env, s, ok, bytes).Some?
    ensures Accounts(env, ParentStep(env, s, ok, bytes).value)
  {
  }

  lemma WriteAccounts(env: Env, s: State, ok: bool, bytes: nat)
    requires Coupled(env, s) && Accounts(env, s) && s.parent.PWriteConfig? && ParentWrites(env, s, ok, bytes).Some?
    ensures Accounts(env, ParentWrites(env, s, ok, bytes).value)
  {
  }

  lemma ParentAwaitAccounts(env: Env, s: State)
    requires Coupled(env, s) && Accounts(env, s) && s.parent.PAwait? && ParentAwaits(s, s.parent.m).Some?
    ensures Accounts(env, ParentAwaits(s, s.parent.m).value)
  {
  }

  lemma ParentSendAccounts(env: Env, s: State, ok: bool)
    requires Coupled(env, s) && Accounts(env, s) && s.parent.PSend?
    ensures Accounts(env, ParentSends(s, s.parent.m, ok))
  {
  }

  lemma ConfineAccounts(env: Env, s: State, ok: bool)
    requires Coupled(env, s) && Accounts(env, s) && s.parent.PDo? && Rank(s.parent.e) < Rank(Mounts)
    ensures Accounts(env, ParentDoes(s, s.parent.e, ok))
  {
  }

  lemma HookAccounts(env: Env, s: State, ok: bool)
    requires Coupled(env, s) && Accounts(env, s) && s.parent.PDo? && Rank(s.parent.e) > Rank(Mounts)
    ensures Accounts(env, ParentDoes(s, s.parent.e, ok))
  {
  }

  lemma CgroupAccounts(env: Env, s: State, ok: bool, bytes: nat)
    requires Coupled(env, s) && Accounts(env, s) && s.parent.PNewCgroup? && ParentStep(env, s, ok, bytes).Some?
    ensures Accounts(env, ParentStep(env, s, ok, bytes).value)
  {
  }

  lemma SaveAccounts(env: Env, s: State, ok: bool, bytes: nat)
    requires Coupled(env, s) && Accounts(env, s) && s.parent.PSaveRecord? && ParentStep(env, s, ok, bytes).Some?
    ensures Accounts(env, ParentStep(env, s, ok, bytes).value)
  {
  }

  lemma ReportAccounts(env: Env, s: State, ok: bool, bytes: nat)
    requires Coupled(env, s) && Accounts(env, s) && s.parent.PSendError? && ParentStep(env, s, ok, bytes).Some?
    ensures Accounts(env, ParentStep(env, s, ok, bytes).value)
  {
  }

  lemma KillAccounts(env: Env, s: State, ok: bool, bytes: nat)
    requires Coupled(env, s) && Accounts(env, s) && (s.parent.PKill? || s.parent.PReap?) && ParentStep(env, s, ok, bytes).Some?
    ensures Accounts(env, ParentStep(env, s, ok, bytes).value)
  {
  }

  lemma CleanAccounts(env: Env, s: State, ok: bool, bytes: nat)
    requires Coupled(env, s) && Accounts(env, s) && (s.parent.PRemoveLeaf? || s.parent.PDeleteRecord?) && ParentStep(env, s, ok, bytes).Some?
    ensures Accounts(env, ParentStep(env, s, ok, bytes).value)
  {
  }

  lemma ParentStepAccounts(env: Env, s: State, ok: bool, bytes: nat)
    requires Coupled(env, s) && Accounts(env, s) && ParentStep(env, s, ok, bytes).Some?
    ensures Accounts(env, ParentStep(env, s, ok, bytes).value)
  {
    match s.parent
    case PWriteConfig => WriteAccounts(env, s, ok, bytes);
    case PAwait(_) => ParentAwaitAccounts(env, s);
    case PSend(_) => ParentSendAccounts(env, s, ok);
    case PDo(e) =>
      if Rank(e) < Rank(Mounts) {
        ConfineAccounts(env, s, ok);
      } else {
        HookAccounts(env, s, ok);
      }
    case PNewCgroup => CgroupAccounts(env, s, ok, bytes);
    case PSaveRecord => SaveAccounts(env, s, ok, bytes);
    case PSendError => ReportAccounts(env, s, ok, bytes);
    case PKill => KillAccounts(env, s, ok, bytes);
    case PReap => KillAccounts(env, s, ok, bytes);
    case PRemoveLeaf => CleanAccounts(env, s, ok, bytes);
    case PDeleteRecord => CleanAccounts(env, s, ok, bytes);
    case _ => SetUpAccounts(env, s, ok, bytes);
  }

  lemma ChildSendAccounts(env: Env, s: State, ok: bool)
    requires Coupled(env, s) && Accounts(env, s) && s.child.CSend? && ChildSends(s, s.child.m, ok).Some?
    ensures Accounts(env, ChildSends(s, s.child.m, ok).value)
  {
  }

  lemma ChildAwaitAccounts(env: Env, s: State)
    requires Coupled(env, s) && Accounts(env, s) && s.child.CAwait? && ChildAwaits(s, s.child.m).Some?
    ensures Accounts(env, ChildAwaits(s, s.child.m).value)
  {
  }

  lemma ReExecAccounts(env: Env, s: State, ok: bool, bytes: nat)
    requires Coupled(env, s) && Accounts(env, s) && (s.child.CReExec? || s.child.CEnterNamespaces?) && ChildStep(env, s, ok, bytes).Some?
    ensures Accounts(env, ChildStep(env, s, ok, bytes).value)
  {
  }

  lemma ReadAccounts(env: Env, s: State, bytes: nat)
    requires Coupled(env, s) && Accounts(env, s) && s.child.CReadConfig? && ChildReads(env, s, bytes).Some?
    ensures Accounts(env, ChildReads(env, s, bytes).value)
  {
  }

  lemma RootAccounts(env: Env, s: State, ok: bool)
    requires Coupled(env, s) && Accounts(env, s) && s.child.CDo? && Rank(s.child.e) < Rank(Rendezvous)
    ensures Accounts(env, ChildDoes(s, s.child.e, ok))
  {
  }

  lemma UserAccounts(env: Env, s: State, ok: bool)
    requires Coupled(env, s) && Accounts(env, s) && s.child.CDo? && Rank(s.child.e) > Rank(Rendezvous)
    ensures Accounts(env, ChildDoes(s, s.child.e, ok))
  {
  }

  lemma ReleaseAccounts(env: Env, s: State, ok: bool)
    requires Coupled(env, s) && Accounts(env, s) && s.child.COpenFifo? && ChildOpensFifo(s, ok).Some?
    ensures Accounts(env, ChildOpensFifo(s, ok).value)
  {
  }

  lemma EndAccounts(env: Env, s: State, ok: bool, bytes: nat)
    requires Coupled(env, s) && Accounts(env, s) && (s.child.CUserProcess? || s.child.CReport?) && ChildStep(env, s, ok, bytes).Some?
    ensures Accounts(env, ChildStep(env, s, ok, bytes).value)
  {
  }

  lemma VanishAccounts(env: Env, s: State)
    requires Coupled(env, s) && Accounts(env, s) && ChildDies(env, s).Some?
    ensures Accounts(env, ChildDies(env, s).value)
  {
  }

  lemma StarterAccounts(env: Env, s: State)
    requires Coupled(env, s) && Accounts(env, s) && StarterStep(s).Some?
    ensures Accounts(env, StarterStep(s).value)
  {
  }

  lemma ChildStepAccounts(env: Env, s: State, ok: bool, bytes: nat)
    requires Coupled(env, s) && Accounts(env, s) && ChildStep(env, s, ok, bytes).Some?
    ensures Accounts(env, ChildStep(env, s, ok, bytes).value)
  {
    match s.child
    case CSend(_) => ChildSendAccounts(env, s, ok);
    case CAwait(_) => ChildAwaitAccounts(env, s);
    case CReExec => ReExecAccounts(env, s, ok, bytes);
    case CEnterNamespaces => ReExecAccounts(env, s, ok, bytes);
    case CReadConfig => ReadAccounts(env, s, bytes);
    case CDo(e) =>
      if Rank(e) < Rank(Rendezvous) {
        RootAccounts(env, s, ok);
      } else {
        UserAccounts(env, s, ok);
      }
    case COpenFifo => ReleaseAccounts(env, s, ok);
    case _ => EndAccounts(env, s, ok, bytes);
  }

  // ----- All of it -----

  lemma StepCoupled(env: Env, s: State, a: Action)
    requires Inv(env, s) && Apply(env, s, a).Some?
    ensures Coupled(env, Apply(env, s, a).value)
  {
    match a
    case ParentActs(ok, bytes) => ParentStepCoupled(env, s, ok, bytes);
    case ChildActs(ok, bytes) => ChildStepCoupled(env, s, ok, bytes);
    case ChildVanishes => ChildVanishing(env, s);
    case StarterActs => StarterMoves(env, s);
  }

  lemma StepAccounts(env: Env, s: State, a: Action)
    requires Inv(env, s) && Apply(env, s, a).Some?
    ensures Accounts(env, Apply(env, s, a).value)
  {
    match a
    case ParentActs(ok, bytes) => ParentStepAccounts(env, s, ok, bytes);
    case ChildActs(ok, bytes) => ChildStepAccounts(env, s, ok, bytes);
    case ChildVanishes => VanishAccounts(env, s);
    case StarterActs => StarterAccounts(env, s);
  }

  // Every step of every process, failing or not, keeps the invariant.
  lemma StepKeepsInv(env: Env, s: State, a: Action)
    requires Inv(env, s) && Apply(env, s, a).Some?
    ensures Inv(env, Apply(env, s, a).value)
  {
    StepCoupled(env, s, a);
    StepAccounts(env, s, a);
  }

  lemma {:induction false} RunKeepsInv(env: Env, foreign: bool, schedule: seq<Action>)
    ensures match Exec(env, Init(foreign), schedule) case None => true case Some(s) => Inv(env, s)
  {
    InitInv(env, foreign);
    if schedule != [] {
      var n := |schedule| - 1;
      RunKeepsInv(env, foreign, schedule[..n]);
      match Exec(env, Init(foreign), schedule[..n]) {
        case None =>
        case Some(s) =>
          if Apply(env, s, schedule[n]).Some? {
            StepKeepsInv(env, s, schedule[n]);
          }
      }
    }
  }
}
