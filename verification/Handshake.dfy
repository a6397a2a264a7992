// The create/init/start protocol of pkg/runtime: `lightpod create` (the parent), the
// container process it clones (the child, in two stages joined by a re-exec) and
// `lightpod start` (the starter), as one step relation over every interleaving, with
// every step allowed to fail.
module Handshake {

  import opened Wrappers

  // ----- Messages -----

  datatype Message = NsReady | MapsReady | HookPoint | HooksDone | ProcReady | ErrorMessage

  // How `await` takes what it hears.
  datatype Heard = Proceed | RemoteError | Unexpected | EndOfFile

  function Await(wanted: Message, got: Message): Heard {
    if got == wanted then Proceed
    else if got == ErrorMessage then RemoteError
    else Unexpected
  }

  // Decoding takes the first message and reads ahead whatever else has arrived.
  predicate CanDecode(buffer: seq<Message>, queue: seq<Message>) {
    |buffer| > 0 || |queue| > 0
  }

  function Decoded(buffer: seq<Message>, queue: seq<Message>): Message
    requires CanDecode(buffer, queue)
  {
    if |buffer| > 0 then buffer[0] else queue[0]
  }

  function ReadAhead(buffer: seq<Message>, queue: seq<Message>): seq<Message> {
    if |buffer| > 0 then buffer[1..] + queue else if |queue| > 0 then queue[1..] else []
  }

  // Waiting for a message, where `open` says that some descriptor of the sending end is.
  // Without one, what is left can still be read, and then comes the end of the file. None
  // means blocked.
  function Hear(buffer: seq<Message>, queue: seq<Message>, open: bool, wanted: Message): Option<Heard> {
    if CanDecode(buffer, queue) then Some(Await(wanted, Decoded(buffer, queue)))
    else if open then None
    else Some(EndOfFile)
  }

  // ----- Events worth ordering -----

  datatype Event =
    | IdMaps | JoinCgroup | SetLimits | Mounts | PrestartHooks | CreateRuntimeHooks
    | CreateContainerHooks | Pivot | Rendezvous | StartContainerHooks | ResolveBinary
    | ProcessLimits | SwitchUser | ReduceCapabilities | NoNewPrivileges | InstallSeccomp | UserExec

  function Rank(e: Event): nat {
    match e
    case IdMaps => 0
    case JoinCgroup => 1
    case SetLimits => 2
    case Mounts => 3
    case PrestartHooks => 4
    case CreateRuntimeHooks => 5
    case CreateContainerHooks => 6
    case Pivot => 7
    case Rendezvous => 8
    case StartContainerHooks => 9
    case ResolveBinary => 10
    case ProcessLimits => 11
    case SwitchUser => 12
    case ReduceCapabilities => 13
    case NoNewPrivileges => 14
    case InstallSeccomp => 15
    case UserExec => 16
  }

  // ----- The three processes -----

  datatype Outcome = Ok | Failed | Taken | ClaimFailed

  // Where Create is: about to await or send a message, to do one of the ordered events, or
  // at one of the named steps between. PSendError reports a failed hook; the four steps
  // after it are the deferred rollback, in the order deferred calls run.
  datatype ParentAt =
    | PClaim | PPrepare | PSpawn | PWriteConfig
    | PAwait(m: Message) | PSend(m: Message) | PDo(e: Event) | PNewCgroup
    | PSaveRecord
    | PSendError | PKill | PReap | PRemoveLeaf | PDeleteRecord
    | PReturned(outcome: Outcome)

  // Where the child is. Stage 1 ends at CReExec.
  datatype ChildAt =
    | CNone
    | CSend(m: Message) | CAwait(m: Message) | CReExec | CReadConfig | CEnterNamespaces
    | CDo(e: Event) | COpenFifo | CUserProcess
    | CReport | CDead | CReaped

  datatype StarterAt = SIdle | SOpening | SSaving | SDone

  datatype Record = NoRecord | Foreign | Creating | Created | Running

  // configSize is the length of the encoded config, capacity that of the pipe it goes
  // through. mayDieSilently lets the child vanish before procReady without a report, as it
  // does when it is killed or cannot decode its config. closesCopy is a parent that closes
  // its own copy of the child's end of the socket as soon as it has cloned the child; the
  // program's does not.
  datatype Env = Env(capacity: nat, configSize: nat, noCgroup: bool, mayDieSilently: bool, closesCopy: bool)

  // Each end of the socket has a queue of messages sent to it and a decoder that may have
  // read ahead. copyOpen says whether the parent has the child's end open as well. written
  // and read count config bytes.
  datatype State = State(
    parent: ParentAt, child: ChildAt, starter: StarterAt,
    record: Record, leaf: bool, copyOpen: bool,
    written: nat, read: nat,
    toParent: seq<Message>, parentBuffer: seq<Message>,
    toChild: seq<Message>, childBuffer: seq<Message>,
    trace: seq<Event>)

  function Init(foreign: bool): State {
    State(PClaim, CNone, SIdle, if foreign then Foreign else NoRecord, false, false, 0, 0, [], [], [], [], [])
  }

  predicate Alive(c: ChildAt) {
    c != CNone && c != CDead && c != CReaped
  }

  // The child still owes the parent its procReady message or an error report.
  predicate Owing(c: ChildAt) {
    match c
    case CSend(_) => true
    case CAwait(_) => true
    case CReExec => true
    case CReadConfig => true
    case CEnterNamespaces => true
    case CDo(e) => Rank(e) < Rank(Rendezvous)
    case _ => false
  }

  // ----- Who has an end of the socket open -----

  // The child has its own until it closes it after procReady, or is gone.
  predicate ChildHolds(c: ChildAt) {
    Owing(c) || c.CReport?
  }

  predicate ChildEndOpen(s: State) {
    s.copyOpen || ChildHolds(s.child)
  }

  // The parent's end is closed on exec, so the parent alone has it, up to its deferred
  // closing after the child has been reaped.
  predicate ParentEndOpen(s: State) {
    !s.parent.PClaim? && !s.parent.PPrepare? && !s.parent.PRemoveLeaf? && !s.parent.PDeleteRecord? && !s.parent.PReturned?
  }

  // ----- Steps: None means blocked -----

  function AfterParentAwait(m: Message): ParentAt {
    if m == NsReady then PDo(IdMaps) else if m == HookPoint then PDo(PrestartHooks) else PSaveRecord
  }

  function AfterParentSend(m: Message): ParentAt {
    if m == MapsReady then PAwait(HookPoint) else PAwait(ProcReady)
  }

  function AfterParentEvent(e: Event): ParentAt {
    if e == IdMaps then PNewCgroup
    else if e == JoinCgroup then PDo(SetLimits)
    else if e == SetLimits then PSend(MapsReady)
    else if e == PrestartHooks then PDo(CreateRuntimeHooks)
    else PSend(HooksDone)
  }

  function ParentAwaits(s: State, wanted: Message): Option<State> {
    match Hear(s.parentBuffer, s.toParent, ChildEndOpen(s), wanted)
    case None => None
    case Some(heard) =>
      Some(s.(parentBuffer := ReadAhead(s.parentBuffer, s.toParent), toParent := [],
              parent := if heard == Proceed then AfterParentAwait(wanted) else PKill))
  }

  function ParentSends(s: State, m: Message, ok: bool): State {
    if ok && ChildEndOpen(s) then s.(toChild := s.toChild + [m], parent := AfterParentSend(m)) else s.(parent := PKill)
  }

  function ParentDoes(s: State, e: Event, ok: bool): State {
    if ok then
      s.(trace := s.trace + [e], parent := AfterParentEvent(e))
    else s.(parent := if Rank(e) >= Rank(PrestartHooks) then PSendError else PKill)
  }

  // A write that does not fit the pipe blocks: the parent holds a read end itself, so it
  // gets no error even when the child is gone.
  function ParentWrites(env: Env, s: State, ok: bool, bytes: nat): Option<State> {
    if s.written >= env.configSize then Some(s.(parent := PAwait(NsReady)))
    else if s.written - s.read >= env.capacity then None
    else if !ok then Some(s.(parent := PKill))
    else if 0 < bytes <= env.configSize - s.written && s.written - s.read + bytes <= env.capacity then
      Some(s.(written := s.written + bytes))
    else None
  }

  function ParentStep(env: Env, s: State, ok: bool, bytes: nat): Option<State> {
    match s.parent
    case PClaim =>
      if s.record != NoRecord then Some(s.(parent := PReturned(Taken)))
      else if ok then Some(s.(record := Creating, parent := PPrepare))
      else Some(s.(parent := PReturned(ClaimFailed)))
    case PPrepare => Some(s.(parent := if ok then PSpawn else PRemoveLeaf, copyOpen := ok))
    case PSpawn =>
      if ok then Some(s.(child := CSend(NsReady), parent := PWriteConfig, copyOpen := !env.closesCopy))
      else Some(s.(parent := PRemoveLeaf, copyOpen := false))
    case PWriteConfig => ParentWrites(env, s, ok, bytes)
    case PAwait(m) => ParentAwaits(s, m)
    case PSend(m) => Some(ParentSends(s, m, ok))
    case PDo(e) => Some(ParentDoes(s, e, ok))
    case PNewCgroup =>
      if ok then Some(s.(leaf := !env.noCgroup, parent := PDo(JoinCgroup))) else Some(s.(parent := PKill))
    case PSaveRecord =>
      if ok then Some(s.(record := Created, parent := PReturned(Ok), copyOpen := false)) else Some(s.(parent := PKill))
    case PSendError =>
      Some(s.(toChild := if ok then s.toChild + [ErrorMessage] else s.toChild, parent := PKill))
    case PKill => Some(s.(child := if Alive(s.child) then CDead else s.child, parent := PReap))
    case PReap => if s.child == CDead then Some(s.(child := CReaped, parent := PRemoveLeaf, copyOpen := false)) else None
    // rmdir refuses a cgroup with a live process in it, as the child may be.
    case PRemoveLeaf => Some(s.(leaf := s.leaf && Alive(s.child), parent := PDeleteRecord))
    case PDeleteRecord => Some(s.(record := NoRecord, parent := PReturned(Failed)))
    case PReturned(_) => None
  }

  function AfterChildSend(m: Message): ChildAt {
    if m == NsReady then CAwait(MapsReady) else if m == HookPoint then CAwait(HooksDone) else COpenFifo
  }

  function AfterChildEvent(e: Event): ChildAt {
    match e
    case Mounts => CSend(HookPoint)
    case CreateContainerHooks => CDo(Pivot)
    case Pivot => CSend(ProcReady)
    case StartContainerHooks => CDo(ResolveBinary)
    case ResolveBinary => CDo(ProcessLimits)
    case ProcessLimits => CDo(SwitchUser)
    case SwitchUser => CDo(ReduceCapabilities)
    case ReduceCapabilities => CDo(NoNewPrivileges)
    case NoNewPrivileges => CDo(InstallSeccomp)
    case InstallSeccomp => CDo(UserExec)
    case _ => CUserProcess
  }

  // Stage 1 just exits on anything but mapsReady; stage 2 reports what went wrong.
  function ChildAwaits(s: State, wanted: Message): Option<State> {
    match Hear(s.childBuffer, s.toChild, ParentEndOpen(s), wanted)
    case None => None
    case Some(heard) =>
      var onward := if wanted == MapsReady then CReExec else CDo(CreateContainerHooks);
      Some(s.(childBuffer := ReadAhead(s.childBuffer, s.toChild), toChild := [],
              child := if heard == Proceed then onward else if wanted == MapsReady then CDead else CReport))
  }

  // Failures before the socket is closed go through CReport, which sends the error; later
  // ones just end the process.
  function ChildSends(s: State, m: Message, ok: bool): Option<State> {
    if ok then Some(s.(toParent := s.toParent + [m], child := AfterChildSend(m)))
    else if m == NsReady then None
    else Some(s.(child := CReport))
  }

  function ChildDoes(s: State, e: Event, ok: bool): State {
    if ok then s.(trace := s.trace + [e], child := AfterChildEvent(e))
    else s.(child := if Rank(e) < Rank(Rendezvous) then CReport else CDead)
  }

  function ChildReads(env: Env, s: State, bytes: nat): Option<State> {
    if s.read >= env.configSize then Some(s.(child := CEnterNamespaces))
    else if 0 < bytes <= s.written - s.read then Some(s.(read := s.read + bytes))
    else None
  }

  // Opening the FIFO for writing blocks until a starter has it open for reading.
  function ChildOpensFifo(s: State, ok: bool): Option<State> {
    if !ok then Some(s.(child := CDead))
    else if s.starter == SOpening then
      Some(s.(child := CDo(StartContainerHooks), starter := SSaving, trace := s.trace + [Rendezvous]))
    else None
  }

  function ChildStep(env: Env, s: State, ok: bool, bytes: nat): Option<State> {
    match s.child
    case CNone => None
    case CSend(m) => ChildSends(s, m, ok)
    case CAwait(m) => ChildAwaits(s, m)
    // The re-exec throws away the first decoder and whatever it has read ahead.
    case CReExec => if ok then Some(s.(child := CReadConfig, childBuffer := [])) else Some(s.(child := CReport))
    case CReadConfig => ChildReads(env, s, bytes)
    case CEnterNamespaces => Some(s.(child := if ok then CDo(Mounts) else CReport))
    case CDo(e) => Some(ChildDoes(s, e, ok))
    case COpenFifo => ChildOpensFifo(s, ok)
    case CUserProcess => Some(s.(child := CDead))
    case CReport => Some(s.(toParent := s.toParent + [ErrorMessage], child := CDead))
    case CDead => None
    case CReaped => None
  }

  function ChildDies(env: Env, s: State): Option<State> {
    if env.mayDieSilently && Owing(s.child) then Some(s.(child := CDead)) else None
  }

  // `lightpod start` goes on only when Load shows it a created container, which takes a
  // live process; it then blocks in open until the child arrives at the FIFO.
  function StarterStep(s: State): Option<State> {
    match s.starter
    case SIdle => if s.record == Created && Alive(s.child) then Some(s.(starter := SOpening)) else None
    case SOpening => None
    case SSaving => Some(s.(record := Running, starter := SDone))
    case SDone => None
  }

  datatype Action = ParentActs(ok: bool, bytes: nat) | ChildActs(ok: bool, bytes: nat) | ChildVanishes | StarterActs

  function Apply(env: Env, s: State, a: Action): Option<State> {
    match a
    case ParentActs(ok, bytes) => ParentStep(env, s, ok, bytes)
    case ChildActs(ok, bytes) => ChildStep(env, s, ok, bytes)
    case ChildVanishes => ChildDies(env, s)
    case StarterActs => StarterStep(s)
  }

  // The state a schedule leads to, if every action in it could be taken.
  function Exec(env: Env, s: State, schedule: seq<Action>): Option<State> {
    if schedule == [] then Some(s)
    else
      match Exec(env, s, schedule[..|schedule| - 1])
      case None => None
      case Some(t) => Apply(env, t, schedule[|schedule| - 1])
  }

  ghost predicate Reachable(env: Env, foreign: bool, s: State) {
    exists schedule :: Exec(env, Init(foreign), schedule) == Some(s)
  }

  // Create has not returned and no process can move, now or ever.
  ghost predicate Deadlocked(env: Env, s: State) {
    !s.parent.PReturned? && forall a :: Apply(env, s, a) == None
  }
}
