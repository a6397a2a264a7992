// The daemonless store of pkg/state/store.go for one container id: any number of
// processes creating, deleting and loading its record, one file operation at a time, in
// every interleaving, with a process able to fail or die between any two of them.
module Store {

  import opened Wrappers

  type Inode = nat

  datatype Record = Record(data: nat, schema: nat)

  // What a file holds: nothing yet, or a partial write, until its writer is done.
  datatype Content = Partial | Whole(record: Record)

  // Where a process is. From CreateOpen to CreateUnlock and from DeleteFiles to
  // DeleteUnlock it is inside withLock.
  datatype Op =
    | Idle
    | CreateLock(data: nat) | CreateOpen(data: nat) | CreateRead(data: nat, fd: Inode)
    | CreateMkdir(data: nat) | CreateTemp(data: nat) | CreateWrite(data: nat, fd: Inode) | CreateRename(data: nat)
    | CreateUnlock | RefuseUnlock
    | DeleteLock | DeleteFiles | DeleteUnlock
    | LoadOpen | LoadRead(fd: Inode)

  datatype Entry =
    | Committed(record: Record)          // a rename put this record in place
    | CreateOk(p: nat)                   // Store.Create returned nil
    | Removed                            // a delete unlinked a record
    | DeleteOk(p: nat)                   // Store.Delete returned nil
    | Looked(p: nat)                     // a lock-free load opened a record
    | Saw(p: nat, content: Option<Content>)  // what it read

  // dir is the container's directory; temp and record are the two names in it; files are
  // all inodes, linked or not.
  datatype State = State(
    dir: bool, temp: Option<Inode>, record: Option<Inode>, files: map<Inode, Content>, next: Inode,
    lock: Option<nat>, procs: seq<Op>, log: seq<Entry>)

  function Init(n: nat): State {
    State(false, None, None, map[], 0, None, seq(n, i => Idle), [])
  }

  datatype Action =
    | StartCreate(p: nat, data: nat) | StartDelete(p: nat) | StartLoad(p: nat)
    | Step(p: nat, choice: nat)
    | Abort(p: nat)

  predicate InLock(op: Op) {
    match op
    case Idle => false
    case CreateLock(_) => false
    case DeleteLock => false
    case LoadOpen => false
    case LoadRead(_) => false
    case _ => true
  }

  function At(s: State, p: nat, op: Op): State
    requires p < |s.procs|
  {
    s.(procs := s.procs[p := op])
  }

  // The operation ends, giving up the lock if it has it.
  function Leave(s: State, p: nat): State
    requires p < |s.procs|
  {
    At(s, p, Idle).(lock := if InLock(s.procs[p]) then None else s.lock)
  }

  function Read(s: State, fd: Inode): Content {
    if fd in s.files then s.files[fd] else Partial
  }

  function TakeLock(s: State, p: nat, then_: Op): Option<State>
    requires p < |s.procs|
  {
    if s.lock == None then Some(At(s, p, then_).(lock := Some(p))) else None
  }

  // Opening the temporary name truncates whatever an earlier crash left there.
  function OpenTemp(s: State, p: nat, data: nat): State
    requires p < |s.procs|
  {
    if !s.dir then Leave(s, p)
    else
      match s.temp
      case Some(fd) => At(s, p, CreateWrite(data, fd)).(files := s.files[fd := Partial])
      case None =>
        At(s, p, CreateWrite(data, s.next)).(files := s.files[s.next := Partial], temp := Some(s.next), next := s.next + 1)
  }

  function Rename(s: State, p: nat): State
    requires p < |s.procs|
  {
    match s.temp
    case Some(fd) =>
      At(s, p, CreateUnlock).(record := Some(fd), temp := None,
                              log := if Read(s, fd).Whole? then s.log + [Committed(Read(s, fd).record)] else s.log)
    case None => Leave(s, p)
  }

  // RemoveAll: the names go one at a time, in any order, then the directory.
  function RemoveAll(s: State, p: nat, choice: nat): Option<State>
    requires p < |s.procs|
  {
    if choice == 0 then Some(s.(temp := None))
    else if choice == 1 && s.record.Some? then Some(s.(record := None, log := s.log + [Removed]))
    else if choice == 2 && s.record.None? && s.temp.None? then Some(At(s, p, DeleteUnlock).(dir := false))
    else None
  }

  // schemas[p] is the record schema the binary run by process p reads and writes.
  function Advance(schemas: seq<nat>, s: State, p: nat, choice: nat): Option<State>
    requires p < |s.procs| == |schemas|
  {
    match s.procs[p]
    case Idle => None
    case CreateLock(data) => TakeLock(s, p, CreateOpen(data))
    case CreateOpen(data) =>
      Some(At(s, p, if s.record.None? then CreateMkdir(data) else CreateRead(data, s.record.value)))
    // Create takes any error from Load, a newer schema included, to mean the id is free.
    case CreateRead(data, fd) =>
      var content := Read(s, fd);
      Some(At(s, p, if content.Whole? && content.record.schema <= schemas[p] then RefuseUnlock else CreateMkdir(data)))
    case CreateMkdir(data) => Some(At(s, p, CreateTemp(data)).(dir := true))
    case CreateTemp(data) => Some(OpenTemp(s, p, data))
    case CreateWrite(data, fd) =>
      Some(At(s, p, CreateRename(data)).(files := s.files[fd := Whole(Record(data, schemas[p]))]))
    case CreateRename(_) => Some(Rename(s, p))
    case CreateUnlock => Some(Leave(s, p).(log := s.log + [CreateOk(p)]))
    case RefuseUnlock => Some(Leave(s, p))
    case DeleteLock => TakeLock(s, p, DeleteFiles)
    case DeleteFiles => RemoveAll(s, p, choice)
    case DeleteUnlock => Some(Leave(s, p).(log := s.log + [DeleteOk(p)]))
    case LoadOpen =>
      if s.record.None? then Some(Leave(s, p).(log := s.log + [Saw(p, None)]))
      else Some(At(s, p, LoadRead(s.record.value)).(log := s.log + [Looked(p)]))
    case LoadRead(fd) => Some(Leave(s, p).(log := s.log + [Saw(p, Some(Read(s, fd)))]))
  }

  // An Abort is an error return or, if the process never acts again, its death: either way
  // the kernel or the deferred unlock frees the lock and the files stay as they are.
  function Apply(schemas: seq<nat>, s: State, a: Action): Option<State>
    requires |s.procs| == |schemas|
    ensures Apply(schemas, s, a).Some? ==> |Apply(schemas, s, a).value.procs| == |s.procs|
  {
    if a.p >= |s.procs| then None
    else
      match a
      case StartCreate(p, data) => if s.procs[p] == Idle then Some(At(s, p, CreateLock(data))) else None
      case StartDelete(p) => if s.procs[p] == Idle then Some(At(s, p, DeleteLock)) else None
      case StartLoad(p) => if s.procs[p] == Idle then Some(At(s, p, LoadOpen)) else None
      case Step(p, choice) => Advance(schemas, s, p, choice)
      case Abort(p) => Some(Leave(s, p))
  }

  function Exec(schemas: seq<nat>, schedule: seq<Action>): (r: Option<State>)
    ensures r.Some? ==> |r.value.procs| == |schemas|
  {
    if schedule == [] then Some(Init(|schemas|))
    else
      match Exec(schemas, schedule[..|schedule| - 1])
      case None => None
      case Some(s) => Apply(schemas, s, schedule[|schedule| - 1])
  }

  ghost predicate Reachable(schemas: seq<nat>, s: State) {
    exists schedule :: Exec(schemas, schedule) == Some(s)
  }

  // ----- Atomic reads -----

  // The inode a process reads from.
  function ReaderOf(op: Op): Option<Inode> {
    match op
    case CreateRead(_, fd) => Some(fd)
    case LoadRead(fd) => Some(fd)
    case _ => None
  }

  // A whole record that some rename put in place.
  ghost predicate IsCommitted(content: Content, log: seq<Entry>) {
    content.Whole? && Committed(content.record) in log
  }

  ghost predicate Settled(s: State, fd: Inode) {
    fd in s.files && IsCommitted(s.files[fd], s.log) && s.temp != Some(fd)
  }

  ghost predicate OpOk(schemas: seq<nat>, s: State, p: nat)
    requires p < |s.procs| == |schemas|
  {
    var op := s.procs[p];
    && (InLock(op) ==> s.lock == Some(p))
    && (op.CreateWrite? ==> s.temp == Some(op.fd))
    && (op.CreateRename? ==> s.temp.Some? && Read(s, s.temp.value) == Whole(Record(op.data, schemas[p])))
    && (ReaderOf(op).Some? ==> Settled(s, ReaderOf(op).value))
  }

  // Every load in the log saw nothing, or one whole record committed before it.
  ghost predicate ReadsWhole(log: seq<Entry>) {
    forall i :: 0 <= i < |log| && log[i].Saw? && log[i].content.Some? ==> IsCommitted(log[i].content.value, log[..i])
  }

  // Every committed record carries its writer's schema.
  ghost predicate SchemasKnown(schemas: seq<nat>, log: seq<Entry>) {
    forall i :: 0 <= i < |log| && log[i].Committed? ==> log[i].record.schema in schemas
  }

  ghost predicate FilesOk(schemas: seq<nat>, s: State) {
    && (forall fd :: fd in s.files ==> fd < s.next)
    && (s.temp.Some? ==> s.temp.value in s.files)
    && (s.record.Some? ==> Settled(s, s.record.value))
    && ReadsWhole(s.log) && SchemasKnown(schemas, s.log)
  }

  ghost predicate Inv(schemas: seq<nat>, s: State) {
    && |s.procs| == |schemas|
    && FilesOk(schemas, s)
    && forall p :: 0 <= p < |s.procs| ==> OpOk(schemas, s, p)
  }

  lemma LogGrows(schemas: seq<nat>, log: seq<Entry>, e: Entry)
    requires ReadsWhole(log) && SchemasKnown(schemas, log)
    requires e.Saw? && e.content.Some? ==> IsCommitted(e.content.value, log)
    requires e.Committed? ==> e.record.schema in schemas
    ensures ReadsWhole(log + [e]) && SchemasKnown(schemas, log + [e])
    ensures forall content :: IsCommitted(content, log) ==> IsCommitted(content, log + [e])
  {
    assert forall i :: 0 <= i <= |log| ==> (log + [e])[..i] == log[..i];
  }

  // Steps that touch no file and write no log keep everything as long as the process
  // itself is fine where it goes.
  lemma MoveKeepsInv(schemas: seq<nat>, s: State, p: nat, op: Op, t: State)
    requires Inv(schemas, s) && p < |s.procs|
    requires t == s.(procs := s.procs[p := op], lock := t.lock, dir := t.dir)
    requires t.lock == s.lock || s.lock == None || s.lock == Some(p)
    requires OpOk(schemas, t, p)
    ensures Inv(schemas, t)
  {
    forall q | 0 <= q < |t.procs| ensures OpOk(schemas, t, q) {
      if q != p {
        assert OpOk(schemas, s, q);
      }
    }
  }

  lemma NoteKeepsInv(schemas: seq<nat>, s: State, e: Entry)
    requires Inv(schemas, s)
    requires e.Saw? && e.content.Some? ==> IsCommitted(e.content.value, s.log)
    requires e.Committed? ==> e.record.schema in schemas
    ensures Inv(schemas, s.(log := s.log + [e]))
  {
    var t := s.(log := s.log + [e]);
    LogGrows(schemas, s.log, e);
    forall q | 0 <= q < |t.procs| ensures OpOk(schemas, t, q) {
      assert OpOk(schemas, s, q);
    }
  }

  // Two processes cannot both be inside the lock.
  lemma OneInLock(schemas: seq<nat>, s: State, p: nat, q: nat)
    requires Inv(schemas, s) && p < |s.procs| && q < |s.procs| && p != q && InLock(s.procs[p])
    ensures !InLock(s.procs[q])
  {
    assert OpOk(schemas, s, p) && OpOk(schemas, s, q);
  }

  // Writing the temporary file disturbs nobody: nobody reads that inode.
  lemma TempKeepsInv(schemas: seq<nat>, s: State, p: nat, fd: Inode, content: Content, op: Op, t: State)
    requires Inv(schemas, s) && p < |s.procs| && InLock(s.procs[p])
    requires s.temp == Some(fd) || (s.temp == None && fd == s.next)
    requires t == s.(procs := s.procs[p := op], files := s.files[fd := content], temp := Some(fd),
                     next := if fd == s.next then fd + 1 else s.next)
    requires OpOk(schemas, t, p)
    ensures Inv(schemas, t)
  {
    forall q | 0 <= q < |t.procs| ensures OpOk(schemas, t, q) {
      if q != p {
        OneInLock(schemas, s, p, q);
        assert OpOk(schemas, s, q);
      }
    }
  }

  // Names can be dropped or moved by the lock holder.
  lemma NamesKeepInv(schemas: seq<nat>, s: State, p: nat, t: State)
    requires Inv(schemas, s) && p < |s.procs| && InLock(s.procs[p])
    requires t == s.(procs := t.procs, temp := None, record := t.record)
    requires |t.procs| == |s.procs| && t.procs == s.procs[p := t.procs[p]]
    requires t.record == None || t.record == s.record ||
             (s.temp == t.record && IsCommitted(Read(s, t.record.value), s.log))
    requires OpOk(schemas, t, p)
    ensures Inv(schemas, t)
  {
    forall q | 0 <= q < |t.procs| ensures OpOk(schemas, t, q) {
      if q != p {
        OneInLock(schemas, s, p, q);
        assert OpOk(schemas, s, q);
      }
    }
  }

  lemma LeaveKeepsInv(schemas: seq<nat>, s: State, p: nat)
    requires Inv(schemas, s) && p < |s.procs|
    ensures Inv(schemas, Leave(s, p))
  {
    assert OpOk(schemas, s, p);
    MoveKeepsInv(schemas, s, p, Idle, Leave(s, p));
  }

  lemma RenameKeepsInv(schemas: seq<nat>, s: State, p: nat)
    requires Inv(schemas, s) && p < |s.procs| && s.procs[p].CreateRename?
    ensures Inv(schemas, Rename(s, p))
  {
    assert OpOk(schemas, s, p);
    var record := Read(s, s.temp.value).record;
    var noted := s.(log := s.log + [Committed(record)]);
    NoteKeepsInv(schemas, s, Committed(record));
    assert Committed(record) in noted.log by { assert noted.log[|s.log|] == Committed(record); }
    NamesKeepInv(schemas, noted, p, Rename(s, p));
  }

  lemma RemoveKeepsInv(schemas: seq<nat>, s: State, p: nat, choice: nat)
    requires Inv(schemas, s) && p < |s.procs| && s.procs[p].DeleteFiles? && RemoveAll(s, p, choice).Some?
    ensures Inv(schemas, RemoveAll(s, p, choice).value)
  {
    assert OpOk(schemas, s, p);
    var t := RemoveAll(s, p, choice).value;
    if choice == 0 {
      assert s.procs[p := s.procs[p]] == s.procs;
      NamesKeepInv(schemas, s, p, t);
    } else if choice == 1 {
      NoteKeepsInv(schemas, s, Removed);
      var noted := s.(log := s.log + [Removed]);
      forall q | 0 <= q < |t.procs| ensures OpOk(schemas, t, q) {
        assert OpOk(schemas, noted, q);
      }
    } else {
      MoveKeepsInv(schemas, s, p, DeleteUnlock, t);
    }
  }

  lemma LoadKeepsInv(schemas: seq<nat>, s: State, p: nat, content: Option<Content>)
    requires Inv(schemas, s) && p < |s.procs| && !InLock(s.procs[p])
    requires content.Some? ==> IsCommitted(content.value, s.log)
    ensures Inv(schemas, Leave(s, p).(log := s.log + [Saw(p, content)]))
  {
    LeaveKeepsInv(schemas, s, p);
    NoteKeepsInv(schemas, Leave(s, p), Saw(p, content));
  }

  lemma WriterKeepsInv(schemas: seq<nat>, s: State, p: nat)
    requires Inv(schemas, s) && p < |s.procs|
    requires s.procs[p].CreateTemp? || s.procs[p].CreateWrite?
    ensures Inv(schemas, Advance(schemas, s, p, 0).value)
  {
    assert OpOk(schemas, s, p);
    var t := Advance(schemas, s, p, 0).value;
    match s.procs[p]
    case CreateTemp(data) =>
      if !s.dir {
        LeaveKeepsInv(schemas, s, p);
      } else {
        var fd := if s.temp.Some? then s.temp.value else s.next;
        TempKeepsInv(schemas, s, p, fd, Partial, CreateWrite(data, fd), t);
      }
    case CreateWrite(data, fd) =>
      TempKeepsInv(schemas, s, p, fd, Whole(Record(data, schemas[p])), CreateRename(data), t);
    case _ =>
  }

  lemma LoaderKeepsInv(schemas: seq<nat>, s: State, p: nat)
    requires Inv(schemas, s) && p < |s.procs| && (s.procs[p].LoadOpen? || s.procs[p].LoadRead?)
    ensures Inv(schemas, Advance(schemas, s, p, 0).value)
  {
    assert OpOk(schemas, s, p);
    match s.procs[p]
    case LoadOpen =>
      if s.record.None? {
        LoadKeepsInv(schemas, s, p, None);
      } else {
        var moved := At(s, p, LoadRead(s.record.value));
        MoveKeepsInv(schemas, s, p, LoadRead(s.record.value), moved);
        NoteKeepsInv(schemas, moved, Looked(p));
      }
    case LoadRead(fd) => LoadKeepsInv(schemas, s, p, Some(Read(s, fd)));
    case _ =>
  }

  // The steps that only take the lock or move on.
  lemma MoverKeepsInv(schemas: seq<nat>, s: State, p: nat)
    requires Inv(schemas, s) && p < |s.procs| && Advance(schemas, s, p, 0).Some?
    requires var op := s.procs[p];
             op.CreateLock? || op.CreateOpen? || op.CreateRead? || op.CreateMkdir? || op.DeleteLock?
    ensures Inv(schemas, Advance(schemas, s, p, 0).value)
  {
    assert OpOk(schemas, s, p);
    var t := Advance(schemas, s, p, 0).value;
    MoveKeepsInv(schemas, s, p, t.procs[p], t);
  }

  lemma AdvanceKeepsInv(schemas: seq<nat>, s: State, p: nat, choice: nat)
    requires Inv(schemas, s) && p < |s.procs| && Advance(schemas, s, p, choice).Some?
    ensures Inv(schemas, Advance(schemas, s, p, choice).value)
  {
    match s.procs[p]
    case CreateTemp(_) => WriterKeepsInv(schemas, s, p);
    case CreateWrite(_, _) => WriterKeepsInv(schemas, s, p);
    case CreateRename(_) => RenameKeepsInv(schemas, s, p);
    case CreateUnlock =>
      LeaveKeepsInv(schemas, s, p);
      NoteKeepsInv(schemas, Leave(s, p), CreateOk(p));
    case RefuseUnlock => LeaveKeepsInv(schemas, s, p);
    case DeleteFiles => RemoveKeepsInv(schemas, s, p, choice);
    case DeleteUnlock =>
      LeaveKeepsInv(schemas, s, p);
      NoteKeepsInv(schemas, Leave(s, p), DeleteOk(p));
    case LoadOpen => LoaderKeepsInv(schemas, s, p);
    case LoadRead(_) => LoaderKeepsInv(schemas, s, p);
    case _ => MoverKeepsInv(schemas, s, p);
  }

  lemma StepKeepsInv(schemas: seq<nat>, s: State, a: Action)
    requires Inv(schemas, s) && Apply(schemas, s, a).Some?
    ensures Inv(schemas, Apply(schemas, s, a).value)
  {
    match a
    case Step(p, choice) => AdvanceKeepsInv(schemas, s, p, choice);
    case Abort(p) => LeaveKeepsInv(schemas, s, p);
    case _ =>
      var t := Apply(schemas, s, a).value;
      assert OpOk(schemas, s, a.p);
      MoveKeepsInv(schemas, s, a.p, t.procs[a.p], t);
  }

  lemma {:induction false} RunKeepsInv(schemas: seq<nat>, schedule: seq<Action>)
    requires Exec(schemas, schedule).Some?
    ensures Inv(schemas, Exec(schemas, schedule).value)
  {
    if schedule != [] {
      var n := |schedule| - 1;
      RunKeepsInv(schemas, schedule[..n]);
      StepKeepsInv(schemas, Exec(schemas, schedule[..n]).value, schedule[n]);
    }
  }

  // In every run, whatever crashes, a lock-free load sees no record or one whole record
  // that was committed before it looked.
  lemma AtomicReads(schemas: seq<nat>, s: State, i: nat)
    requires Reachable(schemas, s) && i < |s.log| && s.log[i].Saw?
    ensures s.log[i].content.Some? ==> IsCommitted(s.log[i].content.value, s.log[..i])
  {
    var schedule :| Exec(schemas, schedule) == Some(s);
    RunKeepsInv(schemas, schedule);
  }
}
