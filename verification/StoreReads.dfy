// What loads see and what deletes leave behind.
module StoreReads {

  import opened Wrappers
  import opened Store

  // The record in place after a run so far: the last one committed, unless it was removed.
  function Standing(log: seq<Entry>): Option<Record> {
    if log == [] then None
    else
      match log[|log| - 1]
      case Committed(record) => Some(record)
      case Removed => None
      case _ => Standing(log[..|log| - 1])
  }

  predicate LoadEntry(e: Entry, p: nat) {
    (e.Looked? && e.p == p) || (e.Saw? && e.p == p)
  }

  // When process p last looked, and has not read yet, this record was in place.
  ghost predicate Looking(log: seq<Entry>, p: nat, record: Record) {
    exists j :: 0 <= j < |log| && LookedAt(log, p, record, j)
  }

  ghost predicate LookedAt(log: seq<Entry>, p: nat, record: Record, j: nat)
    requires j < |log|
  {
    && log[j] == Looked(p) && Standing(log[..j]) == Some(record)
    && forall k :: j < k < |log| ==> !LoadEntry(log[k], p)
  }

  // A load that saw nothing looked when there was nothing, and one that saw a record saw
  // the whole one that was in place when it looked.
  ghost predicate SawRight(log: seq<Entry>, i: nat)
    requires i < |log| && log[i].Saw?
  {
    match log[i].content
    case None => Standing(log[..i]) == None
    case Some(content) => content.Whole? && Looking(log[..i], log[i].p, content.record)
  }

  // A delete returns with nothing in place and a create with something.
  ghost predicate LogOk(log: seq<Entry>) {
    && (forall i :: 0 <= i < |log| && log[i].Saw? ==> SawRight(log, i))
    && (forall i :: 0 <= i < |log| && log[i].DeleteOk? ==> Standing(log[..i]) == None)
    && (forall i :: 0 <= i < |log| && log[i].CreateOk? ==> Standing(log[..i]).Some?)
  }

  ghost predicate ReadsOk(s: State) {
    && LogOk(s.log)
    && Standing(s.log) == (if s.record.None? then None else Some(Kept(s, s.record.value)))
    && (forall p :: 0 <= p < |s.procs| && s.procs[p].LoadRead? ==> Looking(s.log, p, Kept(s, s.procs[p].fd)))
    && (forall p :: 0 <= p < |s.procs| && s.procs[p].DeleteUnlock? ==> s.record.None? && s.temp.None? && !s.dir)
    && (forall p :: 0 <= p < |s.procs| && s.procs[p].CreateUnlock? ==> s.record.Some?)
  }

  // The record in a file, if it is whole.
  function Kept(s: State, fd: Inode): Record {
    var content := Read(s, fd);
    if content.Whole? then content.record else Record(0, 0)
  }

  lemma LogGrows(log: seq<Entry>, e: Entry)
    requires LogOk(log)
    requires e.Saw? ==> SawRight(log + [e], |log|)
    requires e.DeleteOk? ==> Standing(log) == None
    requires e.CreateOk? ==> Standing(log).Some?
    ensures LogOk(log + [e])
  {
    var grown := log + [e];
    assert grown[..|log|] == log;
    forall i | 0 <= i < |log| ensures grown[..i] == log[..i] && grown[i] == log[i] {
    }
    forall i | 0 <= i < |grown| && grown[i].Saw? ensures SawRight(grown, i) {
      if i < |log| {
        assert SawRight(log, i);
      }
    }
  }

  lemma LookingGrows(log: seq<Entry>, e: Entry, p: nat, record: Record)
    requires Looking(log, p, record) && !LoadEntry(e, p)
    ensures Looking(log + [e], p, record)
  {
    var j :| 0 <= j < |log| && LookedAt(log, p, record, j);
    assert (log + [e])[..j] == log[..j];
    assert LookedAt(log + [e], p, record, j);
  }

  lemma LooksNow(log: seq<Entry>, p: nat, record: Record)
    requires Standing(log) == Some(record)
    ensures Looking(log + [Looked(p)], p, record)
  {
    assert (log + [Looked(p)])[..|log|] == log;
    assert LookedAt(log + [Looked(p)], p, record, |log|);
  }

  // Nothing that a load depends on changes: the record in place keeps its file, every
  // reader its own, and the log grows by at most an entry of no consequence for others.
  lemma QuietFrame(s: State, t: State, p: nat)
    requires ReadsOk(s) && p < |s.procs| && t.log == s.log && t.record == s.record
    requires |t.procs| == |s.procs| && t.procs == s.procs[p := t.procs[p]]
    requires s.record.Some? ==> Kept(t, s.record.value) == Kept(s, s.record.value)
    requires forall q :: 0 <= q < |s.procs| && s.procs[q].LoadRead? ==> Kept(t, s.procs[q].fd) == Kept(s, s.procs[q].fd)
    requires !t.procs[p].LoadRead? && !t.procs[p].CreateUnlock? && (t.procs[p].DeleteUnlock? ==> t.record.None? && t.temp.None? && !t.dir)
    requires forall q :: 0 <= q < |s.procs| && q != p && s.procs[q].DeleteUnlock? ==> t.temp == s.temp && t.dir == s.dir
    ensures ReadsOk(t)
  {
  }

  lemma NoteFrame(s: State, t: State, p: nat, e: Entry)
    requires ReadsOk(s) && p < |s.procs| && t.log == s.log + [e] && t.record == s.record && t.files == s.files
    requires t.temp == s.temp && t.dir == s.dir
    requires |t.procs| == |s.procs| && t.procs == s.procs[p := t.procs[p]]
    requires e == CreateOk(p) || e == DeleteOk(p) || e == Looked(p) || (e.Saw? && e.p == p)
    requires e.Saw? ==> SawRight(t.log, |s.log|)
    requires e == DeleteOk(p) ==> s.record.None?
    requires e == CreateOk(p) ==> s.record.Some?
    requires t.procs[p] == Idle || (s.record.Some? && e == Looked(p) && t.procs[p] == LoadRead(s.record.value))
    ensures ReadsOk(t)
  {
    LogGrows(s.log, e);
    assert t.log[..|s.log|] == s.log;
    forall q | 0 <= q < |t.procs| && t.procs[q].LoadRead? ensures Looking(t.log, q, Kept(t, t.procs[q].fd)) {
      if q == p {
        LooksNow(s.log, p, Kept(s, s.record.value));
      } else {
        LookingGrows(s.log, e, q, Kept(s, s.procs[q].fd));
      }
    }
  }

  // A commit or a removal, by the only process inside the lock.
  lemma ChangeFrame(s: State, t: State, p: nat, e: Entry)
    requires ReadsOk(s) && p < |s.procs| && t.log == s.log + [e] && t.files == s.files
    requires |t.procs| == |s.procs| && t.procs == s.procs[p := t.procs[p]]
    requires e.Committed? || e == Removed
    requires e.Committed? ==> t.record.Some? && Kept(s, t.record.value) == e.record
    requires e == Removed ==> t.record.None?
    requires !t.procs[p].LoadRead? && !t.procs[p].DeleteUnlock? && (t.procs[p].CreateUnlock? ==> t.record.Some?)
    requires forall q :: 0 <= q < |s.procs| && q != p ==> !s.procs[q].DeleteUnlock? && !s.procs[q].CreateUnlock?
    ensures ReadsOk(t)
  {
    LogGrows(s.log, e);
    forall q | 0 <= q < |t.procs| && t.procs[q].LoadRead? ensures Looking(t.log, q, Kept(t, t.procs[q].fd)) {
      LookingGrows(s.log, e, q, Kept(s, s.procs[q].fd));
    }
  }

  lemma NobodyElse(schemas: seq<nat>, s: State, p: nat)
    requires Inv(schemas, s) && p < |s.procs| && InLock(s.procs[p])
    ensures forall q :: 0 <= q < |s.procs| && q != p ==> !s.procs[q].DeleteUnlock? && !s.procs[q].CreateUnlock?
  {
    forall q | 0 <= q < |s.procs| && q != p ensures !s.procs[q].DeleteUnlock? && !s.procs[q].CreateUnlock? {
      OneInLock(schemas, s, p, q);
    }
  }

  // No reader reads the temporary file.
  lemma ReadersSettled(schemas: seq<nat>, s: State)
    requires Inv(schemas, s)
    ensures forall q :: 0 <= q < |s.procs| && s.procs[q].LoadRead? ==> Settled(s, s.procs[q].fd)
    ensures s.record.Some? ==> Settled(s, s.record.value)
  {
    forall q | 0 <= q < |s.procs| && s.procs[q].LoadRead? ensures Settled(s, s.procs[q].fd) {
      assert OpOk(schemas, s, q);
    }
  }

  lemma LoaderKeepsReads(schemas: seq<nat>, s: State, p: nat)
    requires Inv(schemas, s) && ReadsOk(s) && p < |s.procs| && (s.procs[p].LoadOpen? || s.procs[p].LoadRead?)
    ensures ReadsOk(Advance(schemas, s, p, 0).value)
  {
    var t := Advance(schemas, s, p, 0).value;
    ReadersSettled(schemas, s);
    assert (s.log + [t.log[|s.log|]])[..|s.log|] == s.log;
    NoteFrame(s, t, p, t.log[|s.log|]);
  }

  lemma HolderKeepsReads(schemas: seq<nat>, s: State, p: nat, choice: nat)
    requires Inv(schemas, s) && ReadsOk(s) && p < |s.procs| && Advance(schemas, s, p, choice).Some?
    requires s.procs[p].CreateRename? || s.procs[p].CreateUnlock? || s.procs[p].DeleteFiles? || s.procs[p].DeleteUnlock?
    ensures ReadsOk(Advance(schemas, s, p, choice).value)
  {
    var t := Advance(schemas, s, p, choice).value;
    NobodyElse(schemas, s, p);
    match s.procs[p]
    case CreateRename(_) =>
      assert OpOk(schemas, s, p);
      ChangeFrame(s, t, p, Committed(Read(s, s.temp.value).record));
    case CreateUnlock => NoteFrame(s, t, p, CreateOk(p));
    case DeleteUnlock => NoteFrame(s, t, p, DeleteOk(p));
    case DeleteFiles =>
      assert choice != 2 ==> s.procs[p := t.procs[p]] == s.procs;
      if choice == 1 {
        ChangeFrame(s, t, p, Removed);
      } else {
        QuietFrame(s, t, p);
      }
    case _ =>
  }

  lemma AdvanceKeepsReads(schemas: seq<nat>, s: State, p: nat, choice: nat)
    requires Inv(schemas, s) && ReadsOk(s) && p < |s.procs| && Advance(schemas, s, p, choice).Some?
    ensures ReadsOk(Advance(schemas, s, p, choice).value)
  {
    var op := s.procs[p];
    if op.LoadOpen? || op.LoadRead? {
      LoaderKeepsReads(schemas, s, p);
    } else if op.CreateRename? || op.CreateUnlock? || op.DeleteFiles? || op.DeleteUnlock? {
      HolderKeepsReads(schemas, s, p, choice);
    } else {
      OthersKeepReads(schemas, s, p, choice);
    }
  }

  lemma OthersKeepReads(schemas: seq<nat>, s: State, p: nat, choice: nat)
    requires Inv(schemas, s) && ReadsOk(s) && p < |s.procs| && Advance(schemas, s, p, choice).Some?
    requires var op := s.procs[p];
             !op.LoadOpen? && !op.LoadRead? && !op.CreateRename? && !op.CreateUnlock? && !op.DeleteFiles? && !op.DeleteUnlock?
    ensures ReadsOk(Advance(schemas, s, p, choice).value)
  {
    ReadersSettled(schemas, s);
    assert OpOk(schemas, s, p);
    if InLock(s.procs[p]) {
      NobodyElse(schemas, s, p);
    }
    assert forall fd :: fd in s.files ==> fd != s.next;
    QuietFrame(s, Advance(schemas, s, p, choice).value, p);
  }

  lemma StepKeepsReads(schemas: seq<nat>, s: State, a: Action)
    requires Inv(schemas, s) && ReadsOk(s) && Apply(schemas, s, a).Some?
    ensures ReadsOk(Apply(schemas, s, a).value)
  {
    match a
    case Step(p, choice) => AdvanceKeepsReads(schemas, s, p, choice);
    case _ => QuietFrame(s, Apply(schemas, s, a).value, a.p);
  }

  lemma {:induction false} RunKeepsReads(schemas: seq<nat>, schedule: seq<Action>)
    requires Exec(schemas, schedule).Some?
    ensures ReadsOk(Exec(schemas, schedule).value)
  {
    if schedule != [] {
      var n := |schedule| - 1;
      RunKeepsReads(schemas, schedule[..n]);
      RunKeepsInv(schemas, schedule[..n]);
      StepKeepsReads(schemas, Exec(schemas, schedule[..n]).value, schedule[n]);
    }
  }

  // In every run, whatever crashes, a load that sees nothing looked while no record was in
  // place, and any other sees the whole record that was in place when it looked.
  lemma LoadsSeeWhatStands(schemas: seq<nat>, s: State, i: nat)
    requires Reachable(schemas, s) && i < |s.log| && s.log[i].Saw?
    ensures match s.log[i].content
            case None => Standing(s.log[..i]) == None
            case Some(content) =>
              content.Whole? && exists j :: 0 <= j < i && s.log[j] == Looked(s.log[i].p) && Standing(s.log[..j]) == Some(content.record)
                                            && forall k :: j < k < i ==> !LoadEntry(s.log[k], s.log[i].p)
  {
    var schedule :| Exec(schemas, schedule) == Some(s);
    RunKeepsReads(schemas, schedule);
    assert SawRight(s.log, i);
    if s.log[i].content.Some? {
      var record := s.log[i].content.value.record;
      var before := s.log[..i];
      var j :| 0 <= j < |before| && LookedAt(before, s.log[i].p, record, j);
      assert before[..j] == s.log[..j] && s.log[j] == before[j];
      forall k | j < k < i ensures !LoadEntry(s.log[k], s.log[i].p) {
        assert before[k] == s.log[k];
      }
    }
  }

  // A delete that has done its work has left no record, no temporary file and no directory,
  // and nothing is in place when it returns; something is when a create does.
  lemma ReturnsAreTrue(schemas: seq<nat>, s: State)
    requires Reachable(schemas, s)
    ensures forall p :: 0 <= p < |s.procs| && s.procs[p] == DeleteUnlock ==> s.record == None && s.temp == None && !s.dir
    ensures forall i :: 0 <= i < |s.log| && s.log[i].DeleteOk? ==> Standing(s.log[..i]) == None
    ensures forall i :: 0 <= i < |s.log| && s.log[i].CreateOk? ==> Standing(s.log[..i]).Some?
  {
    var schedule :| Exec(schemas, schedule) == Some(s);
    RunKeepsReads(schemas, schedule);
  }
}
