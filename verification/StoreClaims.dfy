// When claims made through the store are unique.
module StoreClaims {

  import opened Wrappers
  import opened Store

  // Any two successful creates have a delete between them.
  ghost predicate Separated(log: seq<Entry>) {
    forall i, j :: 0 <= i < j < |log| && log[i].CreateOk? && log[j].CreateOk? ==>
      exists k :: i < k < j && log[k].Removed?
  }

  // A create has succeeded and nothing has been deleted since.
  ghost predicate Claimed(log: seq<Entry>) {
    exists i :: 0 <= i < |log| && log[i].CreateOk? && forall k :: i < k < |log| ==> !log[k].Removed?
  }

  lemma SeparatedGrows(log: seq<Entry>, e: Entry)
    requires Separated(log) && (e.CreateOk? ==> !Claimed(log))
    ensures Separated(log + [e])
  {
    var grown := log + [e];
    forall i, j | 0 <= i < j < |grown| && grown[i].CreateOk? && grown[j].CreateOk?
      ensures exists k :: i < k < j && grown[k].Removed?
    {
      if j < |log| {
        var k :| i < k < j && log[k].Removed?;
        assert grown[k].Removed?;
      } else {
        assert log[i].CreateOk?;
        var k :| i < k < |log| && log[k].Removed?;
        assert grown[k].Removed?;
      }
    }
  }

  lemma ClaimedGrows(log: seq<Entry>, e: Entry)
    ensures Claimed(log + [e]) <==> e.CreateOk? || (Claimed(log) && !e.Removed?)
  {
    var grown := log + [e];
    if e.CreateOk? {
      assert grown[|log|].CreateOk?;
    } else if Claimed(grown) {
      ClaimedBefore(log, e);
    } else if Claimed(log) && !e.Removed? {
      ClaimedStill(log, e);
    }
  }

  lemma ClaimedStill(log: seq<Entry>, e: Entry)
    requires Claimed(log) && !e.Removed?
    ensures Claimed(log + [e])
  {
    var i :| 0 <= i < |log| && log[i].CreateOk? && forall k :: i < k < |log| ==> !log[k].Removed?;
    assert (log + [e])[i].CreateOk?;
  }

  lemma ClaimedBefore(log: seq<Entry>, e: Entry)
    requires Claimed(log + [e]) && !e.CreateOk?
    ensures Claimed(log) && !e.Removed?
  {
    var grown := log + [e];
    var i :| 0 <= i < |grown| && grown[i].CreateOk? && forall k :: i < k < |grown| ==> !grown[k].Removed?;
    assert grown[|log|] == e;
    assert forall k :: i <= k < |log| ==> log[k] == grown[k];
    assert log[i].CreateOk?;
  }

  // All binaries agree on the record schema.
  predicate OneSchema(schemas: seq<nat>) {
    forall p, q :: 0 <= p < |schemas| && 0 <= q < |schemas| ==> schemas[p] == schemas[q]
  }

  predicate AboutToClaim(op: Op) {
    op.CreateMkdir? || op.CreateTemp? || op.CreateWrite? || op.CreateRename?
  }

  // While an id is claimed its record is there; a creator that has found the id free, or
  // has just committed, is the only one to touch that.
  ghost predicate ClaimOk(s: State) {
    && Separated(s.log)
    && (Claimed(s.log) ==> s.record.Some?)
    && (forall p :: 0 <= p < |s.procs| && AboutToClaim(s.procs[p]) ==> s.record.None?)
    && (forall p :: 0 <= p < |s.procs| && s.procs[p].CreateUnlock? ==> !Claimed(s.log) && s.record.Some?)
  }

  lemma LogFrame(s: State, t: State, p: nat, e: Entry)
    requires ClaimOk(s) && p < |s.procs| && t.log == s.log + [e] && |t.procs| == |s.procs|
    requires t.procs == s.procs[p := t.procs[p]]
    requires e.CreateOk? ==> !Claimed(s.log) && t.record.Some?
    requires e.Removed? ==> t.record.None?
    requires !e.Removed? ==> t.record == s.record || t.record.Some?
    requires AboutToClaim(t.procs[p]) ==> t.record.None?
    requires t.procs[p].CreateUnlock? ==> !Claimed(t.log) && t.record.Some?
    requires forall q :: 0 <= q < |s.procs| && q != p ==>
               !InLock(s.procs[q]) || ((e.Saw? || e.Looked?) && t.record == s.record)
    ensures ClaimOk(t)
  {
    SeparatedGrows(s.log, e);
    ClaimedGrows(s.log, e);
  }

  lemma QuietFrame(s: State, t: State, p: nat)
    requires ClaimOk(s) && p < |s.procs| && t.log == s.log && t.record == s.record && |t.procs| == |s.procs|
    requires t.procs == s.procs[p := t.procs[p]]
    requires AboutToClaim(t.procs[p]) ==> s.record.None?
    requires !t.procs[p].CreateUnlock?
    ensures ClaimOk(t)
  {
  }

  lemma NobodyElseInLock(schemas: seq<nat>, s: State, p: nat)
    requires Inv(schemas, s) && p < |s.procs| && InLock(s.procs[p])
    ensures forall q :: 0 <= q < |s.procs| && q != p ==> !InLock(s.procs[q])
  {
    forall q | 0 <= q < |s.procs| && q != p ensures !InLock(s.procs[q]) {
      OneInLock(schemas, s, p, q);
    }
  }

  // Under one schema a record that is there is always read as taken.
  lemma CommittedReadable(schemas: seq<nat>, s: State, p: nat, fd: Inode)
    requires Inv(schemas, s) && OneSchema(schemas) && p < |s.procs|
    requires s.procs[p].CreateRead? && s.procs[p].fd == fd
    ensures Read(s, fd).Whole? && Read(s, fd).record.schema <= schemas[p]
  {
    assert OpOk(schemas, s, p);
    var record := Read(s, fd).record;
    var i :| 0 <= i < |s.log| && s.log[i] == Committed(record);
    assert record.schema in schemas;
  }

  // The lock holder changes something a claim depends on.
  lemma HolderKeepsClaim(schemas: seq<nat>, s: State, p: nat, choice: nat)
    requires Inv(schemas, s) && OneSchema(schemas) && ClaimOk(s)
    requires p < |s.procs| && InLock(s.procs[p]) && Advance(schemas, s, p, choice).Some?
    requires s.procs[p].CreateRead? || s.procs[p].CreateRename? || s.procs[p].CreateUnlock?
             || s.procs[p].DeleteFiles? || s.procs[p].DeleteUnlock?
    ensures ClaimOk(Advance(schemas, s, p, choice).value)
  {
    var t := Advance(schemas, s, p, choice).value;
    NobodyElseInLock(schemas, s, p);
    match s.procs[p]
    case CreateRead(_, fd) =>
      CommittedReadable(schemas, s, p, fd);
      QuietFrame(s, t, p);
    case CreateRename(_) =>
      assert OpOk(schemas, s, p);
      var e := Committed(Read(s, s.temp.value).record);
      ClaimedGrows(s.log, e);
      LogFrame(s, t, p, e);
    case CreateUnlock => LogFrame(s, t, p, CreateOk(p));
    case DeleteUnlock => LogFrame(s, t, p, DeleteOk(p));
    case DeleteFiles =>
      assert choice != 2 ==> s.procs[p := t.procs[p]] == s.procs;
      if choice == 1 {
        LogFrame(s, t, p, Removed);
      } else {
        QuietFrame(s, t, p);
      }
    case _ =>
  }

  lemma LoaderKeepsClaim(schemas: seq<nat>, s: State, p: nat)
    requires |s.procs| == |schemas| && ClaimOk(s) && p < |s.procs| && (s.procs[p].LoadOpen? || s.procs[p].LoadRead?)
    ensures ClaimOk(Advance(schemas, s, p, 0).value)
  {
    var t := Advance(schemas, s, p, 0).value;
    match s.procs[p]
    case LoadOpen =>
      LogFrame(s, t, p, if s.record.None? then Saw(p, None) else Looked(p));
    case LoadRead(fd) => LogFrame(s, t, p, Saw(p, Some(Read(s, fd))));
    case _ =>
  }

  lemma AdvanceKeepsClaim(schemas: seq<nat>, s: State, p: nat, choice: nat)
    requires Inv(schemas, s) && OneSchema(schemas) && ClaimOk(s)
    requires p < |s.procs| && Advance(schemas, s, p, choice).Some?
    ensures ClaimOk(Advance(schemas, s, p, choice).value)
  {
    var op := s.procs[p];
    if op.CreateRead? || op.CreateRename? || op.CreateUnlock? || op.DeleteFiles? || op.DeleteUnlock? {
      HolderKeepsClaim(schemas, s, p, choice);
    } else if op.LoadOpen? || op.LoadRead? {
      LoaderKeepsClaim(schemas, s, p);
    } else {
      QuietFrame(s, Advance(schemas, s, p, choice).value, p);
    }
  }

  lemma StepKeepsClaim(schemas: seq<nat>, s: State, a: Action)
    requires Inv(schemas, s) && OneSchema(schemas) && ClaimOk(s) && Apply(schemas, s, a).Some?
    ensures ClaimOk(Apply(schemas, s, a).value)
  {
    match a
    case Step(p, choice) => AdvanceKeepsClaim(schemas, s, p, choice);
    case _ =>
  }

  lemma {:induction false} RunKeepsClaim(schemas: seq<nat>, schedule: seq<Action>)
    requires OneSchema(schemas) && Exec(schemas, schedule).Some?
    ensures ClaimOk(Exec(schemas, schedule).value)
  {
    if schedule != [] {
      var n := |schedule| - 1;
      RunKeepsClaim(schemas, schedule[..n]);
      RunKeepsInv(schemas, schedule[..n]);
      StepKeepsClaim(schemas, Exec(schemas, schedule[..n]).value, schedule[n]);
    }
  }

  // ----- Mixed binaries -----

  lemma ReachableNext(schemas: seq<nat>, s: State, a: Action) returns (t: State)
    requires Reachable(schemas, s) && |s.procs| == |schemas| && Apply(schemas, s, a).Some?
    ensures t == Apply(schemas, s, a).value && Reachable(schemas, t)
  {
    t := Apply(schemas, s, a).value;
    var schedule :| Exec(schemas, schedule) == Some(s);
    assert (schedule + [a])[..|schedule|] == schedule;
    assert Exec(schemas, schedule + [a]) == Some(t);
  }

  // Nobody is doing anything and no temporary file is left over.
  ghost predicate Quiet(s: State) {
    && s.lock == None && s.temp == None
    && forall p :: 0 <= p < |s.procs| ==> s.procs[p] == Idle
  }

  // The id looks free to process p: no record, or one its Load gives an error for.
  predicate LooksFree(schemas: seq<nat>, s: State, p: nat)
    requires p < |schemas|
  {
    s.record.Some? ==> Read(s, s.record.value).Whole? && Read(s, s.record.value).record.schema > schemas[p]
  }

  // An undisturbed create up to the point where it has found the id free.
  lemma FindsFree(schemas: seq<nat>, s: State, p: nat) returns (t: State)
    requires Reachable(schemas, s) && |s.procs| == |schemas| && p < |schemas| && Quiet(s) && LooksFree(schemas, s, p)
    ensures Reachable(schemas, t)
    ensures t == s.(lock := Some(p), procs := s.procs[p := CreateMkdir(0)])
  {
    t := ReachableNext(schemas, s, StartCreate(p, 0));
    t := ReachableNext(schemas, t, Step(p, 0));
    t := ReachableNext(schemas, t, Step(p, 0));
    if s.record.Some? {
      t := ReachableNext(schemas, t, Step(p, 0));
    }
  }

  // Then it writes its temporary file.
  lemma WritesTemp(schemas: seq<nat>, s: State, p: nat) returns (t: State)
    requires Reachable(schemas, s) && |s.procs| == |schemas| && p < |schemas| && s.temp == None
    requires s.lock == Some(p) && s.procs[p] == CreateMkdir(0)
    ensures Reachable(schemas, t) && |t.procs| == |schemas|
    ensures t.lock == Some(p) && t.procs == s.procs[p := CreateRename(0)] && t.log == s.log
    ensures t.temp.Some? && Read(t, t.temp.value) == Whole(Record(0, schemas[p]))
  {
    t := ReachableNext(schemas, s, Step(p, 0));
    t := ReachableNext(schemas, t, Step(p, 0));
    t := ReachableNext(schemas, t, Step(p, 0));
  }

  // The rest of it, to success.
  lemma CommitsClaim(schemas: seq<nat>, s: State, p: nat) returns (t: State)
    requires Reachable(schemas, s) && |s.procs| == |schemas| && p < |schemas| && s.temp == None
    requires s.lock == Some(p) && s.procs[p] == CreateMkdir(0)
    ensures Reachable(schemas, t)
    ensures t.lock == None && t.temp == None && t.procs == s.procs[p := Idle]
    ensures t.record.Some? && Read(t, t.record.value) == Whole(Record(0, schemas[p]))
    ensures t.log == s.log + [Committed(Record(0, schemas[p]))] + [CreateOk(p)]
  {
    t := WritesTemp(schemas, s, p);
    t := ReachableNext(schemas, t, Step(p, 0));
    t := ReachableNext(schemas, t, Step(p, 0));
  }

  // An undisturbed create finds a free id and succeeds.
  lemma UndisturbedCreate(schemas: seq<nat>, s: State, p: nat) returns (t: State)
    requires Reachable(schemas, s) && |s.procs| == |schemas| && p < |schemas| && Quiet(s) && LooksFree(schemas, s, p)
    ensures Reachable(schemas, t) && Quiet(t)
    ensures t.record.Some? && Read(t, t.record.value) == Whole(Record(0, schemas[p]))
    ensures t.log == s.log + [Committed(Record(0, schemas[p]))] + [CreateOk(p)]
  {
    t := FindsFree(schemas, s, p);
    t := CommitsClaim(schemas, t, p);
  }

  // The names go first.
  lemma DeletesNames(schemas: seq<nat>, s: State, p: nat) returns (t: State)
    requires Reachable(schemas, s) && |s.procs| == |schemas| && p < |schemas|
    requires s.lock == Some(p) && s.procs[p] == DeleteFiles
    ensures Reachable(schemas, t)
    ensures t == s.(temp := None, record := None, log := s.log + if s.record.Some? then [Removed] else [])
  {
    t := ReachableNext(schemas, s, Step(p, 0));
    if s.record.Some? {
      t := ReachableNext(schemas, t, Step(p, 1));
    }
  }

  // Then the directory.
  lemma DeletesDirectory(schemas: seq<nat>, s: State, p: nat) returns (t: State)
    requires Reachable(schemas, s) && |s.procs| == |schemas| && p < |schemas|
    requires s.lock == Some(p) && s.procs[p] == DeleteFiles && s.temp == None && s.record == None
    ensures Reachable(schemas, t)
    ensures t == s.(dir := false, lock := None, procs := s.procs[p := Idle], log := s.log + [DeleteOk(p)])
  {
    t := ReachableNext(schemas, s, Step(p, 2));
    t := ReachableNext(schemas, t, Step(p, 0));
  }

  // An undisturbed delete, whatever a crash may have left, runs to its end.
  lemma UndisturbedDelete(schemas: seq<nat>, s: State, p: nat) returns (t: State)
    requires Reachable(schemas, s) && |s.procs| == |schemas| && p < |schemas| && s.lock == None && s.procs[p] == Idle
    ensures Reachable(schemas, t) && t.lock == None && t.procs == s.procs
    ensures t.record == None && t.temp == None && !t.dir
    ensures t.log == s.log + (if s.record.Some? then [Removed] else []) + [DeleteOk(p)]
  {
    t := ReachableNext(schemas, s, StartDelete(p));
    t := ReachableNext(schemas, t, Step(p, 0));
    t := DeletesNames(schemas, t, p);
    t := DeletesDirectory(schemas, t, p);
  }

  // A process running an older binary claims over the record of a newer one.
  lemma OlderBinaryReclaims(schemas: seq<nat>, older: nat, newer: nat) returns (t: State)
    requires older < |schemas| && newer < |schemas| && schemas[older] < schemas[newer]
    ensures Reachable(schemas, t) && !Separated(t.log)
  {
    var s := Init(|schemas|);
    assert Exec(schemas, []) == Some(s);
    t := UndisturbedCreate(schemas, s, newer);
    t := UndisturbedCreate(schemas, t, older);
    assert |t.log| == 4 && t.log[1] == CreateOk(newer) && t.log[3] == CreateOk(older);
    assert t.log[2].Committed?;
  }

  // Claims of an id are unique, in every interleaving with every crash, exactly when all
  // the processes agree on the record schema.
  lemma UniqueClaimsExact(schemas: seq<nat>)
    ensures (forall s :: Reachable(schemas, s) ==> Separated(s.log)) <==> OneSchema(schemas)
  {
    if OneSchema(schemas) {
      forall s | Reachable(schemas, s) ensures Separated(s.log) {
        var schedule :| Exec(schemas, schedule) == Some(s);
        RunKeepsClaim(schemas, schedule);
      }
    } else {
      var p, q :| 0 <= p < |schemas| && 0 <= q < |schemas| && schemas[p] != schemas[q];
      var s := OlderBinaryReclaims(schemas, if schemas[p] < schemas[q] then p else q, if schemas[p] < schemas[q] then q else p);
    }
  }
}
