// The lifecycle verbs of pkg/runtime/container.go over the record of one id, with
// processes that die unobserved: what Load reports, and what Start, Run, Kill and Delete
// make of it.
module Lifecycle {

  import opened Wrappers

  datatype Status = Creating | Created | Running | Stopped

  datatype Record = Record(status: Status, pid: nat)

  // The command in progress, and what it has found or made so far.
  datatype Pending = Nothing | Making(child: nat) | Starting(found: Record) | Deleting(force: bool)

  // alive holds the pids signal 0 still reaches; pids in used are never handed out again.
  // owner is the process of the container the record stands for, 0 before it is cloned.
  // waiting holds the containers a foreground Run is waiting for.
  datatype World = World(
    record: Option<Record>, owner: nat, pending: Pending,
    alive: set<nat>, used: set<nat>, waiting: set<nat>)

  // processAlive and the reconciliation in Load.
  function Reconciled(r: Record, alive: set<nat>): Record {
    if (r.status == Running || r.status == Created) && r.pid !in alive then Record(Stopped, 0) else r
  }

  // What Load returns.
  function View(w: World): Option<Record> {
    match w.record
    case None => None
    case Some(r) => Some(Reconciled(r, w.alive))
  }

  datatype Event =
    | Claim | Clone(pid: nat) | FinishCreate | AbortCreate
    | BeginStart | FinishStart
    | Attach(pid: nat) | FinishRun(pid: nat)
    | BeginDelete(force: bool) | KillOwner | FinishDelete
    | GiveUp                 // the command fails or is killed here
    | Death(pid: nat)        // any process, at any time

  // One step of one command, or a death. None means the command refuses or is not there.
  function Next(w: World, e: Event): Option<World> {
    match e
    case Claim =>
      if w.pending == Nothing && View(w).None? then
        Some(w.(record := Some(Record(Creating, 0)), owner := 0, pending := Making(0)))
      else None
    case Clone(pid) =>
      if w.pending == Making(0) && pid > 0 && pid !in w.used then
        Some(w.(owner := pid, pending := Making(pid), alive := w.alive + {pid}, used := w.used + {pid}))
      else None
    case FinishCreate =>
      if w.pending.Making? && w.pending.child > 0 then
        Some(w.(record := Some(Record(Created, w.pending.child)), pending := Nothing))
      else None
    case AbortCreate =>
      if w.pending.Making? then Some(w.(record := None, pending := Nothing, alive := w.alive - {w.pending.child}))
      else None
    case BeginStart =>
      if w.pending == Nothing && View(w).Some? && View(w).value.status == Created then
        Some(w.(pending := Starting(View(w).value)))
      else None
    case FinishStart =>
      if w.pending.Starting? then
        Some(w.(record := Some(w.pending.found.(status := Running)), pending := Nothing))
      else None
    case Attach(pid) =>
      if w.pending == Nothing && w.record == Some(Record(Running, pid)) then Some(w.(waiting := w.waiting + {pid}))
      else None
    // Run's last act, once its own process is gone: whatever record Load finds is saved
    // back as stopped.
    case FinishRun(pid) =>
      if w.pending == Nothing && pid in w.waiting && pid !in w.alive then
        Some(w.(waiting := w.waiting - {pid}, record := if View(w).Some? then Some(Record(Stopped, 0)) else None))
      else None
    case BeginDelete(force) =>
      if w.pending == Nothing && View(w).Some? && (View(w).value.status == Stopped || force) then
        Some(w.(pending := Deleting(force)))
      else None
    case KillOwner =>
      if w.pending == Deleting(true) && View(w).Some? && View(w).value.pid > 0 then
        Some(w.(alive := w.alive - {View(w).value.pid}))
      else None
    case FinishDelete =>
      if w.pending.Deleting? then Some(w.(record := None, pending := Nothing)) else None
    case GiveUp => Some(w.(pending := Nothing))
    case Death(pid) => Some(w.(alive := w.alive - {pid}))
  }

  function Init(): World {
    World(None, 0, Nothing, {}, {}, {})
  }

  // ----- The verbs, as one process runs them with nothing else going on -----

  datatype StartError = Missing | NotCreated(status: Status)

  datatype DeleteError = NoRecord | StillThere(status: Status)

  class Host {
    var world: World

    constructor ()
      ensures world == Init()
    {
      world := Init();
    }

    method Load() returns (r: Option<Record>)
      ensures r == View(world)
    {
      r := world.record;
      if r.Some? && (r.value.status == Running || r.value.status == Created) {
        if r.value.pid !in world.alive {
          r := Some(r.value.(status := Stopped, pid := 0));
        }
      }
    }

    method Save(record: Record)
      modifies this
      ensures world == old(world).(record := Some(record))
    {
      world := world.(record := Some(record));
    }

    // Start from a host with no other command in progress, past the FIFO.
    method Start() returns (r: Result<Record, StartError>)
      requires world.pending == Nothing
      modifies this
      ensures r.Success? <==> View(old(world)).Some? && View(old(world)).value.status == Created
      ensures r.Success? ==> world == old(world).(record := Some(Record(Running, View(old(world)).value.pid)))
      ensures r.Success? ==> Next(Next(old(world), BeginStart).value, FinishStart) == Some(world)
      ensures r.Failure? ==> world == old(world)
      ensures r.Failure? ==>
                r.error == match View(world) case None => Missing case Some(found) => NotCreated(found.status)
    {
      var found := Load();
      if found.None? {
        return Failure(Missing);
      }
      if found.value.status != Created {
        return Failure(NotCreated(found.value.status));
      }
      var record := found.value.(status := Running);
      Save(record);
      return Success(record);
    }

    // Delete, where `dies` says whether SIGKILL took effect in time.
    method Delete(force: bool, dies: bool) returns (r: Result<Record, DeleteError>)
      requires world.pending == Nothing
      modifies this
      ensures r.Success? <==> View(old(world)).Some? && (force || View(old(world)).value.status == Stopped)
      ensures r.Success? ==>
                world == old(world).(
                  record := None,
                  alive := if force && dies && r.value.status != Stopped && r.value.pid > 0
                           then old(world).alive - {r.value.pid} else old(world).alive)
      ensures r.Failure? ==> world == old(world)
      ensures r.Failure? ==>
                r.error == match View(world) case None => NoRecord case Some(found) => StillThere(found.status)
      ensures r.Success? ==>
                && View(old(world)) == Some(r.value)
                && var begun := Next(old(world), BeginDelete(force)).value;
                   var killed := if force && dies && Next(begun, KillOwner).Some? && r.value.status != Stopped
                                 then Next(begun, KillOwner).value else begun;
                   Next(killed, FinishDelete) == Some(world)
    {
      var found := Load();
      if found.None? {
        return Failure(NoRecord);
      }
      if found.value.status != Stopped {
        if !force {
          return Failure(StillThere(found.value.status));
        }
        if found.value.pid > 0 && dies {
          world := world.(alive := world.alive - {found.value.pid});
        }
      }
      world := world.(record := None);
      return Success(found.value);
    }

    // The pid Kill hands to kill(2), if it gets that far.
    method KillTarget() returns (r: Option<nat>)
      ensures r == match View(world)
                   case None => None
                   case Some(found) => if found.status == Stopped then None else Some(found.pid)
    {
      var found := Load();
      if found.None? || found.value.status == Stopped {
        return None;
      }
      return Some(found.value.pid);
    }
  }

  // ----- Invariant -----

  // What every event keeps. Without reuse a record past creating names its own process.
  ghost predicate Inv(w: World) {
    && w.alive <= w.used && 0 !in w.used
    && w.owner in w.used + {0}
    && (w.record.None? ==> !w.pending.Making? && !w.pending.Starting? && !w.pending.Deleting?)
    && (w.record.Some? ==>
          match w.record.value.status
          case Creating => w.record.value.pid == 0
          case Stopped => true
          case _ => w.record.value.pid == w.owner && w.owner > 0)
    && (w.pending.Making? ==> w.record == Some(Record(Creating, 0)) && w.owner == w.pending.child)
    && (w.pending.Starting? ==> w.record == Some(w.pending.found) && w.pending.found.status == Created)
    && (w.pending == Deleting(false) ==> View(w).value.status == Stopped)
  }

  // A record shown as stopped has no living process.
  ghost predicate Truthful(w: World) {
    View(w).Some? && View(w).value.status == Stopped ==> w.owner !in w.alive
  }

  lemma NextKeepsInv(w: World, e: Event)
    requires Inv(w) && Next(w, e).Some?
    ensures Inv(Next(w, e).value)
  {
  }

  // What a Run that ends may find without doing harm: no record, a stopped one, or one
  // still in creating whose child is dead.
  predicate Harmless(w: World, e: Event) {
    e.FinishRun? && View(w).Some? ==>
      || View(w).value.status == Stopped
      || (View(w).value.status == Creating && w.owner !in w.alive)
  }

  // Every other event keeps the record truthful, and a Run's last save does exactly when
  // it is harmless. A created or running record it finds is never that of its own process.
  lemma NextKeepsTruth(w: World, e: Event)
    requires Inv(w) && Truthful(w) && Next(w, e).Some?
    ensures Truthful(Next(w, e).value) <==> Harmless(w, e)
    ensures e.FinishRun? && View(w).Some? && View(w).value.status in {Created, Running} ==> View(w).value.pid != e.pid
  {
  }

  // ----- Runs -----

  // A sequence of worlds, each the next of the one before.
  ghost predicate IsRun(worlds: seq<World>, events: seq<Event>) {
    && |worlds| == |events| + 1 && worlds[0] == Init()
    && forall i :: 0 <= i < |events| ==> Next(worlds[i], events[i]) == Some(worlds[i + 1])
  }

  lemma {:induction false} RunKeepsInv(worlds: seq<World>, events: seq<Event>, i: nat)
    requires IsRun(worlds, events) && i < |worlds|
    ensures Inv(worlds[i])
  {
    if i > 0 {
      RunKeepsInv(worlds, events, i - 1);
      assert Next(worlds[i - 1], events[i - 1]) == Some(worlds[(i - 1) + 1]);
      NextKeepsInv(worlds[i - 1], events[i - 1]);
    }
  }

  function Stage(s: Status): nat {
    match s
    case Creating => 0
    case Created => 1
    case Running => 2
    case Stopped => 3
  }

  lemma NextMovesForward(w: World, e: Event)
    requires Inv(w) && Next(w, e).Some?
    requires w.record.Some? && Next(w, e).value.record.Some?
    ensures Stage(View(w).value.status) <= Stage(View(Next(w, e).value).value.status)
  {
  }

  // The status Load shows only moves forward along creating, created, running, stopped
  // for as long as the record stays.
  lemma {:induction false} StatusMonotone(worlds: seq<World>, events: seq<Event>, i: nat, j: nat)
    requires IsRun(worlds, events) && i <= j < |worlds|
    requires forall k :: i <= k <= j ==> worlds[k].record.Some?
    ensures Stage(View(worlds[i]).value.status) <= Stage(View(worlds[j]).value.status)
    decreases j - i
  {
    if i < j {
      StatusMonotone(worlds, events, i, j - 1);
      RunKeepsInv(worlds, events, j - 1);
      assert Next(worlds[j - 1], events[j - 1]) == Some(worlds[(j - 1) + 1]);
      NextMovesForward(worlds[j - 1], events[j - 1]);
    }
  }

  // What Load shows as created or running is the container's own process, and alive.
  lemma LiveViewIsHonest(worlds: seq<World>, events: seq<Event>, i: nat)
    requires IsRun(worlds, events) && i < |worlds| && worlds[i].record.Some?
    ensures var w, r := worlds[i], View(worlds[i]).value;
            r.status in {Created, Running} ==> r.pid == w.owner && w.owner in w.alive
  {
    RunKeepsInv(worlds, events, i);
  }

  // The pid a record gives Kill is the container's own living process exactly when the
  // record is past creating. Before that it is 0, which kill(2) takes to mean the
  // caller's process group.
  lemma KillTargetExact(worlds: seq<World>, events: seq<Event>, i: nat)
    requires IsRun(worlds, events) && i < |worlds|
    requires View(worlds[i]).Some? && View(worlds[i]).value.status != Stopped
    ensures var w, r := worlds[i], View(worlds[i]).value;
            && (r.pid == w.owner && r.pid in w.alive <==> r.status != Creating)
            && (r.pid == 0 <==> r.status == Creating)
  {
    RunKeepsInv(worlds, events, i);
  }

  // ----- A whole life -----

  // Some events in a row.
  function LifeOf(w: World, events: seq<Event>): Option<World>
    decreases |events|
  {
    if events == [] then Some(w)
    else
      match Next(w, events[0])
      case None => None
      case Some(next) => LifeOf(next, events[1..])
  }

  // Create, start, the end of the process and an unforced delete take any id that is free
  // through the four statuses and leave it free again.
  lemma WholeLife(w: World, pid: nat)
    requires Inv(w) && w.pending == Nothing && w.record.None? && pid > 0 && pid !in w.used
    ensures var claimed := Next(w, Claim);
            claimed.Some? && View(claimed.value) == Some(Record(Creating, 0)) &&
            var created := LifeOf(claimed.value, [Clone(pid), FinishCreate]);
            created.Some? && View(created.value) == Some(Record(Created, pid)) &&
            var running := LifeOf(created.value, [BeginStart, FinishStart]);
            running.Some? && View(running.value) == Some(Record(Running, pid)) &&
            var dead := LifeOf(running.value, [Death(pid)]);
            dead.Some? && View(dead.value) == Some(Record(Stopped, 0)) &&
            var gone := LifeOf(dead.value, [BeginDelete(false), FinishDelete]);
            gone == Some(w.(owner := pid, used := w.used + {pid}))
  {
    var claimed := Next(w, Claim).value;
    LifeOfTwo(claimed, Clone(pid), FinishCreate);
    var created := LifeOf(claimed, [Clone(pid), FinishCreate]).value;
    LifeOfTwo(created, BeginStart, FinishStart);
    var running := LifeOf(created, [BeginStart, FinishStart]).value;
    LifeOfOne(running, Death(pid));
    var dead := LifeOf(running, [Death(pid)]).value;
    LifeOfTwo(dead, BeginDelete(false), FinishDelete);
    assert w.alive + {pid} - {pid} == w.alive;
  }

  // A create that fails, before or after it has cloned the child, leaves the id free.
  lemma FailedCreate(w: World, pid: nat)
    requires Inv(w) && w.pending == Nothing && w.record.None? && pid > 0 && pid !in w.used
    ensures LifeOf(w, [Claim, AbortCreate]) == Some(w.(owner := 0))
    ensures LifeOf(w, [Claim, Clone(pid), AbortCreate]) == Some(w.(owner := pid, used := w.used + {pid}))
  {
    LifeOfTwo(w, Claim, AbortCreate);
    assert w.alive - {0} == w.alive;
    var events := [Claim, Clone(pid), AbortCreate];
    assert events[1..] == [Clone(pid), AbortCreate];
    LifeOfTwo(Next(w, Claim).value, Clone(pid), AbortCreate);
    assert w.alive + {pid} - {pid} == w.alive;
  }

  // A foreground Run waits for a running container only, and for its own process; when that
  // ends it leaves the record stopped.
  lemma ForegroundRunEnds(w: World, pid: nat)
    requires Inv(w) && w.pending == Nothing
    ensures Next(w, Attach(pid)).Some? <==> w.record == Some(Record(Running, pid))
    ensures w.record == Some(Record(Running, pid)) ==>
              LifeOf(w, [Attach(pid), Death(pid), FinishRun(pid)]) ==
              Some(w.(record := Some(Record(Stopped, 0)), alive := w.alive - {pid}, waiting := w.waiting - {pid}))
  {
    if w.record == Some(Record(Running, pid)) {
      var events := [Attach(pid), Death(pid), FinishRun(pid)];
      assert events[1..] == [Death(pid), FinishRun(pid)];
      LifeOfTwo(Next(w, Attach(pid)).value, Death(pid), FinishRun(pid));
      assert w.waiting + {pid} - {pid} == w.waiting - {pid};
    }
  }

  // A forced delete takes a created or running container down whole.
  lemma ForcedDeleteSucceeds(w: World)
    requires Inv(w) && w.pending == Nothing && View(w).Some? && View(w).value.status in {Created, Running}
    ensures LifeOf(w, [BeginDelete(true), KillOwner, FinishDelete]) ==
            Some(w.(record := None, alive := w.alive - {w.owner}))
  {
    var events := [BeginDelete(true), KillOwner, FinishDelete];
    assert events[1..] == [KillOwner, FinishDelete];
    LifeOfTwo(w.(pending := Deleting(true)), KillOwner, FinishDelete);
  }

  lemma LifeOfOne(w: World, e: Event)
    ensures LifeOf(w, [e]) == Next(w, e)
  {
    assert [e][1..] == [];
  }

  lemma LifeOfTwo(w: World, e: Event, f: Event)
    ensures LifeOf(w, [e, f]) == match Next(w, e) case None => None case Some(next) => Next(next, f)
  {
    assert [e, f][1..] == [f];
    match Next(w, e)
    case None =>
    case Some(next) => LifeOfOne(next, f);
  }

  // ----- When a living container is shown as stopped -----

  // At k a Run saved its last word over the record of a living process; up to i the id has
  // not been claimed again and that process has not died.
  ghost predicate LateSave(worlds: seq<World>, events: seq<Event>, k: nat, i: nat)
    requires |worlds| == |events| + 1 && i < |worlds|
  {
    && k < i && events[k].FinishRun?
    && worlds[k].record.Some? && worlds[k].owner in worlds[k].alive
    && forall d :: k < d < i ==> events[d] != Claim && events[d] != Death(worlds[k].owner)
  }

  // What a late save leaves behind.
  predicate Marked(w: World, owner: nat) {
    && w.record in {None, Some(Record(Stopped, 0))}
    && w.owner == owner && owner in w.alive
    && !w.pending.Making? && !w.pending.Starting?
  }

  lemma MarkStays(w: World, e: Event, owner: nat)
    requires Marked(w, owner) && Next(w, e).Some? && e != Claim && e != Death(owner)
    ensures Marked(Next(w, e).value, owner)
  {
  }

  lemma {:induction false} LateSaveMarks(worlds: seq<World>, events: seq<Event>, k: nat, i: nat)
    requires IsRun(worlds, events) && i < |worlds| && LateSave(worlds, events, k, i)
    ensures Marked(worlds[i], worlds[k].owner)
    decreases i
  {
    assert Next(worlds[i - 1], events[i - 1]) == Some(worlds[(i - 1) + 1]);
    if k < i - 1 {
      LateSaveMarks(worlds, events, k, i - 1);
      MarkStays(worlds[i - 1], events[i - 1], worlds[k].owner);
    }
  }

  // A truthful world only turns untruthful by a late save, and stays so.
  lemma UntruthfulBefore(w: World, e: Event)
    requires Inv(w) && Next(w, e).Some? && !Truthful(Next(w, e).value)
    requires !(e.FinishRun? && w.record.Some? && w.owner in w.alive)
    ensures !Truthful(w) && Next(w, e).value.owner == w.owner && e != Claim && e != Death(w.owner)
  {
  }

  lemma {:induction false} UntruthfulSince(worlds: seq<World>, events: seq<Event>, i: nat) returns (k: nat)
    requires IsRun(worlds, events) && i < |worlds| && !Truthful(worlds[i])
    ensures LateSave(worlds, events, k, i) && worlds[k].owner == worlds[i].owner
  {
    assert i > 0;
    var w, e := worlds[i - 1], events[i - 1];
    assert Next(w, e) == Some(worlds[(i - 1) + 1]);
    if e.FinishRun? && w.record.Some? && w.owner in w.alive {
      k := i - 1;
    } else {
      RunKeepsInv(worlds, events, i - 1);
      UntruthfulBefore(w, e);
      k := UntruthfulSince(worlds, events, i - 1);
    }
  }

  // Over every run, a record that is shown as stopped has a living process exactly when a
  // late save is behind it.
  lemma StoppedViewExact(worlds: seq<World>, events: seq<Event>, i: nat)
    requires IsRun(worlds, events) && i < |worlds|
    requires View(worlds[i]).Some? && View(worlds[i]).value.status == Stopped
    ensures worlds[i].owner in worlds[i].alive <==> exists k :: LateSave(worlds, events, k, i)
  {
    if worlds[i].owner in worlds[i].alive {
      var k := UntruthfulSince(worlds, events, i);
    }
    if k :| LateSave(worlds, events, k, i) {
      LateSaveMarks(worlds, events, k, i);
    }
  }

  // Over every run, an unforced delete drops the record of a living container exactly when
  // a late save is behind it. Otherwise it never does.
  lemma UnforcedDeleteExact(worlds: seq<World>, events: seq<Event>, i: nat)
    requires IsRun(worlds, events) && i < |events|
    requires events[i] == FinishDelete && worlds[i].pending == Deleting(false)
    ensures worlds[i + 1].record.None?
    ensures worlds[i + 1].owner in worlds[i + 1].alive <==> exists k :: LateSave(worlds, events, k, i)
  {
    RunKeepsInv(worlds, events, i);
    StoppedViewExact(worlds, events, i);
  }

  // Nothing else loses a living container but a forced delete: a record only goes away by
  // an AbortCreate, which kills the child first, or a delete.
  lemma RecordsOutliveProcesses(worlds: seq<World>, events: seq<Event>, i: nat)
    requires IsRun(worlds, events) && i < |events|
    requires worlds[i].record.Some? && worlds[i + 1].record.None?
    requires worlds[i].pending != Deleting(true)
    requires !exists k :: LateSave(worlds, events, k, i)
    ensures worlds[i + 1].owner !in worlds[i + 1].alive
  {
    RunKeepsInv(worlds, events, i);
    if events[i] == FinishDelete {
      UnforcedDeleteExact(worlds, events, i);
    }
  }

  // The run behind the late save: a foreground Run waits on container 1; its id is
  // deleted by force and created anew as container 2; the Run's last save then marks the
  // living container 2 stopped, and a plain delete drops its record.
  function ForegroundRun(): seq<Event> {
    [Claim, Clone(1), FinishCreate, BeginStart, FinishStart, Attach(1)]
  }

  function ForcedDelete(): seq<Event> {
    [BeginDelete(true), KillOwner, FinishDelete]
  }

  function SecondContainer(): seq<Event> {
    [Claim, Clone(2), FinishCreate, FinishRun(1), BeginDelete(false), FinishDelete]
  }

  lemma LifeFrom(w: World, events: seq<Event>, i: nat) returns (next: World)
    requires i < |events| && Next(w, events[i]).Some?
    ensures next == Next(w, events[i]).value
    ensures LifeOf(w, events[i..]) == LifeOf(next, events[i + 1..])
  {
    next := Next(w, events[i]).value;
    assert events[i..][1..] == events[i + 1..];
  }

  lemma {:induction false} LifeConcat(w: World, a: seq<Event>, b: seq<Event>)
    requires LifeOf(w, a).Some?
    ensures LifeOf(w, a + b) == LifeOf(LifeOf(w, a).value, b)
    decreases |a|
  {
    if a == [] {
      assert a + b == b;
    } else {
      assert (a + b)[1..] == a[1..] + b;
      LifeConcat(Next(w, a[0]).value, a[1..], b);
    }
  }

  lemma AfterForegroundRun(events: seq<Event>)
    requires events == ForegroundRun()
    ensures LifeOf(Init(), events) == Some(World(Some(Record(Running, 1)), 1, Nothing, {1}, {1}, {1}))
  {
    assert events[0..] == events;
    var w := LifeFrom(Init(), events, 0);
    w := LifeFrom(w, events, 1);
    w := LifeFrom(w, events, 2);
    w := LifeFrom(w, events, 3);
    w := LifeFrom(w, events, 4);
    w := LifeFrom(w, events, 5);
    assert events[6..] == [];
    assert w.alive == {1} && w.used == {1} && w.waiting == {1};
  }

  lemma AfterForcedDelete(w0: World, events: seq<Event>)
    requires w0 == World(Some(Record(Running, 1)), 1, Nothing, {1}, {1}, {1}) && events == ForcedDelete()
    ensures LifeOf(w0, events) == Some(World(None, 1, Nothing, {}, {1}, {1}))
  {
    assert events[0..] == events;
    var w := LifeFrom(w0, events, 0);
    w := LifeFrom(w, events, 1);
    w := LifeFrom(w, events, 2);
    assert events[3..] == [];
    assert w.alive == {};
  }

  lemma AfterSecond(w0: World, events: seq<Event>)
    requires w0 == World(None, 1, Nothing, {}, {1}, {1}) && events == SecondContainer()
    ensures LifeOf(w0, events) == Some(World(None, 2, Nothing, {2}, {1, 2}, {}))
  {
    assert events[0..] == events;
    var w := LifeFrom(w0, events, 0);
    w := LifeFrom(w, events, 1);
    w := LifeFrom(w, events, 2);
    w := LifeFrom(w, events, 3);
    w := LifeFrom(w, events, 4);
    w := LifeFrom(w, events, 5);
    assert events[6..] == [];
    assert w.alive == {2} && w.used == {1, 2} && w.waiting == {};
  }

  lemma LateRunLosesLiveContainer()
    ensures var end := LifeOf(Init(), ForegroundRun() + ForcedDelete() + SecondContainer());
            end.Some? && end.value.record.None? && end.value.owner == 2 && 2 in end.value.alive
  {
    AfterForegroundRun(ForegroundRun());
    var running := LifeOf(Init(), ForegroundRun()).value;
    AfterForcedDelete(running, ForcedDelete());
    LifeConcat(Init(), ForegroundRun(), ForcedDelete());
    var gone := LifeOf(running, ForcedDelete()).value;
    AfterSecond(gone, SecondContainer());
    LifeConcat(Init(), ForegroundRun() + ForcedDelete(), SecondContainer());
  }
}
