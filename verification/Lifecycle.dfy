/** Spawning, pushing, handling, stopping and destroying actors on one node, and the
    barrier at the end of System.Stop. Each action is one section under a lock, or the
    part of a call between two of them; any number of goroutines take them in any order.
    The queue of a process is its mailbox, taken as one step a push; module ProcessQueue
    refines it to the mailbox's atomic steps. */
module Lifecycle {
  import opened Wrappers
  import opened Registry

  datatype Envelope = Init | StopMark | Work(no: nat, user: bool)

  /** Where the worker of a process is: between messages (a handler call is one step), in
      the actor's Destroy, or before the two removals that follow it. */
  datatype Worker = Free | Destroying | RemovingName(panicked: bool) | RemovingId(panicked: bool)

  datatype Process = Process(
    id: nat,
    name: string,
    closing: bool,
    closed: bool,
    pushing: seq<Envelope>,  // pushes that hold the read lock
    queue: seq<Envelope>,
    worker: Worker,
    accepted: seq<Envelope>, // pushes that succeeded, in queue order
    handled: seq<Envelope>,
    destroysBegun: nat,
    destroysEnded: nat)

  /** System.Stop: not called, calling Stop on each registered process, waiting for the
      wait group, or returned. */
  datatype Shutdown = NotStopped | Looping(todo: set<nat>) | Waiting | ReturnedNil | ReturnedTimeout

  datatype System = System(
    processes: seq<Process>,
    table: Table<nat>,       // registered processes, by their position above
    spawning: seq<string>,   // spawns that hold the read lock, by name
    shutdown: Shutdown)

  function Begin(): System {
    System([], Table(map[], map[], 0), [], NotStopped)
  }

  function NewProcess(id: nat, name: string): Process {
    Process(id, name, false, false, [], [Init], Free, [], [], 0, 0)
  }

  datatype Action =
    | SpawnBegin(name: string)
    | SpawnEnd(k: nat, id: nat)
    | SpawnWithoutHandler(k: nat)
    | PushBegin(i: nat, e: Envelope)
    | PushEnd(i: nat, k: nat, full: bool)
    | Stop(i: nat)
    | Handle(i: nat)
    | EndDestroy(i: nat, panicked: bool)
    | RemoveName(i: nat)
    | RemoveId(i: nat)
    | ShutdownBegin
    | ShutdownStop(id: nat)
    | ShutdownWait
    | ShutdownDone
    | ShutdownTimeout

  /** Holding the manager's read lock while it calls Stop on each process. */
  predicate LoopHoldsTable(s: System) { s.shutdown.Looping? }

  /** System.Stop holds the spawn lock until it returns. */
  predicate SpawnLocked(s: System) { s.shutdown.Looping? || s.shutdown.Waiting? }

  predicate Enabled(s: System, a: Action) {
    match a
    case SpawnBegin(_) => !SpawnLocked(s)
    case SpawnEnd(k, id) =>
      k < |s.spawning| && id > 0 && (forall i :: 0 <= i < |s.processes| ==> s.processes[i].id != id)
    case SpawnWithoutHandler(k) => k < |s.spawning|
    case PushBegin(i, e) => i < |s.processes| && e.Work?
    case PushEnd(i, k, full) =>
      && i < |s.processes| && k < |s.processes[i].pushing|
      && (full ==> s.processes[i].pushing[k].Work? && s.processes[i].pushing[k].user)
    case Stop(i) => i < |s.processes| && s.processes[i].pushing == []
    case Handle(i) => i < |s.processes| && s.processes[i].worker.Free? && s.processes[i].queue != []
    case EndDestroy(i, _) => i < |s.processes| && s.processes[i].worker.Destroying?
    case RemoveName(i) => i < |s.processes| && s.processes[i].worker.RemovingName? && !LoopHoldsTable(s)
    case RemoveId(i) => i < |s.processes| && s.processes[i].worker.RemovingId? && !LoopHoldsTable(s)
    case ShutdownBegin => s.shutdown.NotStopped? && s.spawning == []
    case ShutdownStop(id) =>
      && s.shutdown.Looping? && id in s.shutdown.todo
      && id in s.table.ids && s.table.ids[id] < |s.processes| && s.processes[s.table.ids[id]].pushing == []
    case ShutdownWait => s.shutdown.Looping? && s.shutdown.todo == {}
    case ShutdownDone => s.shutdown.Waiting? && s.table.waiting == 0
    case ShutdownTimeout => s.shutdown.Waiting?
  }

  // ---- What each section does to a process ----

  function PushBeginSpec(p: Process, e: Envelope): Process {
    if p.closing then p else p.(pushing := p.pushing + [e])
  }

  function PushEndSpec(p: Process, k: nat, full: bool): Process
    requires k < |p.pushing|
  {
    var e, rest := p.pushing[k], p.pushing[..k] + p.pushing[k + 1..];
    if full then p.(pushing := rest)
    else p.(pushing := rest, queue := p.queue + [e], accepted := p.accepted + [e])
  }

  function StopProcessSpec(p: Process): Process {
    if p.closing then p else p.(closing := true, queue := p.queue + [StopMark])
  }

  function HandleSpec(p: Process): Process
    requires p.queue != []
  {
    var taken := p.(queue := p.queue[1..], handled := p.handled + [p.queue[0]]);
    if p.queue[0].StopMark? then taken.(worker := Destroying, destroysBegun := p.destroysBegun + 1) else taken
  }

  function Put(s: System, i: nat, p: Process): System
    requires i < |s.processes|
  {
    s.(processes := s.processes[i := p])
  }

  function Apply(s: System, a: Action): System
    requires Enabled(s, a)
  {
    match a
    case SpawnBegin(name) =>
      if s.shutdown != NotStopped then s else s.(spawning := s.spawning + [name])
    case SpawnEnd(k, id) =>
      var name := s.spawning[k];
      var rest := s.(spawning := s.spawning[..k] + s.spawning[k + 1..]);
      if name in s.table.names then rest
      else rest.(processes := s.processes + [NewProcess(id, name)], table := AddSpec(s.table, id, name, |s.processes|))
    case SpawnWithoutHandler(k) => s.(spawning := s.spawning[..k] + s.spawning[k + 1..])
    case PushBegin(i, e) => Put(s, i, PushBeginSpec(s.processes[i], e))
    case PushEnd(i, k, full) => Put(s, i, PushEndSpec(s.processes[i], k, full))
    case Stop(i) => Put(s, i, StopProcessSpec(s.processes[i]))
    case Handle(i) => Put(s, i, HandleSpec(s.processes[i]))
    case EndDestroy(i, panicked) =>
      var p := s.processes[i];
      Put(s, i, p.(worker := RemovingName(panicked), destroysEnded := p.destroysEnded + 1))
    case RemoveName(i) =>
      var p := s.processes[i];
      Put(s, i, p.(worker := RemovingId(p.worker.panicked))).(table := RemoveNameSpec(s.table, p.name))
    case RemoveId(i) =>
      var p := s.processes[i];
      Put(s, i, p.(worker := Free, closed := !p.worker.panicked)).(table := RemoveIdSpec(s.table, p.id))
    case ShutdownBegin => s.(shutdown := Looping(s.table.ids.Keys))
    case ShutdownStop(id) =>
      var i := s.table.ids[id];
      Put(s, i, StopProcessSpec(s.processes[i])).(shutdown := Looping(s.shutdown.todo - {id}))
    case ShutdownWait => s.(shutdown := Waiting)
    case ShutdownDone => s.(shutdown := ReturnedNil)
    case ShutdownTimeout => s.(shutdown := ReturnedTimeout)
  }

  function Run(s: System, schedule: seq<Action>): System {
    if schedule == [] then s
    else
      var before := Run(s, schedule[..|schedule| - 1]);
      var a := schedule[|schedule| - 1];
      if Enabled(before, a) then Apply(before, a) else before
  }

  // ---- Each process ----

  predicate Stopped(p: Process) {
    |p.handled| > 0 && p.handled[|p.handled| - 1].StopMark?
  }

  predicate ProcessOk(p: Process) {
    && p.id > 0
    && (forall k :: 0 <= k < |p.accepted| ==> p.accepted[k].Work?)
    && (forall k :: 0 <= k < |p.pushing| ==> p.pushing[k].Work?)
    && p.handled + p.queue == [Init] + p.accepted + (if p.closing then [StopMark] else [])
    && (p.closing ==> p.pushing == [])
    && (Stopped(p) ==> p.queue == [])
    && (p.worker != Free ==> Stopped(p))
    && p.destroysBegun == (if Stopped(p) then 1 else 0)
    && p.destroysEnded == (if Stopped(p) && p.worker != Destroying then 1 else 0)
  }

  lemma ProcessKept(p: Process)
    requires ProcessOk(p)
    ensures forall e: Envelope :: e.Work? ==> ProcessOk(PushBeginSpec(p, e))
    ensures p.pushing == [] ==> ProcessOk(StopProcessSpec(p))
    ensures p.worker.Destroying? ==>
      forall panicked :: ProcessOk(p.(worker := RemovingName(panicked), destroysEnded := p.destroysEnded + 1))
  {
    StoppedClosing(p);
    if p.pushing == [] && !p.closing {
      assert p.handled + (p.queue + [StopMark]) == p.handled + p.queue + [StopMark];
    }
  }

  /** Only a closing process has handled its stop mark, and then has handled everything. */
  lemma StoppedClosing(p: Process)
    requires ProcessOk(p)
    ensures Stopped(p) ==> p.closing && p.handled == [Init] + p.accepted + [StopMark]
  {
    if Stopped(p) {
      var last := |p.handled| - 1;
      assert (p.handled + p.queue)[last] == StopMark;
      assert p.handled + p.queue == p.handled;
    }
  }

  lemma PushEndKept(p: Process, k: nat, full: bool)
    requires ProcessOk(p) && k < |p.pushing|
    ensures ProcessOk(PushEndSpec(p, k, full))
  {
    StoppedClosing(p);
    var e := p.pushing[k];
    assert p.handled + (p.queue + [e]) == p.handled + p.queue + [e];
    assert [Init] + (p.accepted + [e]) == [Init] + p.accepted + [e];
  }

  lemma HandleKept(p: Process)
    requires ProcessOk(p) && p.worker.Free? && p.queue != []
    ensures ProcessOk(HandleSpec(p))
  {
    StoppedClosing(p);
    var e := p.queue[0];
    assert (p.handled + [e]) + p.queue[1..] == p.handled + p.queue;
    if e.StopMark? {
      var all := [Init] + p.accepted + (if p.closing then [StopMark] else []);
      assert all[|p.handled|] == StopMark;
      assert |p.handled| == |all| - 1;
    }
  }

  // ---- The table ----

  predicate InIds(p: Process) {
    !(Stopped(p) && p.worker.Free?)
  }

  predicate InNames(p: Process) {
    p.name != "" && (!Stopped(p) || p.worker.Destroying? || p.worker.RemovingName?)
  }

  predicate IdsOk(processes: seq<Process>, ids: map<nat, nat>) {
    && (forall i :: 0 <= i < |processes| ==> processes[i].id > 0)
    && (forall i :: 0 <= i < |processes| && InIds(processes[i]) ==>
          processes[i].id in ids && ids[processes[i].id] == i)
    && (forall id :: id in ids ==>
          ids[id] < |processes| && processes[ids[id]].id == id && InIds(processes[ids[id]]))
  }

  predicate NamesOk(processes: seq<Process>, names: map<string, nat>) {
    && (forall i :: 0 <= i < |processes| && InNames(processes[i]) ==>
          processes[i].name in names && names[processes[i].name] == i)
    && (forall name :: name in names ==>
          names[name] < |processes| && processes[names[name]].name == name && InNames(processes[names[name]]))
  }

  predicate TableOk(processes: seq<Process>, t: Table<nat>) {
    Counted(t) && IdsOk(processes, t.ids) && NamesOk(processes, t.names)
  }

  lemma TableFrame(processes: seq<Process>, t: Table<nat>, i: nat, p: Process)
    requires TableOk(processes, t) && i < |processes|
    requires p.id == processes[i].id && p.name == processes[i].name
    requires InIds(p) == InIds(processes[i]) && InNames(p) == InNames(processes[i])
    ensures TableOk(processes[i := p], t)
  {
    IdsFrame(processes, t.ids, i, p);
    NamesFrame(processes, t.names, i, p);
  }

  lemma IdsAdd(processes: seq<Process>, ids: map<nat, nat>, p: Process)
    requires IdsOk(processes, ids) && p.id > 0 && InIds(p)
    requires forall i :: 0 <= i < |processes| ==> processes[i].id != p.id
    ensures IdsOk(processes + [p], ids[p.id := |processes|]) && p.id !in ids
  {
  }

  lemma NamesAdd(processes: seq<Process>, names: map<string, nat>, p: Process)
    requires NamesOk(processes, names) && p.name !in names && InNames(p) == (p.name != "")
    ensures NamesOk(processes + [p], if p.name != "" then names[p.name := |processes|] else names)
  {
  }

  lemma TableAdd(processes: seq<Process>, t: Table<nat>, id: nat, name: string)
    requires TableOk(processes, t) && id > 0 && name !in t.names
    requires forall i :: 0 <= i < |processes| ==> processes[i].id != id
    ensures TableOk(processes + [NewProcess(id, name)], AddSpec(t, id, name, |processes|))
  {
    IdsAdd(processes, t.ids, NewProcess(id, name));
    NamesAdd(processes, t.names, NewProcess(id, name));
    AddKeepsCount(t, id, name, |processes|);
  }

  lemma IdsFrame(processes: seq<Process>, ids: map<nat, nat>, i: nat, p: Process)
    requires IdsOk(processes, ids) && i < |processes| && p.id == processes[i].id && InIds(p) == InIds(processes[i])
    ensures IdsOk(processes[i := p], ids)
  {
  }

  lemma NamesFrame(processes: seq<Process>, names: map<string, nat>, i: nat, p: Process)
    requires NamesOk(processes, names) && i < |processes| && p.name == processes[i].name
    requires InNames(p) == InNames(processes[i])
    ensures NamesOk(processes[i := p], names)
  {
  }

  lemma NamesRemove(processes: seq<Process>, names: map<string, nat>, i: nat, p: Process)
    requires NamesOk(processes, names) && i < |processes| && InNames(processes[i])
    requires p.name == processes[i].name && !InNames(p)
    ensures NamesOk(processes[i := p], names - {p.name})
  {
  }

  lemma IdsRemove(processes: seq<Process>, ids: map<nat, nat>, i: nat, p: Process)
    requires IdsOk(processes, ids) && i < |processes| && InIds(processes[i]) && p.id == processes[i].id && !InIds(p)
    ensures IdsOk(processes[i := p], ids - {p.id})
  {
  }

  lemma TableRemoveName(processes: seq<Process>, t: Table<nat>, i: nat, p: Process)
    requires TableOk(processes, t) && i < |processes| && InNames(processes[i]) == (p.name != "")
    requires p.id == processes[i].id && p.name == processes[i].name
    requires InIds(p) == InIds(processes[i]) && !InNames(p)
    ensures TableOk(processes[i := p], RemoveNameSpec(t, p.name))
  {
    IdsFrame(processes, t.ids, i, p);
    if p.name == "" {
      NamesFrame(processes, t.names, i, p);
    } else {
      NamesRemove(processes, t.names, i, p);
    }
  }

  lemma TableRemoveId(processes: seq<Process>, t: Table<nat>, i: nat, p: Process)
    requires TableOk(processes, t) && i < |processes|
    requires p.id == processes[i].id && p.name == processes[i].name
    requires InIds(processes[i]) && !InIds(p) && !InNames(processes[i]) && !InNames(p)
    ensures TableOk(processes[i := p], RemoveIdSpec(t, p.id))
  {
    IdsRemove(processes, t.ids, i, p);
    NamesFrame(processes, t.names, i, p);
    RemoveKeepsCount(t, p.id);
  }

  // ---- The shutdown ----

  predicate AllClosing(processes: seq<Process>, ids: map<nat, nat>, except: set<nat>) {
    forall id :: id in ids && id !in except ==> ids[id] < |processes| && processes[ids[id]].closing
  }

  predicate ShutdownOk(processes: seq<Process>, ids: map<nat, nat>, spawning: seq<string>, shutdown: Shutdown) {
    && (spawning != [] ==> shutdown == NotStopped)
    && (match shutdown
        case NotStopped => true
        case Looping(todo) => todo <= ids.Keys && AllClosing(processes, ids, todo)
        case Waiting => AllClosing(processes, ids, {})
        case ReturnedNil => ids == map[]
        case ReturnedTimeout => AllClosing(processes, ids, {}))
  }

  predicate Inv(s: System) {
    && (forall i :: 0 <= i < |s.processes| ==> ProcessOk(s.processes[i]))
    && TableOk(s.processes, s.table)
    && ShutdownOk(s.processes, s.table.ids, s.spawning, s.shutdown)
  }

  /** A section on one process that neither registers nor removes it and never reopens it. */
  lemma PutKept(s: System, i: nat, p: Process)
    requires Inv(s) && i < |s.processes| && ProcessOk(p)
    requires p.id == s.processes[i].id && p.name == s.processes[i].name && (s.processes[i].closing ==> p.closing)
    requires InIds(p) == InIds(s.processes[i]) && InNames(p) == InNames(s.processes[i])
    ensures Inv(Put(s, i, p))
  {
    TableFrame(s.processes, s.table, i, p);
  }

  lemma NewProcessOk(id: nat, name: string)
    requires id > 0
    ensures ProcessOk(NewProcess(id, name)) && InIds(NewProcess(id, name))
  {
  }

  lemma RegisterKept(s: System, spawning: seq<string>, p: Process, t: Table<nat>)
    requires Inv(s) && s.shutdown == NotStopped
    requires ProcessOk(p) && TableOk(s.processes + [p], t)
    ensures Inv(s.(spawning := spawning, processes := s.processes + [p], table := t))
  {
  }

  lemma SpawnEndKept(s: System, k: nat, id: nat)
    requires Inv(s) && Enabled(s, SpawnEnd(k, id))
    ensures Inv(Apply(s, SpawnEnd(k, id)))
  {
    var name := s.spawning[k];
    if name !in s.table.names {
      NewProcessOk(id, name);
      TableAdd(s.processes, s.table, id, name);
      var rest := s.spawning[..k] + s.spawning[k + 1..];
      RegisterKept(s, rest, NewProcess(id, name), AddSpec(s.table, id, name, |s.processes|));
    }
  }

  /** The last two steps of a process: it leaves the table, nothing else changes. */
  lemma RemoveKept(s: System, i: nat, p: Process, t: Table<nat>)
    requires Inv(s) && i < |s.processes| && !LoopHoldsTable(s)
    requires TableOk(s.processes[i := p], t) && t.ids.Keys <= s.table.ids.Keys
    requires ProcessOk(p) && (s.processes[i].closing ==> p.closing)
    requires forall id :: id in t.ids ==> t.ids[id] == s.table.ids[id]
    ensures Inv(Put(s, i, p).(table := t))
  {
    ClosingShrinks(s.processes, s.table.ids, i, p, t.ids);
  }

  lemma ClosingShrinks(processes: seq<Process>, ids: map<nat, nat>, i: nat, p: Process, fewer: map<nat, nat>)
    requires i < |processes| && (processes[i].closing ==> p.closing)
    requires fewer.Keys <= ids.Keys && forall id :: id in fewer ==> fewer[id] == ids[id]
    ensures AllClosing(processes, ids, {}) ==> AllClosing(processes[i := p], fewer, {})
    ensures ids == map[] ==> fewer == map[]
  {
  }

  lemma RemoveNameKept(s: System, i: nat)
    requires Inv(s) && Enabled(s, RemoveName(i))
    ensures Inv(Apply(s, RemoveName(i)))
  {
    var p := s.processes[i];
    var p' := p.(worker := RemovingId(p.worker.panicked));
    TableRemoveName(s.processes, s.table, i, p');
    RemoveKept(s, i, p', RemoveNameSpec(s.table, p.name));
  }

  lemma RemoveIdKept(s: System, i: nat)
    requires Inv(s) && Enabled(s, RemoveId(i))
    ensures Inv(Apply(s, RemoveId(i)))
  {
    var p := s.processes[i];
    var p' := p.(worker := Free, closed := !p.worker.panicked);
    TableRemoveId(s.processes, s.table, i, p');
    RemoveKept(s, i, p', RemoveIdSpec(s.table, p.id));
  }

  lemma ShutdownStopKept(s: System, id: nat)
    requires Inv(s) && Enabled(s, ShutdownStop(id))
    ensures Inv(Apply(s, ShutdownStop(id)))
  {
    var i := s.table.ids[id];
    var p, q := s.processes[i], StopProcessSpec(s.processes[i]);
    assert ProcessOk(q) && q.closing && q.id == p.id && q.name == p.name
        && InIds(q) == InIds(p) && InNames(q) == InNames(p) by {
      ProcessKept(p);
      StoppedClosing(p);
    }
    PutKept(s, i, q);
    ClosingOne(s.processes, s.table.ids, i, q, id, s.shutdown.todo);
  }

  lemma ClosingOne(processes: seq<Process>, ids: map<nat, nat>, i: nat, q: Process, id: nat, todo: set<nat>)
    requires i < |processes| && q.closing && id in ids && ids[id] == i && AllClosing(processes, ids, todo)
    ensures AllClosing(processes[i := q], ids, todo - {id})
  {
  }

  lemma PushEndActionKept(s: System, i: nat, k: nat, full: bool)
    requires Inv(s) && Enabled(s, PushEnd(i, k, full))
    ensures Inv(Apply(s, PushEnd(i, k, full)))
  {
    PushEndKept(s.processes[i], k, full);
    PutKept(s, i, PushEndSpec(s.processes[i], k, full));
  }

  lemma HandleActionKept(s: System, i: nat)
    requires Inv(s) && Enabled(s, Handle(i))
    ensures Inv(Apply(s, Handle(i)))
  {
    HandleKept(s.processes[i]);
    PutKept(s, i, HandleSpec(s.processes[i]));
  }

  lemma EndDestroyKept(s: System, i: nat, panicked: bool)
    requires Inv(s) && Enabled(s, EndDestroy(i, panicked))
    ensures Inv(Apply(s, EndDestroy(i, panicked)))
  {
    var p := s.processes[i];
    ProcessKept(p);
    PutKept(s, i, p.(worker := RemovingName(panicked), destroysEnded := p.destroysEnded + 1));
  }

  lemma StopActionKept(s: System, i: nat)
    requires Inv(s) && Enabled(s, Stop(i))
    ensures Inv(Apply(s, Stop(i)))
  {
    var p, q := s.processes[i], StopProcessSpec(s.processes[i]);
    assert ProcessOk(q) && q.closing && q.id == p.id && q.name == p.name
        && InIds(q) == InIds(p) && InNames(q) == InNames(p) by {
      ProcessKept(p);
      StoppedClosing(p);
    }
    PutKept(s, i, q);
  }

  lemma PushBeginActionKept(s: System, i: nat, e: Envelope)
    requires Inv(s) && Enabled(s, PushBegin(i, e))
    ensures Inv(Apply(s, PushBegin(i, e)))
  {
    ProcessKept(s.processes[i]);
    PutKept(s, i, PushBeginSpec(s.processes[i], e));
  }

  lemma InvKept(s: System, a: Action)
    requires Inv(s) && Enabled(s, a)
    ensures Inv(Apply(s, a))
  {
    match a
    case SpawnEnd(k, id) => SpawnEndKept(s, k, id);
    case RemoveName(i) => RemoveNameKept(s, i);
    case RemoveId(i) => RemoveIdKept(s, i);
    case ShutdownStop(id) => ShutdownStopKept(s, id);
    case ShutdownDone => assert s.table.ids == map[];
    case SpawnBegin(_) =>
    case SpawnWithoutHandler(_) =>
    case ShutdownBegin =>
    case ShutdownWait =>
    case ShutdownTimeout =>
    case PushBegin(i, e) => PushBeginActionKept(s, i, e);
    case PushEnd(i, k, full) => PushEndActionKept(s, i, k, full);
    case Stop(i) => StopActionKept(s, i);
    case Handle(i) => HandleActionKept(s, i);
    case EndDestroy(i, panicked) => EndDestroyKept(s, i, panicked);
  }

  lemma {:induction false} InvRun(schedule: seq<Action>)
    ensures Inv(Run(Begin(), schedule))
  {
    if schedule != [] {
      InvRun(schedule[..|schedule| - 1]);
      var s := Run(Begin(), schedule[..|schedule| - 1]);
      if Enabled(s, schedule[|schedule| - 1]) {
        InvKept(s, schedule[|schedule| - 1]);
      }
    }
  }

  // ---- Results, for every schedule ----

  /** A process handles Init, then exactly the accepted pushes in queue order, then its
      stop mark; Destroy begins when that is handled and not a second time. */
  lemma HandledInOrder(schedule: seq<Action>, i: nat)
    requires i < |Run(Begin(), schedule).processes|
    ensures var p := Run(Begin(), schedule).processes[i];
      && p.handled <= [Init] + p.accepted + [StopMark]
      && (forall k :: 0 <= k < |p.accepted| ==> p.accepted[k].Work?)
      && (if StopMark in p.handled then p.handled == [Init] + p.accepted + [StopMark] && p.destroysBegun == 1
          else p.destroysBegun == 0)
      && p.destroysEnded <= p.destroysBegun
  {
    InvRun(schedule);
    var p := Run(Begin(), schedule).processes[i];
    assert ProcessOk(p);
    StoppedClosing(p);
    var all := [Init] + p.accepted + (if p.closing then [StopMark] else []);
    assert p.handled <= all <= [Init] + p.accepted + [StopMark];
    if StopMark in p.handled {
      var j :| 0 <= j < |p.handled| && p.handled[j] == StopMark;
      assert all[j] == StopMark && j == |p.accepted| + 1;
    }
  }

  /** What no action undoes: logs only grow, and stop growing when the process closes or
      handles its stop mark. */
  predicate Continues(p: Process, p': Process) {
    && p'.id == p.id
    && p.handled <= p'.handled
    && p.accepted <= p'.accepted
    && (p.closing ==> p'.closing && p'.accepted == p.accepted)
    && (Stopped(p) ==> p'.handled == p.handled)
  }

  predicate Extends(s: System, s': System) {
    && |s.processes| <= |s'.processes|
    && (forall i :: 0 <= i < |s.processes| ==> Continues(s.processes[i], s'.processes[i]))
    && (s.shutdown != NotStopped ==> s'.shutdown != NotStopped && |s'.processes| == |s.processes|)
    && (s.shutdown == ReturnedNil ==> s'.shutdown == ReturnedNil)
  }

  lemma SectionsContinue(p: Process)
    requires ProcessOk(p)
    ensures forall e :: Continues(p, PushBeginSpec(p, e))
    ensures forall k, full :: 0 <= k < |p.pushing| ==> Continues(p, PushEndSpec(p, k, full))
    ensures Continues(p, StopProcessSpec(p))
    ensures p.queue != [] ==> Continues(p, HandleSpec(p))
    ensures forall w, n, c :: Continues(p, p.(worker := w, destroysEnded := n, closed := c))
  {
  }

  lemma PutExtends(s: System, i: nat, p: Process)
    requires i < |s.processes| && Continues(s.processes[i], p)
    ensures Extends(s, Put(s, i, p))
  {
  }

  lemma MessageExtends(s: System, a: Action)
    requires Enabled(s, a) && (a.PushBegin? || a.PushEnd? || a.Stop? || a.Handle?) && ProcessOk(s.processes[a.i])
    ensures Extends(s, Apply(s, a))
  {
    SectionsContinue(s.processes[a.i]);
    PutExtends(s, a.i, Apply(s, a).processes[a.i]);
  }

  lemma RemovalExtends(s: System, a: Action)
    requires Enabled(s, a) && (a.EndDestroy? || a.RemoveName? || a.RemoveId?)
    ensures Extends(s, Apply(s, a))
  {
    PutExtends(s, a.i, Apply(s, a).processes[a.i]);
  }

  lemma ShutdownStopExtends(s: System, id: nat)
    requires Enabled(s, ShutdownStop(id)) && ProcessOk(s.processes[s.table.ids[id]])
    ensures Extends(s, Apply(s, ShutdownStop(id)))
  {
    var i := s.table.ids[id];
    SectionsContinue(s.processes[i]);
    PutExtends(s, i, StopProcessSpec(s.processes[i]));
  }

  lemma SystemExtends(s: System, a: Action)
    requires Enabled(s, a) && (s.spawning != [] ==> s.shutdown == NotStopped)
    requires a.SpawnBegin? || a.SpawnEnd? || a.SpawnWithoutHandler?
          || a.ShutdownBegin? || a.ShutdownWait? || a.ShutdownDone? || a.ShutdownTimeout?
    ensures Extends(s, Apply(s, a))
  {
  }

  lemma ActionExtends(s: System, a: Action)
    requires Inv(s) && Enabled(s, a)
    ensures Extends(s, Apply(s, a))
  {
    if a.PushBegin? || a.PushEnd? || a.Stop? || a.Handle? {
      MessageExtends(s, a);
    } else if a.EndDestroy? || a.RemoveName? || a.RemoveId? {
      RemovalExtends(s, a);
    } else if a.ShutdownStop? {
      ShutdownStopExtends(s, a.id);
    } else {
      SystemExtends(s, a);
    }
  }

  lemma OneMoreExtends(schedule: seq<Action>, a: Action)
    ensures Extends(Run(Begin(), schedule), Run(Begin(), schedule + [a]))
  {
    var s := Run(Begin(), schedule);
    assert (schedule + [a])[..|schedule|] == schedule;
    if Enabled(s, a) {
      assert Inv(s) by {
        InvRun(schedule);
      }
      ActionExtends(s, a);
    }
  }

  lemma {:induction false} RunExtends(schedule: seq<Action>, more: seq<Action>)
    ensures Extends(Run(Begin(), schedule), Run(Begin(), schedule + more))
  {
    if more == [] {
      assert schedule + more == schedule;
    } else {
      var before, last := more[..|more| - 1], more[|more| - 1];
      assert schedule + more == (schedule + before) + [last];
      RunExtends(schedule, before);
      OneMoreExtends(schedule + before, last);
      ExtendsTransitive(Run(Begin(), schedule), Run(Begin(), schedule + before), Run(Begin(), schedule + more));
    }
  }

  lemma ExtendsTransitive(s: System, s': System, s'': System)
    requires Extends(s, s') && Extends(s', s'')
    ensures Extends(s, s'')
  {
  }

  /** Once Destroy has begun the process never handles or accepts anything again. */
  lemma NothingAfterDestroy(schedule: seq<Action>, more: seq<Action>, i: nat)
    requires i < |Run(Begin(), schedule).processes| && Run(Begin(), schedule).processes[i].destroysBegun > 0
    ensures var s, s' := Run(Begin(), schedule), Run(Begin(), schedule + more);
      && i < |s'.processes|
      && s'.processes[i].handled == s.processes[i].handled
      && s'.processes[i].accepted == s.processes[i].accepted
      && s'.processes[i].destroysBegun == 1
  {
    InvRun(schedule);
    InvRun(schedule + more);
    RunExtends(schedule, more);
    assert ProcessOk(Run(Begin(), schedule).processes[i]);
    StoppedClosing(Run(Begin(), schedule).processes[i]);
  }

  /** When System.Stop returns nil the Destroy of every actor ever spawned has ended, the
      registry is empty, and no later spawn succeeds. */
  lemma StopBarrier(schedule: seq<Action>, more: seq<Action>)
    requires Run(Begin(), schedule).shutdown == ReturnedNil
    ensures var s, s' := Run(Begin(), schedule), Run(Begin(), schedule + more);
      && (forall i :: 0 <= i < |s.processes| ==> s.processes[i].destroysBegun == 1 && s.processes[i].destroysEnded == 1)
      && |s'.processes| == |s.processes|
      && s'.table.ids == map[]
  {
    InvRun(schedule);
    InvRun(schedule + more);
    RunExtends(schedule, more);
    var s := Run(Begin(), schedule);
    forall i | 0 <= i < |s.processes|
      ensures s.processes[i].destroysBegun == 1 && s.processes[i].destroysEnded == 1
    {
      assert ProcessOk(s.processes[i]);
    }
  }

  /** The wait group counts the registered ids, and a named process that is still
      registered under its name is found by id too, as the same process. */
  lemma RegistryAgrees(schedule: seq<Action>, name: string)
    ensures var t := Run(Begin(), schedule).table;
      && t.waiting == |t.ids|
      && (name in t.names ==>
            var i := t.names[name];
            && i < |Run(Begin(), schedule).processes|
            && FindSpec(t, Pid(Run(Begin(), schedule).processes[i].id, "", "node"), "node") == Ok(i)
            && FindSpec(t, Pid(0, name, "node"), "node") == Ok(i))
  {
    InvRun(schedule);
  }
}
