/** Activating one logical actor: the router of each node, the resolvers of all nodes, and
    the owner entry of the directory. Each action is one directory script or one step of a
    router or of the actor it activated. */
module Activation {
  import opened Wrappers
  import opened Directory

  /** The router, handling a route request: not handling one, found no local actor, won the
      ownership and about to spawn, or failed to spawn and about to give the ownership back. */
  datatype RouterAt = Idle | Missed | Acquired | Failed

  /** The actor's process: not registered, hosting until its Destroy has called
      DeleteOwner, and from there until it is unregistered. */
  datatype ActorAt = Absent | Hosting | Released

  datatype Local = Local(info: NodeInfo, router: RouterAt, actor: ActorAt)

  datatype State = State(
    nodes: map<string, Local>,  // the live node processes, by instance id
    store: Store,
    condemned: set<NodeInfo>,   // owners a resolver has found dead and will delete
    late: seq<NodeInfo>,        // deletes whose call failed and that may still run
    used: set<string>)          // the instance ids handed out so far

  /** What the deployment may or may not guarantee. */
  datatype Deployment = Deployment(
    uniqueNodes: bool,        // no two live processes have the same node id
    currentCandidates: bool,  // no acquire names an old instance of a node id that runs a newer one
    heldLeases: bool,         // a lease does not expire while its owner lives
    accurateLiveness: bool,   // the liveness check fails only for dead owners
    timelyDeletes: bool)      // a delete whose call failed does not run later while its node lives

  const ALL := Deployment(true, true, true, true, true)

  predicate Alive(s: State, n: NodeInfo) {
    n.instance in s.nodes && s.nodes[n.instance].info.nodeId == n.nodeId
  }

  /** Some live process has this node id. */
  predicate Runs(s: State, nodeId: string) {
    exists i :: i in s.nodes && s.nodes[i].info.nodeId == nodeId
  }

  function Begin(): State {
    State(map[], Store(None, 0), {}, [], {})
  }

  datatype Action =
    | Boot(info: NodeInfo)
    | Crash(id: string)
    | LookUp(id: string)
    | AcquireLocally(id: string)
    | Spawn(id: string, ok: bool)
    | Cleanup(id: string, reached: bool)
    | BeginDestroy(id: string, reached: bool)
    | Unregister(id: string)
    | Place(candidate: NodeInfo)  // a resolver's acquire, or one of a node that crashed meanwhile
    | Condemn(n: NodeInfo)
    | DeleteDead(n: NodeInfo)
    | LateDelete(k: nat)
    | ExpireLease

  predicate Enabled(d: Deployment, s: State, a: Action) {
    match a
    case Boot(info) => info.instance !in s.used && (d.uniqueNodes ==> !Runs(s, info.nodeId))
    case Crash(id) => id in s.nodes
    case LookUp(id) => id in s.nodes && s.nodes[id].router.Idle?
    case AcquireLocally(id) => id in s.nodes && s.nodes[id].router.Missed?
    case Spawn(id, _) => id in s.nodes && s.nodes[id].router.Acquired?
    case Cleanup(id, _) => id in s.nodes && s.nodes[id].router.Failed?
    case BeginDestroy(id, _) => id in s.nodes && s.nodes[id].actor.Hosting?
    case Unregister(id) => id in s.nodes && s.nodes[id].actor.Released?
    case Place(c) =>
      && c.instance in s.used
      && (d.currentCandidates && Runs(s, c.nodeId) ==> c.instance in s.nodes && c == s.nodes[c.instance].info)
    case Condemn(n) => n.instance in s.used && (d.accurateLiveness ==> !Alive(s, n))
    case DeleteDead(n) => n in s.condemned
    case LateDelete(k) => k < |s.late| && (d.timelyDeletes ==> !Alive(s, s.late[k]))
    case ExpireLease => d.heldLeases && s.store.owner.Some? ==> !Alive(s, s.store.owner.value)
  }

  function With(s: State, id: string, l: Local): State {
    s.(nodes := s.nodes[id := l])
  }

  /** A call of DeleteOwner: the script runs, or the call fails and it may run later. */
  function Give(s: State, info: NodeInfo, reached: bool): State {
    if reached then s.(store := DeleteScript(s.store, info).0) else s.(late := s.late + [info])
  }

  /** Does nothing unless the action is enabled. */
  function Step(d: Deployment, s: State, a: Action): State {
    if !Enabled(d, s, a) then s
    else
      match a
      case Boot(info) => With(s, info.instance, Local(info, Idle, Absent)).(used := s.used + {info.instance})
      case Crash(id) => s.(nodes := s.nodes - {id})
      case LookUp(id) =>
        var l := s.nodes[id];
        if l.actor.Absent? then With(s, id, l.(router := Missed)) else s
      case AcquireLocally(id) =>
        var l := s.nodes[id];
        var (store, won, _) := AcquireScript(s.store, l.info);
        With(s, id, l.(router := if won then Acquired else Idle)).(store := store)
      case Spawn(id, ok) =>
        var l := s.nodes[id];
        if ok && l.actor.Absent? then With(s, id, l.(router := Idle, actor := Hosting))
        else With(s, id, l.(router := Failed))
      case Cleanup(id, reached) =>
        var l := s.nodes[id];
        Give(With(s, id, l.(router := Idle)), l.info, reached)
      case BeginDestroy(id, reached) =>
        var l := s.nodes[id];
        Give(With(s, id, l.(actor := Released)), l.info, reached)
      case Unregister(id) => With(s, id, s.nodes[id].(actor := Absent))
      case Place(c) => s.(store := AcquireScript(s.store, c).0)
      case Condemn(n) => s.(condemned := s.condemned + {n})
      case DeleteDead(n) => s.(store := DeleteScript(s.store, n).0)
      case LateDelete(k) =>
        s.(store := DeleteScript(s.store, s.late[k]).0, late := s.late[..k] + s.late[k + 1..])
      case ExpireLease => s.(store := s.store.(owner := None))
  }

  function Run(d: Deployment, s: State, schedule: seq<Action>): State {
    if schedule == [] then s else Step(d, Run(d, s, schedule[..|schedule| - 1]), schedule[|schedule| - 1])
  }

  predicate Hosts(s: State, id: string) {
    id in s.nodes && s.nodes[id].actor.Hosting?
  }

  /** At most one process hosts the actor, and it is the directory's owner. */
  ghost predicate Single(s: State) {
    && (forall m, n :: Hosts(s, m) && Hosts(s, n) ==> m == n)
    && (forall n :: Hosts(s, n) ==> s.store.owner == Some(s.nodes[n].info))
  }

  // ---- With all five guarantees ----

  ghost predicate NodesOk(nodes: map<string, Local>, used: set<string>) {
    && (forall i :: i in nodes ==> nodes[i].info.instance == i && i in used)
    && (forall i, j :: i in nodes && j in nodes && nodes[i].info.nodeId == nodes[j].info.nodeId ==> i == j)
  }

  predicate Busy(l: Local) { l.router.Acquired? || l.router.Failed? || l.actor.Hosting? }

  ghost predicate OwnersOk(nodes: map<string, Local>, store: Store) {
    && (forall id :: id in nodes && nodes[id].router != Idle ==> nodes[id].actor.Absent?)
    && (forall id :: id in nodes && Busy(nodes[id]) ==> store.owner == Some(nodes[id].info))
  }

  ghost predicate Inv(s: State) {
    && NodesOk(s.nodes, s.used)
    && OwnersOk(s.nodes, s.store)
    && (forall n :: n in s.condemned ==> n.instance in s.used && !Alive(s, n))
    && (forall k :: 0 <= k < |s.late| ==> s.late[k].instance in s.used)
  }

  lemma ProcessKept(s: State, a: Action)
    requires Inv(s) && (a.Boot? || a.Crash? || a.Condemn?)
    ensures Inv(Step(ALL, s, a))
  {
  }

  /** The record of one process changes, and the store in a way that suits the others. */
  lemma LocalKept(s: State, i: string, l: Local, store: Store, late: seq<NodeInfo>)
    requires Inv(s) && i in s.nodes && l.info == s.nodes[i].info
    requires (l.router != Idle ==> l.actor.Absent?) && (Busy(l) ==> store.owner == Some(l.info))
    requires forall j :: j in s.nodes && j != i && Busy(s.nodes[j]) ==> store.owner == s.store.owner
    requires late == s.late || late == s.late + [l.info]
    ensures Inv(With(s, i, l).(store := store, late := late))
  {
    var n := With(s, i, l).(store := store, late := late);
    assert forall j :: j in n.nodes ==> j in s.nodes && n.nodes[j].info == s.nodes[j].info;
  }

  /** Whoever acquires with no other process of its node id, and finds another process busy,
      does not win. */
  lemma AcquireKept(s: State, i: string)
    requires Inv(s)
    ensures Inv(Step(ALL, s, AcquireLocally(i)))
  {
    if Enabled(ALL, s, AcquireLocally(i)) {
      var l := s.nodes[i];
      var (store, won, _) := AcquireScript(s.store, l.info);
      LocalKept(s, i, l.(router := if won then Acquired else Idle), store, s.late);
    }
  }

  lemma RouterKept(s: State, a: Action)
    requires Inv(s) && (a.LookUp? || a.Spawn? || a.Unregister?)
    ensures Inv(Step(ALL, s, a))
  {
    if Enabled(ALL, s, a) {
      var n := Step(ALL, s, a);
      LocalKept(s, a.id, n.nodes[a.id], s.store, s.late);
      assert n == With(s, a.id, n.nodes[a.id]).(store := s.store, late := s.late) || n == s;
    }
  }

  lemma GiveUpKept(s: State, a: Action)
    requires Inv(s) && (a.Cleanup? || a.BeginDestroy?)
    ensures Inv(Step(ALL, s, a))
  {
    if Enabled(ALL, s, a) {
      var l, n := s.nodes[a.id], Step(ALL, s, a);
      assert Busy(l) && s.store.owner == Some(l.info);
      OnlyBusy(s, a.id);
      LocalKept(s, a.id, n.nodes[a.id], n.store, n.late);
    }
  }

  /** At most one process is busy. */
  lemma OnlyBusy(s: State, i: string)
    requires Inv(s) && i in s.nodes && Busy(s.nodes[i])
    ensures forall j :: j in s.nodes && Busy(s.nodes[j]) ==> j == i
  {
  }

  lemma DirectoryKept(s: State, a: Action)
    requires Inv(s) && (a.Place? || a.DeleteDead? || a.LateDelete? || a.ExpireLease?)
    ensures Inv(Step(ALL, s, a))
  {
  }

  lemma InvKept(s: State, a: Action)
    requires Inv(s)
    ensures Inv(Step(ALL, s, a))
  {
    if a.Boot? || a.Crash? || a.Condemn? {
      ProcessKept(s, a);
    } else if a.AcquireLocally? {
      AcquireKept(s, a.id);
    } else if a.LookUp? || a.Spawn? || a.Unregister? {
      RouterKept(s, a);
    } else if a.Cleanup? || a.BeginDestroy? {
      GiveUpKept(s, a);
    } else {
      DirectoryKept(s, a);
    }
  }

  lemma {:induction false} InvRun(schedule: seq<Action>)
    ensures Inv(Run(ALL, Begin(), schedule))
  {
    if schedule != [] {
      InvRun(schedule[..|schedule| - 1]);
      InvKept(Run(ALL, Begin(), schedule[..|schedule| - 1]), schedule[|schedule| - 1]);
    }
  }

  // ---- Without one of them ----

  lemma {:induction false} Do(d: Deployment, schedule: seq<Action>, a: Action) returns (longer: seq<Action>)
    ensures Run(d, Begin(), longer) == Step(d, Run(d, Begin(), schedule), a)
  {
    longer := schedule + [a];
    assert longer[..|longer| - 1] == schedule;
  }

  /** A process that finds no owner, or one with its own node id, ends up hosting. */
  lemma Hosted(d: Deployment, schedule: seq<Action>, i: string) returns (longer: seq<Action>)
    requires var s := Run(d, Begin(), schedule);
      && i in s.nodes && s.nodes[i].router.Idle? && s.nodes[i].actor.Absent?
      && (s.store.owner.Some? ==> s.store.owner.value.nodeId == s.nodes[i].info.nodeId)
    ensures var s := Run(d, Begin(), schedule);
      Run(d, Begin(), longer) == s.(
        nodes := s.nodes[i := s.nodes[i].(actor := Hosting)],
        store := Store(Some(s.nodes[i].info), s.store.epoch + 1))
  {
    longer := Do(d, schedule, LookUp(i));
    longer := Do(d, longer, AcquireLocally(i));
    longer := Do(d, longer, Spawn(i, true));
    var s, t := Run(d, Begin(), schedule), Run(d, Begin(), longer);
    assert t.nodes == s.nodes[i := s.nodes[i].(actor := Hosting)];
  }

  /** So does a process that boots, where nobody owns the actor, or its node id does. */
  lemma BootedHosts(d: Deployment, schedule: seq<Action>, info: NodeInfo) returns (longer: seq<Action>)
    requires var s := Run(d, Begin(), schedule);
      && info.instance !in s.used && info.instance !in s.nodes && (d.uniqueNodes ==> !Runs(s, info.nodeId))
      && (s.store.owner.Some? ==> s.store.owner.value.nodeId == info.nodeId)
    ensures var s := Run(d, Begin(), schedule);
      Run(d, Begin(), longer) == s.(
        nodes := s.nodes[info.instance := Local(info, Idle, Hosting)],
        store := Store(Some(info), s.store.epoch + 1), used := s.used + {info.instance})
  {
    longer := Do(d, schedule, Boot(info));
    longer := Hosted(d, longer, info.instance);
    var s, t := Run(d, Begin(), schedule), Run(d, Begin(), longer);
    assert t.nodes == s.nodes[info.instance := Local(info, Idle, Hosting)];
  }

  /** A process that finds another node's owner leaves it alone, and one that hosts already
      acquires nothing. */
  lemma Declines(d: Deployment, s: State, i: string)
    requires i in s.nodes && s.nodes[i].router.Idle?
    ensures !s.nodes[i].actor.Absent? ==> Step(d, s, LookUp(i)) == s
    ensures s.nodes[i].actor.Absent? && s.store.owner.Some? && s.store.owner.value.nodeId != s.nodes[i].info.nodeId ==>
      Step(d, Step(d, s, LookUp(i)), AcquireLocally(i)) == s
  {
    if s.nodes[i].actor.Absent? {
      assert s.nodes[i := s.nodes[i].(router := Missed)][i := s.nodes[i]] == s.nodes;
    }
  }

  /** A router handles one request at a time, and a spawn that fails leaves the ownership for
      it to give back. */
  lemma RouterDecides(d: Deployment, s: State, i: string)
    requires i in s.nodes
    ensures !s.nodes[i].router.Idle? ==> Step(d, s, LookUp(i)) == s
    ensures s.nodes[i].router.Acquired? ==>
      Step(d, s, Spawn(i, false)) == s.(nodes := s.nodes[i := s.nodes[i].(router := Failed)])
    ensures s.nodes[i].router.Acquired? && !s.nodes[i].actor.Absent? ==>
      Step(d, s, Spawn(i, true)) == Step(d, s, Spawn(i, false))
  {
  }

  /** A process that hosts goes on until it crashes or begins to destroy the actor. */
  lemma HostingEnds(d: Deployment, s: State, a: Action, i: string)
    requires Hosts(s, i) && !Hosts(Step(d, s, a), i) && i in s.used
    ensures a == Crash(i) || (a.BeginDestroy? && a.id == i)
  {
  }

  /** A call of DeleteOwner that failed is not lost but may still run, once. */
  lemma LateDecides(d: Deployment, s: State, i: string, k: nat)
    requires i in s.nodes
    ensures s.nodes[i].actor.Hosting? ==>
      var t := Step(d, s, BeginDestroy(i, false)); t.store == s.store && t.late == s.late + [s.nodes[i].info]
    ensures s.nodes[i].router.Failed? ==>
      var t := Step(d, s, Cleanup(i, false)); t.store == s.store && t.late == s.late + [s.nodes[i].info]
    ensures k < |s.late| && (d.timelyDeletes ==> !Alive(s, s.late[k])) ==>
      Step(d, s, LateDelete(k)) ==
        s.(store := if Matches(s.store, s.late[k]) then Store(None, s.store.epoch + 1) else s.store,
           late := s.late[..k] + s.late[k + 1..])
  {
  }

  /** A resolver's acquire stores its candidate exactly where nobody, or its own node id,
      owns the actor. */
  lemma PlaceDecides(d: Deployment, s: State, c: NodeInfo)
    requires c.instance in s.used
    requires (c.instance in s.nodes && c == s.nodes[c.instance].info) || !Runs(s, c.nodeId)
    ensures var t := Step(d, s, Place(c));
      if s.store.owner.None? || s.store.owner.value.nodeId == c.nodeId
      then t == s.(store := Store(Some(c), s.store.epoch + 1))
      else t == s
  {
  }

  /** What a process that owns the actor does until it no longer owns it: it finishes what its
      router is at, and then hosts and destroys, or fails to spawn and gives up. */
  function Yielding(l: Local, id: string): Action {
    match l.router
    case Failed => Cleanup(id, true)
    case Acquired => Spawn(id, false)
    case Missed => AcquireLocally(id)
    case Idle =>
      if l.actor.Hosting? then BeginDestroy(id, true)
      else if l.actor.Released? then Unregister(id)
      else LookUp(id)
  }

  function Rank(l: Local): nat {
    match l.router
    case Failed => 0
    case Acquired => 1
    case Missed => 2
    case Idle => if l.actor.Hosting? then 0 else if l.actor.Released? then 4 else 3
  }

  /** Process i is the live owner, by node id and instance, and j another one that waits. */
  predicate OwnedBy(s: State, i: string, j: string) {
    && i in s.nodes && j in s.nodes && i != j
    && s.store.owner.Some? && Matches(s.store, s.nodes[i].info)
    && s.nodes[j].router.Idle? && s.nodes[j].actor.Absent?
  }

  lemma YieldStep(s: State, i: string, j: string)
    requires OwnedBy(s, i, j)
    requires s.nodes[i].router != Idle ==> s.nodes[i].actor.Absent?
    ensures var t := Step(ALL, s, Yielding(s.nodes[i], i));
      && t.nodes.Keys == s.nodes.Keys && t.nodes[j] == s.nodes[j]
      && (t.store.owner.None? || (OwnedBy(t, i, j) && Rank(t.nodes[i]) < Rank(s.nodes[i])))
  {
  }

  lemma {:induction false} Frees(schedule: seq<Action>, i: string, j: string) returns (longer: seq<Action>)
    requires OwnedBy(Run(ALL, Begin(), schedule), i, j)
    ensures var s, t := Run(ALL, Begin(), schedule), Run(ALL, Begin(), longer);
      j in t.nodes && t.nodes[j] == s.nodes[j] && t.store.owner.None?
    decreases Rank(Run(ALL, Begin(), schedule).nodes[i])
  {
    var s := Run(ALL, Begin(), schedule);
    assert OwnersOk(s.nodes, s.store) by {
      InvRun(schedule);
    }
    YieldStep(s, i, j);
    longer := Do(ALL, schedule, Yielding(s.nodes[i], i));
    if Run(ALL, Begin(), longer).store.owner.Some? {
      longer := Frees(longer, i, j);
    }
  }

  predicate OwnerKnown(s: State) { s.store.owner.Some? ==> s.store.owner.value.instance in s.used }

  lemma OwnerKnownKept(s: State, a: Action)
    requires NodesOk(s.nodes, s.used) && OwnerKnown(s)
    ensures OwnerKnown(Step(ALL, s, a))
  {
    assert s.used <= Step(ALL, s, a).used;
  }

  lemma {:induction false} OwnerKnownRun(schedule: seq<Action>)
    ensures var s := Run(ALL, Begin(), schedule); OwnerKnown(s) && NodesOk(s.nodes, s.used)
  {
    InvRun(schedule);
    if schedule != [] {
      OwnerKnownRun(schedule[..|schedule| - 1]);
      OwnerKnownKept(Run(ALL, Begin(), schedule[..|schedule| - 1]), schedule[|schedule| - 1]);
    }
  }

  /** An owner that is no longer alive is found dead and deleted. */
  lemma Buries(schedule: seq<Action>, j: string) returns (longer: seq<Action>)
    requires var s := Run(ALL, Begin(), schedule);
      s.store.owner.Some? && !Alive(s, s.store.owner.value) && j in s.nodes
    ensures var s, t := Run(ALL, Begin(), schedule), Run(ALL, Begin(), longer);
      t.nodes == s.nodes && t.store == Store(None, s.store.epoch + 1)
  {
    OwnerKnownRun(schedule);
    var n := Run(ALL, Begin(), schedule).store.owner.value;
    longer := Do(ALL, schedule, Condemn(n));
    longer := Do(ALL, longer, DeleteDead(n));
  }

  /** No actor is lost: in every reachable state every live process that is not busy with it
      can still come to host it, whoever owns it now, dead or alive. */
  lemma CanBeHosted(schedule: seq<Action>, j: string) returns (longer: seq<Action>)
    requires var s := Run(ALL, Begin(), schedule);
      j in s.nodes && s.nodes[j].router.Idle? && s.nodes[j].actor.Absent?
    ensures var s, t := Run(ALL, Begin(), schedule), Run(ALL, Begin(), longer);
      Hosts(t, j) && t.store.owner == Some(t.nodes[j].info) && t.nodes[j].info == s.nodes[j].info
  {
    var s := Run(ALL, Begin(), schedule);
    longer := schedule;
    if s.store.owner.Some? && s.store.owner.value.nodeId != s.nodes[j].info.nodeId {
      var n := s.store.owner.value;
      if Alive(s, n) {
        OwnerKnownRun(schedule);
        longer := Frees(schedule, n.instance, j);
      } else {
        longer := Buries(schedule, j);
      }
    }
    longer := Hosted(ALL, longer, j);
  }

  function First(): NodeInfo { NodeInfo("a", "game", "a1") }
  function Second(): NodeInfo { NodeInfo("b", "game", "b1") }
  function Restarted(): NodeInfo { NodeInfo("a", "game", "a2") }

  /** Process i hosts and the directory has no owner; the second node has not booted yet. */
  predicate Unseated(s: State, i: string) {
    Hosts(s, i) && s.store.owner.None? && i != "b1" && "b1" !in s.used && "b1" !in s.nodes && !Runs(s, "b")
  }

  /** A lease expires under its owner. */
  lemma UnseatedByExpiry(d: Deployment) returns (schedule: seq<Action>)
    requires !d.heldLeases
    ensures Unseated(Run(d, Begin(), schedule), "a1")
  {
    schedule := BootedHosts(d, [], First());
    schedule := Do(d, schedule, ExpireLease);
  }

  /** A liveness check fails for a live owner. */
  lemma UnseatedByCondemning(d: Deployment) returns (schedule: seq<Action>)
    requires !d.accurateLiveness
    ensures Unseated(Run(d, Begin(), schedule), "a1")
  {
    schedule := BootedHosts(d, [], First());
    schedule := Do(d, schedule, Condemn(First()));
    schedule := Do(d, schedule, DeleteDead(First()));
  }

  /** The first instance has crashed and the one after it hosts. */
  lemma RestartedHosts(d: Deployment) returns (schedule: seq<Action>)
    ensures Run(d, Begin(), schedule) == State(
      map["a2" := Local(Restarted(), Idle, Hosting)], Store(Some(Restarted()), 1), {}, [], {"a1", "a2"})
  {
    schedule := Do(d, [], Boot(First()));
    schedule := Do(d, schedule, Crash("a1"));
    assert Run(d, Begin(), schedule).nodes == map[];
    schedule := BootedHosts(d, schedule, Restarted());
  }

  /** An acquire names the instance before a restart, and takes the ownership from the one
      after it, since the script compares node ids only; being dead it is then deleted. */
  lemma UnseatedByStaleCandidate(d: Deployment) returns (schedule: seq<Action>)
    requires !d.currentCandidates
    ensures Unseated(Run(d, Begin(), schedule), "a2")
  {
    schedule := RestartedHosts(d);
    schedule := Do(d, schedule, Place(First()));
    schedule := Do(d, schedule, Condemn(First()));
    schedule := Do(d, schedule, DeleteDead(First()));
  }

  /** The delete of an actor's Destroy has failed, and the process is back where it booted. */
  lemma DeleteFails(d: Deployment) returns (schedule: seq<Action>)
    ensures Run(d, Begin(), schedule) == State(
      map["a1" := Local(First(), Idle, Absent)], Store(Some(First()), 1), {}, [First()], {"a1"})
  {
    schedule := BootedHosts(d, [], First());
    schedule := Do(d, schedule, BeginDestroy("a1", false));
    schedule := Do(d, schedule, Unregister("a1"));
    assert Run(d, Begin(), schedule).nodes == map["a1" := Local(First(), Idle, Absent)];
  }

  /** The actor is activated again on the same node, and then the delete runs after all. */
  lemma UnseatedByLateDelete(d: Deployment) returns (schedule: seq<Action>)
    requires !d.timelyDeletes
    ensures Unseated(Run(d, Begin(), schedule), "a1")
  {
    schedule := DeleteFails(d);
    schedule := Hosted(d, schedule, "a1");
    schedule := Do(d, schedule, LateDelete(0));
  }

  lemma Unseating(d: Deployment) returns (schedule: seq<Action>, i: string)
    requires d.uniqueNodes && d != ALL
    ensures Unseated(Run(d, Begin(), schedule), i)
  {
    i := "a1";
    if !d.heldLeases {
      schedule := UnseatedByExpiry(d);
    } else if !d.accurateLiveness {
      schedule := UnseatedByCondemning(d);
    } else if !d.currentCandidates {
      schedule := UnseatedByStaleCandidate(d);
      i := "a2";
    } else {
      schedule := UnseatedByLateDelete(d);
    }
  }

  /** A second process with the host's node id takes the ownership over, and hosts as well. */
  lemma TwinsHost(d: Deployment) returns (schedule: seq<Action>)
    requires !d.uniqueNodes
    ensures !Single(Run(d, Begin(), schedule))
  {
    schedule := BootedHosts(d, [], First());
    schedule := BootedHosts(d, schedule, Restarted());
    var s := Run(d, Begin(), schedule);
    assert Hosts(s, "a1") && Hosts(s, "a2");
  }

  /** Single activation holds in every run exactly when the deployment gives all five
      guarantees: without any one of them some run ends with two processes hosting. */
  lemma SingleActivation(d: Deployment)
    ensures (forall schedule :: Single(Run(d, Begin(), schedule))) <==> d == ALL
  {
    if d == ALL {
      forall schedule
        ensures Single(Run(d, Begin(), schedule))
      {
        InvRun(schedule);
      }
    } else if !d.uniqueNodes {
      var schedule := TwinsHost(d);
      assert !Single(Run(d, Begin(), schedule));
    } else {
      var schedule, i := Unseating(d);
      schedule := BootedHosts(d, schedule, Second());
      var s := Run(d, Begin(), schedule);
      assert Hosts(s, i) && Hosts(s, "b1");
      assert !Single(s);
    }
  }
}
