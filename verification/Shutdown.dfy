/** What the lifecycle's calls come to, and that a shutdown ends: without new pushes and spawns
    only so many sections are left, in whatever order they are taken, and when none is, every
    actor has been destroyed and System.Stop has returned. */
module Shutdown {
  import opened Wrappers
  import opened Counting
  import opened Maps
  import opened Registry
  import opened Lifecycle

  // ---- Spawn and push ----

  /** A spawn that got through is registered exactly if its name is not taken: found by its
      id, and by its name if it has one, with Init as its first message. */
  lemma SpawnDecides(s: System, k: nat, id: nat)
    requires k < |s.spawning| && id > 0 && forall i :: 0 <= i < |s.processes| ==> s.processes[i].id != id
    requires id !in s.table.ids && s.spawning[k] != ""
    ensures Enabled(s, SpawnEnd(k, id))
    ensures var n, name, node := Apply(s, SpawnEnd(k, id)), s.spawning[k], "node";
      && n.spawning == s.spawning[..k] + s.spawning[k + 1..] && n.shutdown == s.shutdown
      && (if name in s.table.names then n.table == s.table && n.processes == s.processes
          else
            && n.processes == s.processes + [Process(id, name, false, false, [], [Init], Free, [], [], 0, 0)]
            && FindSpec(n.table, Pid(id, "", node), node) == Ok(|s.processes|)
            && FindSpec(n.table, Pid(0, name, node), node) == Ok(|s.processes|)
            && n.table.waiting == s.table.waiting + 1)
  {
  }

  lemma UnnamedSpawn(s: System, k: nat, id: nat)
    requires k < |s.spawning| && id > 0 && forall i :: 0 <= i < |s.processes| ==> s.processes[i].id != id
    requires s.spawning[k] == "" && "" !in s.table.names
    ensures Enabled(s, SpawnEnd(k, id))
    ensures var n := Apply(s, SpawnEnd(k, id));
      && n.processes == s.processes + [Process(id, "", false, false, [], [Init], Free, [], [], 0, 0)]
      && n.table == s.table.(ids := s.table.ids[id := |s.processes|], waiting := s.table.waiting + 1)
  {
  }

  /** A spawn gets through exactly before the shutdown. */
  lemma SpawnBegins(s: System, name: string)
    ensures s.shutdown == NotStopped ==>
      Enabled(s, SpawnBegin(name)) && Apply(s, SpawnBegin(name)) == s.(spawning := s.spawning + [name])
    ensures s.shutdown != NotStopped ==> !Enabled(s, SpawnBegin(name)) || Apply(s, SpawnBegin(name)) == s
  {
  }

  /** Without a handler the spawn ends with nothing. */
  lemma NoHandler(s: System, k: nat)
    requires k < |s.spawning|
    ensures Enabled(s, SpawnWithoutHandler(k))
    ensures Apply(s, SpawnWithoutHandler(k)) == s.(spawning := s.spawning[..k] + s.spawning[k + 1..])
  {
  }

  /** A push on a process that is not closing is accepted unless it is a user's and the mailbox
      is full, and on one that is closing it is refused. */
  lemma PushDecides(s: System, i: nat, e: Envelope, full: bool)
    requires i < |s.processes| && e.Work?
    ensures Enabled(s, PushBegin(i, e))
    ensures var p, begun := s.processes[i], Apply(s, PushBegin(i, e));
      if p.closing then begun == s
      else
        && (Enabled(begun, PushEnd(i, |p.pushing|, full)) <==> !full || e.user)
        && (!full || e.user ==>
              Apply(begun, PushEnd(i, |p.pushing|, full)) ==
                if full then s
                else s.(processes := s.processes[i := p.(queue := p.queue + [e], accepted := p.accepted + [e])]))
  {
    var p, begun := s.processes[i], Apply(s, PushBegin(i, e));
    if !p.closing {
      assert (p.pushing + [e])[..|p.pushing|] + (p.pushing + [e])[|p.pushing| + 1..] == p.pushing;
      assert s.processes[i := p] == s.processes;
      if !full || e.user {
        var n := Apply(begun, PushEnd(i, |p.pushing|, full));
        assert n.processes == s.processes[i := n.processes[i]];
      }
    }
  }

  /** The first Stop closes a process and puts its stop mark last; later ones do nothing. */
  lemma StopDecides(s: System, i: nat)
    requires i < |s.processes| && s.processes[i].pushing == []
    ensures Enabled(s, Stop(i))
    ensures var p, n := s.processes[i], Apply(s, Stop(i));
      n == if p.closing then s
           else s.(processes := s.processes[i := p.(closing := true, queue := p.queue + [StopMark])])
  {
    assert s.processes[i := s.processes[i]] == s.processes;
  }

  /** What the worker of process i can do next, if anything. */
  function NextOf(s: System, i: nat, panicked: bool): Option<Action>
    requires i < |s.processes|
  {
    match s.processes[i].worker
    case Free => if s.processes[i].queue == [] then None else Some(Handle(i))
    case Destroying => Some(EndDestroy(i, panicked))
    case RemovingName(_) => if s.shutdown.Looping? then None else Some(RemoveName(i))
    case RemovingId(_) => if s.shutdown.Looping? then None else Some(RemoveId(i))
  }

  /** A worker takes one step at a time: it handles a message only between others, ends
      Destroy before it removes the name, and removes the id last; and the removals wait
      for a shutdown that is still calling Stop. */
  lemma WorkerDecides(s: System, i: nat, a: Action, panicked: bool)
    requires i < |s.processes| && (a.EndDestroy? ==> a.panicked == panicked)
    requires (a.Handle? || a.EndDestroy? || a.RemoveName? || a.RemoveId?) && a.i == i
    ensures Enabled(s, a) <==> NextOf(s, i, panicked) == Some(a)
  {
  }

  /** The end of a process: the handling of its stop mark, Destroy, and the two removals. */
  lemma DestroyAlone(s: System, i: nat, panicked: bool)
    requires i < |s.processes| && s.processes[i].worker.Free? && !s.shutdown.Looping?
    requires s.processes[i].queue != [] && s.processes[i].queue[0].StopMark? && s.processes[i].id > 0
    ensures Enabled(s, Handle(i))
    ensures var destroying := Apply(s, Handle(i));
      && Enabled(destroying, EndDestroy(i, panicked))
      && var ended := Apply(destroying, EndDestroy(i, panicked));
      && Enabled(ended, RemoveName(i))
      && var unnamed := Apply(ended, RemoveName(i));
      && Enabled(unnamed, RemoveId(i))
      && var p, n := s.processes[i], Apply(unnamed, RemoveId(i));
      && n.processes[i] == p.(queue := p.queue[1..], handled := p.handled + [StopMark], closed := !panicked,
           destroysBegun := p.destroysBegun + 1, destroysEnded := p.destroysEnded + 1)
      && n.table.ids == s.table.ids - {p.id}
      && n.table.names == (if p.name == "" then s.table.names else s.table.names - {p.name})
      && n.table.waiting == s.table.waiting - (if p.id in s.table.ids then 1 else 0)
      && n.shutdown == s.shutdown && n.spawning == s.spawning
  {
  }

  /** System.Stop begins once no spawn is under way, with every registered process still to
      be stopped; it can time out only while it waits, and changes nothing then. */
  lemma ShutdownDecides(s: System)
    ensures Enabled(s, ShutdownBegin) <==> s.shutdown == NotStopped && s.spawning == []
    ensures Enabled(s, ShutdownBegin) ==> Apply(s, ShutdownBegin) == s.(shutdown := Looping(s.table.ids.Keys))
    ensures Enabled(s, ShutdownTimeout) <==> s.shutdown == Waiting
    ensures Enabled(s, ShutdownTimeout) ==> Apply(s, ShutdownTimeout) == s.(shutdown := ReturnedTimeout)
    ensures Enabled(s, ShutdownDone) <==> s.shutdown == Waiting && s.table.waiting == 0
    ensures Enabled(s, ShutdownWait) <==> s.shutdown == Looping({})
  {
  }

  // ---- How much is left to do ----

  function Rest(e: Envelope): nat { if e.StopMark? then 5 else 1 }

  function WorkerRest(w: Worker): nat {
    match w
    case Free => 0
    case Destroying => 3
    case RemovingName(_) => 2
    case RemovingId(_) => 1
  }

  function ProcessRest(p: Process): nat {
    (if p.closing then 0 else 6) + 2 * |p.pushing| + Sum(p.queue, Rest) + WorkerRest(p.worker)
  }

  function ShutdownRest(s: System): nat {
    match s.shutdown
    case NotStopped => 3 + |s.table.ids|
    case Looping(todo) => 2 + |todo|
    case Waiting => 1
    case ReturnedNil => 0
    case ReturnedTimeout => 0
  }

  function Left(s: System): nat { Sum(s.processes, ProcessRest) + 9 * |s.spawning| + ShutdownRest(s) }

  /** A section of what is under way, and not a new push or spawn or the timeout. */
  predicate Inner(a: Action) { !a.PushBegin? && !a.SpawnBegin? && !a.ShutdownTimeout? }

  predicate Moves(s: System, a: Action) { Inner(a) && Enabled(s, a) && Apply(s, a) != s }

  predicate MovesOnly(s: System, steps: seq<Action>)
    decreases |steps|
  {
    steps == [] || (Moves(s, steps[0]) && MovesOnly(Apply(s, steps[0]), steps[1..]))
  }

  function After(s: System, steps: seq<Action>): System
    requires MovesOnly(s, steps)
    decreases |steps|
  {
    if steps == [] then s else After(Apply(s, steps[0]), steps[1..])
  }

  lemma PushEndLess(p: Process, k: nat, full: bool)
    requires ProcessOk(p) && k < |p.pushing|
    ensures ProcessRest(PushEndSpec(p, k, full)) < ProcessRest(p)
  {
    SumAppend(p.queue, p.pushing[k], Rest);
  }

  lemma StopLess(p: Process)
    requires ProcessOk(p)
    ensures p.closing || ProcessRest(StopProcessSpec(p)) < ProcessRest(p)
    ensures ProcessRest(StopProcessSpec(p)) <= ProcessRest(p)
  {
    SumAppend(p.queue, StopMark, Rest);
  }

  lemma HandleLess(p: Process)
    requires ProcessOk(p) && p.queue != [] && p.worker.Free?
    ensures ProcessRest(HandleSpec(p)) < ProcessRest(p)
  {
    SumTail(p.queue, Rest);
  }

  /** One process has less to do, and the rest of the system no more. */
  lemma ProcessLess(s: System, n: System, i: nat, p: Process)
    requires i < |s.processes| && n.processes == s.processes[i := p] && n.spawning == s.spawning
    requires ProcessRest(p) <= ProcessRest(s.processes[i]) && ShutdownRest(n) <= ShutdownRest(s)
    ensures ProcessRest(p) < ProcessRest(s.processes[i]) || ShutdownRest(n) < ShutdownRest(s) ==> Left(n) < Left(s)
  {
    SumUpdate(s.processes, i, p, ProcessRest);
  }

  lemma MessageLess(s: System, a: Action)
    requires Enabled(s, a) && Apply(s, a) != s && (a.PushEnd? || a.Stop? || a.Handle?) && ProcessOk(s.processes[a.i])
    ensures Left(Apply(s, a)) < Left(s)
  {
    var p, n := s.processes[a.i], Apply(s, a);
    if a.PushEnd? {
      PushEndLess(p, a.k, a.full);
    } else if a.Stop? {
      StopLess(p);
      assert s.processes[a.i := p] == s.processes;
    } else {
      HandleLess(p);
    }
    ProcessLess(s, n, a.i, n.processes[a.i]);
  }

  lemma RemovalLess(s: System, a: Action)
    requires Enabled(s, a) && (a.EndDestroy? || a.RemoveName? || a.RemoveId?)
    ensures Left(Apply(s, a)) < Left(s)
  {
    var n := Apply(s, a);
    if a.RemoveId? {
      SizeDrop(s.table.ids, s.processes[a.i].id);
    }
    ProcessLess(s, n, a.i, n.processes[a.i]);
  }

  lemma SpawnLess(s: System, k: nat, id: nat)
    requires Enabled(s, SpawnEnd(k, id)) && s.shutdown == NotStopped
    ensures Left(Apply(s, SpawnEnd(k, id))) < Left(s)
  {
    var p := NewProcess(id, s.spawning[k]);
    SumAppend(s.processes, p, ProcessRest);
    assert p.queue[..0] == [] && Sum(p.queue, Rest) == 1;
    SizePut(s.table.ids, id, |s.processes|);
  }

  lemma ShutdownStopLess(s: System, id: nat)
    requires Enabled(s, ShutdownStop(id)) && ProcessOk(s.processes[s.table.ids[id]])
    ensures Left(Apply(s, ShutdownStop(id))) < Left(s)
  {
    var i := s.table.ids[id];
    StopLess(s.processes[i]);
    ProcessLess(s, Apply(s, ShutdownStop(id)), i, StopProcessSpec(s.processes[i]));
  }

  lemma PhaseLess(s: System, a: Action)
    requires Enabled(s, a) && (a.SpawnWithoutHandler? || a.ShutdownBegin? || a.ShutdownWait? || a.ShutdownDone?)
    ensures Left(Apply(s, a)) < Left(s)
  {
    SizeOfKeys(s.table.ids);
  }

  /** Each section that changes anything leaves less to do. */
  lemma MoveLess(s: System, a: Action)
    requires Inv(s) && Moves(s, a)
    ensures Left(Apply(s, a)) < Left(s)
  {
    if a.PushEnd? || a.Stop? || a.Handle? {
      MessageLess(s, a);
    } else if a.EndDestroy? || a.RemoveName? || a.RemoveId? {
      RemovalLess(s, a);
    } else if a.SpawnEnd? {
      SpawnLess(s, a.k, a.id);
    } else if a.ShutdownStop? {
      ShutdownStopLess(s, a.id);
    } else {
      PhaseLess(s, a);
    }
  }

  /** The call of System.Stop is never undone, and only the timeout ends it as timed out. */
  lemma CalledStays(s: System, a: Action)
    requires Enabled(s, a) && Inner(a)
    ensures s.shutdown != NotStopped ==> Apply(s, a).shutdown != NotStopped
    ensures Apply(s, a).shutdown == ReturnedTimeout <==> s.shutdown == ReturnedTimeout
  {
  }

  lemma {:induction false} MovesBounded(s: System, steps: seq<Action>)
    requires Inv(s) && MovesOnly(s, steps)
    ensures Inv(After(s, steps)) && |steps| + Left(After(s, steps)) <= Left(s)
    ensures s.shutdown != NotStopped ==> After(s, steps).shutdown != NotStopped
    ensures After(s, steps).shutdown == ReturnedTimeout <==> s.shutdown == ReturnedTimeout
    decreases |steps|
  {
    if steps != [] {
      InvKept(s, steps[0]);
      MoveLess(s, steps[0]);
      CalledStays(s, steps[0]);
      MovesBounded(Apply(s, steps[0]), steps[1..]);
    }
  }

  // ---- Where nothing moves ----

  /** Nothing moves but what a new call of Stop on some process would. */
  ghost predicate Still(s: System) { forall a :: Moves(s, a) ==> a.Stop? }

  lemma PushMoves(s: System, i: nat)
    requires Inv(s) && i < |s.processes| && s.processes[i].pushing != []
    ensures Moves(s, PushEnd(i, 0, false))
  {
    assert ProcessOk(s.processes[i]);
    PushEndLess(s.processes[i], 0, false);
    assert Apply(s, PushEnd(i, 0, false)).processes[i] == PushEndSpec(s.processes[i], 0, false);
  }

  /** A closing process that is still registered has something left to do. */
  lemma WorkerMoves(s: System, i: nat) returns (a: Action)
    requires Inv(s) && !LoopHoldsTable(s)
    requires i < |s.processes| && s.processes[i].closing && InIds(s.processes[i])
    ensures Moves(s, a) && !a.Stop?
  {
    var p := s.processes[i];
    assert ProcessOk(p);
    match p.worker
    case Destroying =>
      a := EndDestroy(i, false);
      RemovalLess(s, a);
    case RemovingName(_) =>
      a := RemoveName(i);
      RemovalLess(s, a);
    case RemovingId(_) =>
      a := RemoveId(i);
      RemovalLess(s, a);
    case Free =>
      HasQueue(p);
      a := Handle(i);
      HandleLess(p);
      assert Apply(s, a).processes[i] == HandleSpec(p);
  }

  lemma HasQueue(p: Process)
    requires ProcessOk(p) && p.closing && !Stopped(p)
    ensures p.queue != []
  {
    assert p.handled + [] == p.handled;
  }

  lemma LoopMoves(s: System) returns (a: Action)
    requires Inv(s) && s.shutdown.Looping?
    ensures Moves(s, a) && !a.Stop?
  {
    var todo := s.shutdown.todo;
    if todo == {} {
      a := ShutdownWait;
      PhaseLess(s, a);
    } else {
      var id :| id in todo;
      var i := s.table.ids[id];
      if s.processes[i].pushing != [] {
        a := PushEnd(i, 0, false);
        PushMoves(s, i);
      } else {
        a := ShutdownStop(id);
        assert ProcessOk(s.processes[i]);
        ShutdownStopLess(s, id);
      }
    }
  }

  lemma WaitMoves(s: System) returns (a: Action)
    requires Inv(s) && s.shutdown.Waiting?
    ensures Moves(s, a) && !a.Stop?
  {
    if s.table.ids == map[] {
      a := ShutdownDone;
      PhaseLess(s, a);
    } else {
      var id :| id in s.table.ids;
      a := WorkerMoves(s, s.table.ids[id]);
    }
  }

  /** Once System.Stop was called, however the sections under way are scheduled there are only
      so many of them; and when none is left, Stop has returned, with nil unless it timed
      out, and then every actor ever spawned has been destroyed. */
  lemma ShutdownEnds(schedule: seq<Action>, steps: seq<Action>)
    requires var s := Run(Begin(), schedule); s.shutdown != NotStopped && MovesOnly(s, steps)
    ensures var s := Run(Begin(), schedule); var n := After(s, steps);
      && |steps| <= Left(s)
      && (Still(n) ==>
            && (n.shutdown == ReturnedNil || s.shutdown == ReturnedTimeout)
            && (n.shutdown == ReturnedNil ==>
                  n.table.ids == map[] && forall i :: 0 <= i < |n.processes| ==> n.processes[i].destroysEnded == 1))
  {
    var s := Run(Begin(), schedule);
    InvRun(schedule);
    MovesBounded(s, steps);
    var n := After(s, steps);
    if n.shutdown.Looping? {
      var a := LoopMoves(n);
    } else if n.shutdown.Waiting? {
      var a := WaitMoves(n);
    } else if n.shutdown.ReturnedNil? {
      forall i | 0 <= i < |n.processes|
        ensures n.processes[i].destroysEnded == 1
      {
        assert ProcessOk(n.processes[i]);
      }
    }
  }
}
