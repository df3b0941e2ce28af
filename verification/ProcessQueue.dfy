/** One process on its real mailbox: pushes under the read lock, Stop under the write lock,
    and the handler, with the mailbox taken apart into its atomic steps. Module Lifecycle
    has one queue for all of that; here every run of the two together is shown to be one of
    Lifecycle's, where a push takes effect at its swap and a message is handled as the
    worker that popped it invokes the handler. */
module ProcessQueue {
  import opened Wrappers
  import opened Counting
  import M = Mailbox
  import L = Lifecycle

  /** What the messages of each producer carry, fixed for the run and arbitrary. */
  type Payload = M.Msg -> L.Envelope

  datatype Process = Process(
    mail: M.State,
    closing: bool,
    writer: Option<nat>,     // the producer that is in Stop and holds the write lock
    inside: seq<nat>,        // the producers that hold the read lock and have yet to swap
    worker: L.Worker,        // Free, or where the handling of the stop mark is
    closed: bool)

  datatype Action =
    | Push(p: nat, kind: M.Kind)
    | Stop(p: nat)
    | Step(a: M.Action)
    | Invoke(w: nat)
    | EndDestroy(panicked: bool)
    | RemoveName
    | RemoveId(w: nat)

  /** The next message of producer p. */
  function Next(mail: M.State, p: nat, kind: M.Kind): M.Msg
    requires p < |mail.producers|
  {
    M.Msg(p, mail.producers[p].sent, kind)
  }

  predicate Enabled(c: Process, a: Action, payload: Payload) {
    match a
    case Push(p, kind) =>
      && M.Enabled(c.mail, M.Add(p, kind)) && c.writer.None?
      && var e := payload(Next(c.mail, p, kind)); e.Work? && e.user == kind.User?
    case Stop(p) =>
      && M.Enabled(c.mail, M.Add(p, M.System)) && c.writer.None? && M.AllIdle(c.mail)
      && payload(Next(c.mail, p, M.System)).StopMark?
    case Step(a) => !a.Add? && !a.Invoke? && M.Enabled(c.mail, a)
    case Invoke(w) => M.Enabled(c.mail, M.Invoke(w, c.closed)) && c.worker.Free?
    case EndDestroy(_) => c.worker.Destroying?
    case RemoveName => c.worker.RemovingName?
    case RemoveId(w) => c.worker.RemovingId? && M.Enabled(c.mail, M.Invoke(w, false))
  }

  function Without(inside: seq<nat>, p: nat): seq<nat> {
    if inside == [] then []
    else if inside[0] == p then inside[1..]
    else [inside[0]] + Without(inside[1..], p)
  }

  function Apply(c: Process, a: Action, payload: Payload): Process
    requires Enabled(c, a, payload)
  {
    match a
    case Push(p, kind) =>
      if c.closing then c
      else
        var mail := M.Apply(c.mail, M.Add(p, kind));
        c.(mail := mail, inside := if mail.producers[p].at.Swapping? then c.inside + [p] else c.inside)
    case Stop(p) =>
      if c.closing then c
      else c.(mail := M.Apply(c.mail, M.Add(p, M.System)), closing := true, writer := Some(p))
    case Step(a) =>
      var n := c.(mail := M.Apply(c.mail, a));
      if a.Swap? then n.(inside := Without(c.inside, a.p))
      else if a.Schedule? && c.writer == Some(a.p) then n.(writer := None)
      else n
    case Invoke(w) =>
      if payload(c.mail.workers[w].m).StopMark? then c.(worker := L.Destroying)
      else c.(mail := M.Apply(c.mail, M.Invoke(w, c.closed)))
    case EndDestroy(panicked) => c.(worker := L.RemovingName(panicked))
    case RemoveName => c.(worker := L.RemovingId(c.worker.panicked))
    case RemoveId(w) =>
      c.(mail := M.Apply(c.mail, M.Invoke(w, !c.worker.panicked)), worker := L.Free, closed := !c.worker.panicked)
  }

  /** A new process: its spawner has pushed Init, and nobody else knows it yet. */
  function Open(capacity: int, throughput: int, producers: nat): Process
    requires producers > 0
  {
    Process(M.Pushed(M.Start(capacity, throughput, producers), 0, M.System), false, None, [], L.Free, false)
  }

  function Run(c: Process, schedule: seq<Action>, payload: Payload): Process {
    if schedule == [] then c
    else
      var before := Run(c, schedule[..|schedule| - 1], payload);
      var a := schedule[|schedule| - 1];
      if Enabled(before, a, payload) then Apply(before, a, payload) else before
  }

  // ---- The process of Lifecycle that it is ----

  function Carried(ms: seq<M.Msg>, payload: Payload): (r: seq<L.Envelope>)
    ensures |r| == |ms| && forall i :: 0 <= i < |ms| ==> r[i] == payload(ms[i])
  {
    seq(|ms|, i requires 0 <= i < |ms| => payload(ms[i]))
  }

  predicate InsideOk(c: Process) {
    forall k :: 0 <= k < |c.inside| ==> c.inside[k] < |c.mail.producers| && c.mail.producers[c.inside[k]].at.Swapping?
  }

  /** What the pushes that have yet to swap carry. */
  function Entering(c: Process, payload: Payload): (r: seq<L.Envelope>)
    requires InsideOk(c)
  {
    seq(|c.inside|, k requires 0 <= k < |c.inside| => payload(c.mail.producers[c.inside[k]].at.m))
  }

  predicate StopEntering(c: Process) {
    c.writer.Some? && c.writer.value < |c.mail.producers| && c.mail.producers[c.writer.value].at.Swapping?
  }

  /** Closed to pushes once the stop mark is swapped in, queueing what is swapped in and
      not handled; a stop mark is handled when its handler begins. */
  predicate Mirrors(c: Process, p: L.Process, payload: Payload) {
    && InsideOk(c) && p.pushing == Entering(c, payload)
    && p.closing == (c.closing && !StopEntering(c))
    && p.handled == Carried(c.mail.handled, payload) + (if c.worker.Free? then [] else [L.StopMark])
    && p.handled + p.queue == Carried(c.mail.swapped, payload)
    && p.worker == c.worker && p.closed == c.closed
  }

  predicate LocksOk(c: Process, payload: Payload) {
    && InsideOk(c)
    && Distinct(c.inside)
    && (forall p :: 0 <= p < |c.mail.producers| && c.mail.producers[p].at.Swapping? ==>
          p in c.inside || c.writer == Some(p))
    && (c.closing ==> c.inside == [])
    && (c.writer.Some? ==> c.closing && c.writer.value < |c.mail.producers|)
    && (StopEntering(c) ==> payload(c.mail.producers[c.writer.value].at.m).StopMark?)
  }

  /** While a stop mark is being handled it is the oldest message that was not handled. */
  predicate HandlingOk(c: Process, payload: Payload) {
    !c.worker.Free? ==>
      |c.mail.handled| < |c.mail.swapped| && payload(c.mail.swapped[|c.mail.handled|]).StopMark?
  }

  predicate Inv(c: Process, payload: Payload) {
    M.Inv(c.mail) && LocksOk(c, payload) && HandlingOk(c, payload)
  }

  // ---- The invariant ----

  lemma {:induction false} WithoutHas(inside: seq<nat>, p: nat)
    requires Distinct(inside)
    ensures forall q :: q in Without(inside, p) <==> q in inside && q != p
    ensures Distinct(Without(inside, p))
  {
    if inside != [] {
      var rest := inside[1..];
      assert inside == [inside[0]] + rest && inside[0] !in rest;
      if inside[0] != p {
        WithoutHas(rest, p);
      }
    }
  }

  lemma {:induction false} WithoutIs(inside: seq<nat>, k: nat)
    requires Distinct(inside) && k < |inside|
    ensures Without(inside, inside[k]) == inside[..k] + inside[k + 1..]
  {
    if k > 0 {
      WithoutIs(inside[1..], k - 1);
      assert [inside[0]] + inside[1..][..k - 1] == inside[..k];
    }
  }

  lemma IdleInside(c: Process)
    requires InsideOk(c) && c.inside != []
    ensures !M.AllIdle(c.mail)
  {
    assert c.mail.producers[c.inside[0]].at.Swapping?;
  }

  lemma PushLocks(c: Process, p: nat, kind: M.Kind, payload: Payload)
    requires LocksOk(c, payload) && Enabled(c, Push(p, kind), payload)
    ensures LocksOk(Apply(c, Push(p, kind), payload), payload)
  {
    var n := Apply(c, Push(p, kind), payload);
    if !c.closing {
      assert n.mail.producers == c.mail.producers[p := n.mail.producers[p]] && p !in c.inside;
    }
  }

  lemma StopLocks(c: Process, p: nat, payload: Payload)
    requires LocksOk(c, payload) && Enabled(c, Stop(p), payload)
    ensures LocksOk(Apply(c, Stop(p), payload), payload)
  {
    if c.inside != [] {
      IdleInside(c);
    }
  }

  lemma SwapLocks(c: Process, p: nat, payload: Payload)
    requires LocksOk(c, payload) && Enabled(c, Step(M.Swap(p)), payload)
    ensures LocksOk(Apply(c, Step(M.Swap(p)), payload), payload)
  {
    var n := Apply(c, Step(M.Swap(p)), payload);
    var x := n.mail.producers[p];
    assert n.mail.producers == c.mail.producers[p := x] && x.at.Linking?;
    WithoutHas(c.inside, p);
    assert n.closing == c.closing && n.writer == c.writer && n.inside == Without(c.inside, p);
    forall k | 0 <= k < |n.inside| ensures n.inside[k] in c.inside && n.inside[k] != p {
      assert n.inside[k] in n.inside;
    }
  }

  lemma StepLocks(c: Process, a: M.Action, payload: Payload)
    requires LocksOk(c, payload) && Enabled(c, Step(a), payload) && !a.Swap?
    ensures LocksOk(Apply(c, Step(a), payload), payload)
  {
    var n := Apply(c, Step(a), payload);
    if M.WorkerAction(a) {
      assert n.mail.producers == c.mail.producers;
    } else {
      var x := n.mail.producers[a.p];
      assert n.mail.producers == c.mail.producers[a.p := x] && !x.at.Swapping? && !c.mail.producers[a.p].at.Swapping?;
    }
  }

  lemma HandlerLocks(c: Process, a: Action, payload: Payload)
    requires LocksOk(c, payload) && Enabled(c, a, payload) && !a.Push? && !a.Stop? && !a.Step?
    ensures LocksOk(Apply(c, a, payload), payload)
  {
    assert Apply(c, a, payload).mail.producers == c.mail.producers;
  }

  lemma LocksKept(c: Process, a: Action, payload: Payload)
    requires LocksOk(c, payload) && Enabled(c, a, payload)
    ensures LocksOk(Apply(c, a, payload), payload)
  {
    match a
    case Push(p, kind) => PushLocks(c, p, kind, payload);
    case Stop(p) => StopLocks(c, p, payload);
    case Step(m) =>
      if m.Swap? {
        SwapLocks(c, m.p, payload);
      } else {
        StepLocks(c, m, payload);
      }
    case _ => HandlerLocks(c, a, payload);
  }

  /** The mailbox takes steps of its own only, so all that is proved of it holds here. */
  lemma MailKept(c: Process, a: Action, payload: Payload)
    requires M.Inv(c.mail) && Enabled(c, a, payload)
    ensures M.Inv(Apply(c, a, payload).mail)
  {
    match a
    case Push(p, kind) => M.InvKept(c.mail, M.Add(p, kind));
    case Stop(p) => M.InvKept(c.mail, M.Add(p, M.System));
    case Step(m) => M.InvKept(c.mail, m);
    case Invoke(w) => M.InvKept(c.mail, M.Invoke(w, c.closed));
    case RemoveId(w) => M.InvKept(c.mail, M.Invoke(w, !c.worker.panicked));
    case _ =>
  }

  /** A worker about to invoke the handler holds the oldest message that was not handled. */
  lemma InvokesOldest(mail: M.State, w: nat)
    requires M.Inv(mail) && w < |mail.workers| && mail.workers[w].Invoking?
    ensures |mail.handled| < |mail.swapped| && mail.workers[w].m == mail.swapped[|mail.handled|]
    ensures mail.handled == mail.swapped[..|mail.handled|]
  {
    assert M.Holding(mail.workers[w]) == 1;
  }

  lemma HandlingKept(c: Process, a: Action, payload: Payload)
    requires HandlingOk(c, payload) && Enabled(c, a, payload)
    requires a.Invoke? ==>
      |c.mail.handled| < |c.mail.swapped| && c.mail.workers[a.w].m == c.mail.swapped[|c.mail.handled|]
    ensures HandlingOk(Apply(c, a, payload), payload)
  {
  }

  lemma InvKept(c: Process, a: Action, payload: Payload)
    requires Inv(c, payload) && Enabled(c, a, payload)
    ensures Inv(Apply(c, a, payload), payload)
  {
    MailKept(c, a, payload);
    LocksKept(c, a, payload);
    if a.Invoke? {
      InvokesOldest(c.mail, a.w);
    }
    HandlingKept(c, a, payload);
  }

  // ---- Each step is one of Lifecycle's, or none ----

  function Position(inside: seq<nat>, p: nat): (k: nat)
    requires p in inside
    ensures k < |inside| && inside[k] == p
  {
    if inside[0] == p then 0 else 1 + Position(inside[1..], p)
  }

  /** A push that is refused changes neither; a push takes effect at its swap. */
  function Effect(c: Process, a: Action, payload: Payload): Option<L.Action>
    requires LocksOk(c, payload) && Enabled(c, a, payload)
  {
    match a
    case Push(p, kind) =>
      if c.closing || !Apply(c, a, payload).mail.producers[p].at.Swapping? then None
      else Some(L.PushBegin(0, payload(Next(c.mail, p, kind))))
    case Stop(_) => None
    case Step(m) =>
      if !m.Swap? then None
      else if c.writer == Some(m.p) then Some(L.Stop(0))
      else Some(L.PushEnd(0, Position(c.inside, m.p), false))
    case Invoke(_) => Some(L.Handle(0))
    case EndDestroy(panicked) => Some(L.EndDestroy(0, panicked))
    case RemoveName => Some(L.RemoveName(0))
    case RemoveId(_) => Some(L.RemoveId(0))
  }

  lemma EnteringFrame(c: Process, c': Process, payload: Payload)
    requires InsideOk(c) && c'.inside == c.inside && |c.mail.producers| <= |c'.mail.producers|
    requires forall k :: 0 <= k < |c.inside| ==> c'.mail.producers[c.inside[k]].at == c.mail.producers[c.inside[k]].at
    ensures InsideOk(c') && Entering(c', payload) == Entering(c, payload)
  {
  }

  lemma PushMirrors(c: Process, p: L.Process, n: nat, kind: M.Kind, payload: Payload)
    requires LocksOk(c, payload) && Mirrors(c, p, payload) && Enabled(c, Push(n, kind), payload)
    ensures var c' := Apply(c, Push(n, kind), payload);
      match Effect(c, Push(n, kind), payload)
      case None => Mirrors(c', p, payload)
      case Some(b) => b.PushBegin? && b.e.Work? && Mirrors(c', L.PushBeginSpec(p, b.e), payload)
  {
    var c' := Apply(c, Push(n, kind), payload);
    if !c.closing {
      if c'.inside == c.inside {
        EnteringFrame(c, c', payload);
      } else {
        assert Entering(c', payload) == Entering(c, payload) + [payload(Next(c.mail, n, kind))];
      }
    }
  }

  lemma StopMirrors(c: Process, p: L.Process, n: nat, payload: Payload)
    requires LocksOk(c, payload) && Mirrors(c, p, payload) && Enabled(c, Stop(n), payload)
    ensures Mirrors(Apply(c, Stop(n), payload), p, payload)
  {
    if c.inside != [] {
      IdleInside(c);
    }
  }

  lemma EntersQueue(p: L.Process, swapped: seq<M.Msg>, m: M.Msg, payload: Payload)
    requires p.handled + p.queue == Carried(swapped, payload)
    ensures p.handled + (p.queue + [payload(m)]) == Carried(swapped + [m], payload)
  {
    assert Carried(swapped + [m], payload) == Carried(swapped, payload) + [payload(m)];
  }

  lemma StopMarkMirrors(c: Process, p: L.Process, n: nat, payload: Payload)
    requires LocksOk(c, payload) && Mirrors(c, p, payload) && Enabled(c, Step(M.Swap(n)), payload)
    requires c.writer == Some(n)
    ensures p.pushing == [] && Mirrors(Apply(c, Step(M.Swap(n)), payload), L.StopProcessSpec(p), payload)
  {
    EntersQueue(p, c.mail.swapped, c.mail.producers[n].at.m, payload);
  }

  lemma EnteringSwap(c: Process, c': Process, k: nat, payload: Payload)
    requires InsideOk(c) && InsideOk(c') && k < |c.inside| && c'.inside == c.inside[..k] + c.inside[k + 1..]
    requires forall p :: 0 <= p < |c.mail.producers| && p != c.inside[k] ==>
      p < |c'.mail.producers| && c'.mail.producers[p] == c.mail.producers[p]
    requires Distinct(c.inside)
    ensures Entering(c', payload) == Entering(c, payload)[..k] + Entering(c, payload)[k + 1..]
  {
  }

  lemma SwapMirrors(c: Process, p: L.Process, n: nat, payload: Payload)
    requires LocksOk(c, payload) && Mirrors(c, p, payload) && Enabled(c, Step(M.Swap(n)), payload)
    requires c.writer != Some(n)
    ensures n in c.inside
    ensures Mirrors(Apply(c, Step(M.Swap(n)), payload), L.PushEndSpec(p, Position(c.inside, n), false), payload)
  {
    var c' := Apply(c, Step(M.Swap(n)), payload);
    var k := Position(c.inside, n);
    WithoutIs(c.inside, k);
    assert InsideOk(c') by {
      SwapLocks(c, n, payload);
    }
    EnteringSwap(c, c', k, payload);
    EntersQueue(p, c.mail.swapped, c.mail.producers[n].at.m, payload);
  }

  lemma StepMirrors(c: Process, p: L.Process, a: M.Action, payload: Payload)
    requires LocksOk(c, payload) && Mirrors(c, p, payload) && Enabled(c, Step(a), payload) && !a.Swap?
    ensures Mirrors(Apply(c, Step(a), payload), p, payload)
  {
    EnteringFrame(c, Apply(c, Step(a), payload), payload);
  }

  predicate HoldsOldest(mail: M.State, w: nat)
    requires w < |mail.workers| && mail.workers[w].Invoking?
  {
    |mail.handled| < |mail.swapped| && mail.workers[w].m == mail.swapped[|mail.handled|]
  }

  lemma InvokeMirrors(c: Process, p: L.Process, w: nat, payload: Payload)
    requires Mirrors(c, p, payload) && Enabled(c, Invoke(w), payload) && HoldsOldest(c.mail, w)
    ensures p.queue != [] && p.queue[0] == payload(c.mail.workers[w].m)
    ensures Mirrors(Apply(c, Invoke(w), payload), L.HandleSpec(p), payload)
  {
    var m, c' := c.mail.workers[w].m, Apply(c, Invoke(w), payload);
    var all := Carried(c.mail.swapped, payload);
    assert all[|p.handled|] == payload(m) && p.queue == all[|p.handled|..];
    assert (p.handled + [p.queue[0]]) + p.queue[1..] == p.handled + p.queue;
    assert Carried(c.mail.handled + [m], payload) == Carried(c.mail.handled, payload) + [payload(m)];
    EnteringFrame(c, c', payload);
  }

  lemma RemoveIdMirrors(c: Process, p: L.Process, w: nat, payload: Payload)
    requires Mirrors(c, p, payload) && Enabled(c, RemoveId(w), payload)
    requires HandlingOk(c, payload) && HoldsOldest(c.mail, w)
    ensures Mirrors(Apply(c, RemoveId(w), payload), p.(worker := L.Free, closed := !p.worker.panicked), payload)
  {
    var m := c.mail.workers[w].m;
    assert Carried(c.mail.handled + [m], payload) == Carried(c.mail.handled, payload) + [L.StopMark];
    EnteringFrame(c, Apply(c, RemoveId(w), payload), payload);
  }

  predicate OneProcess(s: L.System) {
    |s.processes| == 1 && s.shutdown == L.NotStopped
  }

  /** What an action of Lifecycle's on a node with this one process makes of it. */
  predicate Matched(c: Process, s: L.System, b: Option<L.Action>, payload: Payload) {
    match b
    case None => OneProcess(s) && Mirrors(c, s.processes[0], payload)
    case Some(b) =>
      && L.Enabled(s, b) && OneProcess(L.Apply(s, b)) && Mirrors(c, L.Apply(s, b).processes[0], payload)
  }

  lemma PushSimulates(c: Process, s: L.System, n: nat, kind: M.Kind, payload: Payload)
    requires LocksOk(c, payload) && OneProcess(s) && Mirrors(c, s.processes[0], payload)
    requires Enabled(c, Push(n, kind), payload)
    ensures Matched(Apply(c, Push(n, kind), payload), s, Effect(c, Push(n, kind), payload), payload)
  {
    PushMirrors(c, s.processes[0], n, kind, payload);
  }

  lemma SwapSimulates(c: Process, s: L.System, n: nat, payload: Payload)
    requires LocksOk(c, payload) && OneProcess(s) && Mirrors(c, s.processes[0], payload)
    requires Enabled(c, Step(M.Swap(n)), payload)
    ensures Matched(Apply(c, Step(M.Swap(n)), payload), s, Effect(c, Step(M.Swap(n)), payload), payload)
  {
    var p := s.processes[0];
    var c' := Apply(c, Step(M.Swap(n)), payload);
    if c.writer == Some(n) {
      StopMarkMirrors(c, p, n, payload);
      assert L.Apply(s, L.Stop(0)).processes == [L.StopProcessSpec(p)];
    } else {
      SwapMirrors(c, p, n, payload);
      var k := Position(c.inside, n);
      assert L.Apply(s, L.PushEnd(0, k, false)).processes == [L.PushEndSpec(p, k, false)];
    }
  }

  lemma InvokeSimulates(c: Process, s: L.System, w: nat, payload: Payload)
    requires OneProcess(s) && Mirrors(c, s.processes[0], payload)
    requires Enabled(c, Invoke(w), payload) && HoldsOldest(c.mail, w)
    ensures Matched(Apply(c, Invoke(w), payload), s, Some(L.Handle(0)), payload)
  {
    var p := s.processes[0];
    InvokeMirrors(c, p, w, payload);
    assert L.Apply(s, L.Handle(0)).processes == [L.HandleSpec(p)];
  }

  lemma RemoveIdSimulates(c: Process, s: L.System, w: nat, payload: Payload)
    requires OneProcess(s) && Mirrors(c, s.processes[0], payload) && HandlingOk(c, payload)
    requires Enabled(c, RemoveId(w), payload) && HoldsOldest(c.mail, w)
    ensures Matched(Apply(c, RemoveId(w), payload), s, Some(L.RemoveId(0)), payload)
  {
    RemoveIdMirrors(c, s.processes[0], w, payload);
  }

  lemma DestroySimulates(c: Process, s: L.System, a: Action, payload: Payload)
    requires LocksOk(c, payload) && OneProcess(s) && Mirrors(c, s.processes[0], payload) && Enabled(c, a, payload)
    requires a.EndDestroy? || a.RemoveName?
    ensures Matched(Apply(c, a, payload), s, Effect(c, a, payload), payload)
  {
    EnteringFrame(c, Apply(c, a, payload), payload);
  }

  /** Each atomic step, of the mailbox or of the handler, is one section of Lifecycle's on
      the process or leaves it as it is. */
  lemma Simulates(c: Process, s: L.System, a: Action, payload: Payload)
    requires Inv(c, payload) && OneProcess(s) && Mirrors(c, s.processes[0], payload) && Enabled(c, a, payload)
    ensures Matched(Apply(c, a, payload), s, Effect(c, a, payload), payload)
  {
    match a
    case Push(n, kind) => PushSimulates(c, s, n, kind, payload);
    case Stop(n) => StopMirrors(c, s.processes[0], n, payload);
    case Step(m) =>
      if m.Swap? {
        SwapSimulates(c, s, m.p, payload);
      } else {
        StepMirrors(c, s.processes[0], m, payload);
      }
    case Invoke(w) =>
      InvokesOldest(c.mail, w);
      InvokeSimulates(c, s, w, payload);
    case RemoveId(w) =>
      InvokesOldest(c.mail, w);
      RemoveIdSimulates(c, s, w, payload);
    case _ => DestroySimulates(c, s, a, payload);
  }

  // ---- Results, for every run and whatever the messages carry ----

  lemma SpawnsOne(name: string, id: nat)
    requires id > 0
    ensures var s := L.Run(L.Begin(), [L.SpawnBegin(name), L.SpawnEnd(0, id)]);
      OneProcess(s) && s.processes[0] == L.NewProcess(id, name)
  {
    var begin := [L.SpawnBegin(name)];
    assert begin[..0] == [];
    assert L.Run(L.Begin(), begin).spawning == [name];
    assert (begin + [L.SpawnEnd(0, id)])[..1] == begin;
  }

  lemma PushedInv(s: M.State, p: nat)
    requires M.Inv(s) && p < |s.producers| && s.producers[p].at.Idle? && |s.swapped| == |s.linked|
    ensures M.Inv(M.Pushed(s, p, M.System))
  {
    var added := M.Apply(s, M.Add(p, M.System));
    var swapped := M.Apply(added, M.Swap(p));
    var linked := M.Apply(swapped, M.Link(p));
    M.InvKept(s, M.Add(p, M.System));
    M.InvKept(added, M.Swap(p));
    M.InvKept(swapped, M.Link(p));
    M.InvKept(linked, M.Schedule(p));
  }

  lemma OpenIs(capacity: int, throughput: int, producers: nat)
    requires producers > 0
    ensures var mail := Open(capacity, throughput, producers).mail;
      M.Inv(mail) && M.AllIdle(mail) && mail.swapped == [M.Msg(0, 0, M.System)] && mail.handled == []
  {
    var s := M.Start(capacity, throughput, producers);
    M.InvStart(capacity, throughput, producers);
    PushedInv(s, 0);
    M.PushComesTo(s, 0, M.System);
  }

  lemma {:induction false} InvRun(capacity: int, throughput: int, producers: nat, schedule: seq<Action>,
      payload: Payload)
    requires producers > 0
    ensures Inv(Run(Open(capacity, throughput, producers), schedule, payload), payload)
  {
    if schedule == [] {
      OpenIs(capacity, throughput, producers);
    } else {
      var before := Run(Open(capacity, throughput, producers), schedule[..|schedule| - 1], payload);
      InvRun(capacity, throughput, producers, schedule[..|schedule| - 1], payload);
      if Enabled(before, schedule[|schedule| - 1], payload) {
        InvKept(before, schedule[|schedule| - 1], payload);
      }
    }
  }

  lemma OpenMirrors(capacity: int, throughput: int, producers: nat, name: string, id: nat, payload: Payload)
    requires producers > 0 && payload(M.Msg(0, 0, M.System)) == L.Init
    ensures Mirrors(Open(capacity, throughput, producers), L.NewProcess(id, name), payload)
  {
    OpenIs(capacity, throughput, producers);
  }

  /** Every run of a process on its mailbox is a run of a process in Lifecycle: the result
      is a schedule there that ends in the same queue and log. */
  lemma {:induction false} Refines(capacity: int, throughput: int, producers: nat, schedule: seq<Action>,
      payload: Payload, name: string, id: nat) returns (sections: seq<L.Action>)
    requires producers > 0 && id > 0 && payload(M.Msg(0, 0, M.System)) == L.Init
    ensures var s := L.Run(L.Begin(), sections);
      && OneProcess(s)
      && Mirrors(Run(Open(capacity, throughput, producers), schedule, payload), s.processes[0], payload)
  {
    if schedule == [] {
      sections := [L.SpawnBegin(name), L.SpawnEnd(0, id)];
      SpawnsOne(name, id);
      OpenMirrors(capacity, throughput, producers, name, id, payload);
    } else {
      var before, a := schedule[..|schedule| - 1], schedule[|schedule| - 1];
      sections := Refines(capacity, throughput, producers, before, payload, name, id);
      InvRun(capacity, throughput, producers, before, payload);
      var c := Run(Open(capacity, throughput, producers), before, payload);
      if Enabled(c, a, payload) {
        Simulates(c, L.Run(L.Begin(), sections), a, payload);
        var b := Effect(c, a, payload);
        if b.Some? {
          assert (sections + [b.value])[..|sections|] == sections;
          sections := sections + [b.value];
        }
      }
    }
  }

  /** What entered the real queue is Init, then messages, then at most one stop mark after
      which nothing entered; what was handled is a beginning of that. */
  predicate StopMarkLast(c: Process, payload: Payload) {
    var entered := Carried(c.mail.swapped, payload);
    && Carried(c.mail.handled, payload) <= entered
    && |entered| > 0 && (forall i :: 0 <= i < |entered| ==> (entered[i].Init? <==> i == 0))
    && (forall i :: 0 <= i < |entered| && entered[i].StopMark? ==> i == |entered| - 1)
    && (c.closing && !StopEntering(c) <==> entered[|entered| - 1].StopMark?)
  }

  lemma LogOf(c: Process, p: L.Process, payload: Payload)
    requires Mirrors(c, p, payload) && L.ProcessOk(p)
    ensures StopMarkLast(c, payload)
  {
    var entered := Carried(c.mail.swapped, payload);
    assert entered == [L.Init] + p.accepted + (if p.closing then [L.StopMark] else []);
    assert forall i :: 0 < i <= |p.accepted| ==> entered[i] == p.accepted[i - 1];
    assert Carried(c.mail.handled, payload) <= p.handled <= entered;
  }

  lemma StopMarkIsLast(capacity: int, throughput: int, producers: nat, schedule: seq<Action>, payload: Payload)
    requires producers > 0 && payload(M.Msg(0, 0, M.System)) == L.Init
    ensures StopMarkLast(Run(Open(capacity, throughput, producers), schedule, payload), payload)
  {
    var sections := Refines(capacity, throughput, producers, schedule, payload, "", 1);
    L.InvRun(sections);
    var c := Run(Open(capacity, throughput, producers), schedule, payload);
    LogOf(c, L.Run(L.Begin(), sections).processes[0], payload);
  }

  /** The queue is empty, and if Stop was called the last message handled, Destroy and the
      removals included, is the stop mark. */
  predicate Finished(c: Process, payload: Payload) {
    var handled := Carried(c.mail.handled, payload);
    && c.mail.handled == c.mail.swapped && c.worker.Free?
    && |handled| > 0 && (c.closing <==> handled[|handled| - 1].StopMark?)
  }

  lemma QuiescentFinished(c: Process, payload: Payload)
    requires Inv(c, payload) && M.Quiescent(c.mail) && StopMarkLast(c, payload)
    ensures Finished(c, payload)
  {
    assert HandlingOk(c, payload);
    M.QuiescentIsDone(c.mail);
  }

  /** Once nobody is in the middle of anything, a process that was stopped is destroyed. */
  lemma StopIsHandled(capacity: int, throughput: int, producers: nat, schedule: seq<Action>, payload: Payload)
    requires producers > 0 && payload(M.Msg(0, 0, M.System)) == L.Init
    requires M.Quiescent(Run(Open(capacity, throughput, producers), schedule, payload).mail)
    ensures Finished(Run(Open(capacity, throughput, producers), schedule, payload), payload)
  {
    InvRun(capacity, throughput, producers, schedule, payload);
    StopMarkIsLast(capacity, throughput, producers, schedule, payload);
    QuiescentFinished(Run(Open(capacity, throughput, producers), schedule, payload), payload);
  }

  // ---- What the process's calls come to when nobody disturbs them ----

  /** After the step that takes the lock: the steps of a push that was accepted, or the one
      of a push that was refused. */
  function Finish(c: Process, p: nat, payload: Payload): Process
    requires |c.mail.swapped| == |c.mail.linked|
    requires p < |c.mail.producers| && (c.mail.producers[p].at.Swapping? || c.mail.producers[p].at.RollingBack?)
  {
    if c.mail.producers[p].at.RollingBack? then Apply(c, Step(M.RollBack(p)), payload)
    else
      var swapped := Apply(c, Step(M.Swap(p)), payload);
      Apply(Apply(swapped, Step(M.Link(p)), payload), Step(M.Schedule(p)), payload)
  }

  lemma FinishIs(c: Process, p: nat, payload: Payload)
    requires |c.mail.swapped| == |c.mail.linked|
    requires p < |c.mail.producers| && (c.mail.producers[p].at.Swapping? || c.mail.producers[p].at.RollingBack?)
    ensures var n := Finish(c, p, payload);
      && n.inside == (if c.mail.producers[p].at.Swapping? then Without(c.inside, p) else c.inside)
      && n.writer == (if c.mail.producers[p].at.Swapping? && c.writer == Some(p) then None else c.writer)
      && n.closing == c.closing && n.worker == c.worker && n.closed == c.closed
      && n.mail == if c.mail.producers[p].at.RollingBack? then M.Apply(c.mail, M.RollBack(p))
         else M.Apply(M.Apply(M.Apply(c.mail, M.Swap(p)), M.Link(p)), M.Schedule(p))
  {
  }

  /** Who may take a step: a push while nobody is in Stop, Stop while nobody is in a push, a
      handler call while the one before has ended, each step of the end after the other. */
  lemma LocksDecide(c: Process, p: nat, kind: M.Kind, w: nat, panicked: bool, payload: Payload)
    ensures Enabled(c, Push(p, kind), payload) <==>
      p < |c.mail.producers| && c.mail.producers[p].at.Idle? && c.writer.None?
      && payload(M.Msg(p, c.mail.producers[p].sent, kind)).Work?
      && (payload(M.Msg(p, c.mail.producers[p].sent, kind)).user <==> kind == M.User)
    ensures Enabled(c, Stop(p), payload) <==>
      p < |c.mail.producers| && c.writer.None?
      && (forall q :: 0 <= q < |c.mail.producers| ==> c.mail.producers[q].at.Idle?)
      && payload(M.Msg(p, c.mail.producers[p].sent, M.System)) == L.StopMark
    ensures Enabled(c, Invoke(w), payload) <==>
      w < |c.mail.workers| && c.mail.workers[w].Invoking? && c.worker.Free?
    ensures Enabled(c, EndDestroy(panicked), payload) <==> c.worker.Destroying?
    ensures Enabled(c, RemoveName, payload) <==> c.worker.RemovingName?
    ensures Enabled(c, RemoveId(w), payload) <==>
      c.worker.RemovingId? && w < |c.mail.workers| && c.mail.workers[w].Invoking?
  {
  }

  /** In every run: a push on a process that is not closing is the mailbox's push, and on one
      that is closing it does nothing; either way the lock is given back. */
  lemma PushAlone(capacity: int, throughput: int, producers: nat, schedule: seq<Action>, payload: Payload,
      p: nat, kind: M.Kind)
    requires producers > 0
    requires Enabled(Run(Open(capacity, throughput, producers), schedule, payload), Push(p, kind), payload)
    ensures var c := Run(Open(capacity, throughput, producers), schedule, payload);
      var pushed := Apply(c, Push(p, kind), payload);
      if c.closing then pushed == c
      else
        && |c.mail.swapped| == |c.mail.linked| && p < |pushed.mail.producers|
        && (pushed.mail.producers[p].at.Swapping? || pushed.mail.producers[p].at.RollingBack?)
        && Finish(pushed, p, payload) == c.(mail := M.Pushed(c.mail, p, kind))
  {
    var c := Run(Open(capacity, throughput, producers), schedule, payload);
    assert M.CounterExact(c.mail) && LocksOk(c, payload) by {
      InvRun(capacity, throughput, producers, schedule, payload);
    }
    if !c.closing {
      M.AddDecides(c.mail, p, kind);
      var pushed := Apply(c, Push(p, kind), payload);
      FinishIs(pushed, p, payload);
      if pushed.mail.producers[p].at.Swapping? {
        assert p !in c.inside;
        WithoutAppended(c.inside, p);
      }
    }
  }

  lemma {:induction false} WithoutAppended(inside: seq<nat>, p: nat)
    requires p !in inside
    ensures Without(inside + [p], p) == inside
  {
    if inside != [] {
      assert (inside + [p])[1..] == inside[1..] + [p];
      WithoutAppended(inside[1..], p);
    }
  }

  /** In every run: the first Stop closes the process for good and leaves its stop mark last
      in the queue, and every later one does nothing. */
  lemma StopAlone(capacity: int, throughput: int, producers: nat, schedule: seq<Action>, payload: Payload, p: nat)
    requires producers > 0
    requires Enabled(Run(Open(capacity, throughput, producers), schedule, payload), Stop(p), payload)
    ensures var c := Run(Open(capacity, throughput, producers), schedule, payload);
      var stopping := Apply(c, Stop(p), payload);
      if c.closing then stopping == c
      else
        && |c.mail.swapped| == |c.mail.linked| && p < |stopping.mail.producers|
        && stopping.mail.producers[p].at.Swapping?
        && var n := Finish(stopping, p, payload);
        && n == c.(mail := M.Pushed(c.mail, p, M.System), closing := true)
        && n.mail.swapped == c.mail.swapped + [Next(c.mail, p, M.System)]
        && payload(Next(c.mail, p, M.System)).StopMark?
  {
    var c := Run(Open(capacity, throughput, producers), schedule, payload);
    assert M.CounterExact(c.mail) && LocksOk(c, payload) by {
      InvRun(capacity, throughput, producers, schedule, payload);
    }
    if !c.closing {
      M.AddDecides(c.mail, p, M.System);
      M.PushComesTo(c.mail, p, M.System);
      if c.inside != [] {
        IdleInside(c);
      }
      FinishIs(Apply(c, Stop(p), payload), p, payload);
    }
  }

  /** A worker that invokes the handler with the stop mark goes through Destroy and the two
      removals, and only then is the message handled; the process has closed unless Destroy
      panicked. Any other message is handled in one step. */
  lemma InvokeAlone(c: Process, w: nat, panicked: bool, payload: Payload)
    requires Enabled(c, Invoke(w), payload)
    ensures var n := Apply(c, Invoke(w), payload);
      if !payload(c.mail.workers[w].m).StopMark? then n == c.(mail := M.Apply(c.mail, M.Invoke(w, c.closed)))
      else
        && Enabled(n, EndDestroy(panicked), payload)
        && var n := Apply(n, EndDestroy(panicked), payload);
        && Enabled(n, RemoveName, payload)
        && var n := Apply(n, RemoveName, payload);
        && Enabled(n, RemoveId(w), payload)
        && Apply(n, RemoveId(w), payload) == c.(mail := M.Apply(c.mail, M.Invoke(w, !panicked)), closed := !panicked)
  {
  }
}
