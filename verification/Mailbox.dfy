/** The lock-free mailbox as a transition system. One action is one atomic operation of
    one goroutine: an atomic add, half of a queue push, a compare-and-swap, a store, a
    pop, or a handler call. There are any number of producers, and every successful
    compare-and-swap by a producer starts a worker. */
module Mailbox {
  import opened Wrappers
  import opened Mpsc
  import opened Counting

  datatype Kind = User | System

  /** Message number `no` of producer `from`. */
  datatype Msg = Msg(from: nat, no: nat, kind: Kind)

  /** Where a producer is: between pushes, after the counter add, between the two
      halves of the queue push (its message was the ticket-th to be swapped in), or
      before the compare-and-swap. */
  datatype Producer = Producer(at: ProducerAt, sent: nat)
  datatype ProducerAt = Idle | RollingBack | Swapping(m: Msg) | Linking(ticket: nat) | Scheduling

  datatype Worker =
    | Draining(processed: nat)
    | Popped(m: Msg, processed: nat)
    | Invoking(m: Msg, processed: nat)
    | Storing
    | Rechecking
    | Recasting
    | Exited

  /** The queue holds the messages swapped in but not popped yet; linked[t] says
      whether the t-th of them has been linked to its predecessor. */
  datatype State = State(
    swapped: seq<Msg>,
    linked: seq<bool>,
    popped: nat,
    messages: int,
    running: bool,
    capacity: int,
    throughput: int,
    producers: seq<Producer>,
    workers: seq<Worker>,
    handled: seq<Msg>)  // the messages given to the handler, in order

  function Queue(swapped: seq<Msg>, linked: seq<bool>, popped: nat): seq<Slot<Msg>>
    requires popped <= |swapped| == |linked|
  {
    seq(|swapped| - popped, i requires 0 <= i < |swapped| - popped => Slot(swapped[popped + i], linked[popped + i]))
  }

  function NormalCapacity(capacity: int): int {
    if capacity <= 0 then 1024 else capacity
  }

  function Start(capacity: int, throughput: int, producers: nat): State {
    State([], [], 0, 0, false, NormalCapacity(capacity), throughput, seq(producers, _ => Producer(Idle, 0)), [], [])
  }

  datatype Action =
    | Add(p: nat, kind: Kind) | RollBack(p: nat) | Swap(p: nat) | Link(p: nat) | Schedule(p: nat)
    | Yield(w: nat) | Pop(w: nat) | Decrement(w: nat) | Invoke(w: nat, closed: bool)
    | Store(w: nat) | Recheck(w: nat) | Recast(w: nat)

  predicate Enabled(s: State, a: Action) {
    match a
    case Add(p, _) => p < |s.producers| && s.producers[p].at.Idle?
    case RollBack(p) => p < |s.producers| && s.producers[p].at.RollingBack?
    case Swap(p) => p < |s.producers| && s.producers[p].at.Swapping?
    case Link(p) => p < |s.producers| && s.producers[p].at.Linking? && s.producers[p].at.ticket < |s.linked|
    case Schedule(p) => p < |s.producers| && s.producers[p].at.Scheduling?
    case Yield(w) => w < |s.workers| && s.workers[w].Draining? && s.workers[w].processed >= s.throughput
    case Pop(w) => w < |s.workers| && s.workers[w].Draining? && s.workers[w].processed < s.throughput
    case Decrement(w) => w < |s.workers| && s.workers[w].Popped?
    case Invoke(w, _) => w < |s.workers| && s.workers[w].Invoking?
    case Store(w) => w < |s.workers| && s.workers[w].Storing?
    case Recheck(w) => w < |s.workers| && s.workers[w].Rechecking?
    case Recast(w) => w < |s.workers| && s.workers[w].Recasting?
  }

  function At(s: State, p: nat, at: ProducerAt): State
    requires p < |s.producers|
  {
    s.(producers := s.producers[p := s.producers[p].(at := at)])
  }

  function To(s: State, w: nat, to: Worker): State
    requires w < |s.workers|
  {
    s.(workers := s.workers[w := to])
  }

  function Apply(s: State, a: Action): State
    requires Enabled(s, a)
  {
    match a
    case Add(p, kind) =>
      var m := Msg(p, s.producers[p].sent, kind);
      var at := if kind == User && s.messages + 1 > s.capacity then RollingBack else Swapping(m);
      s.(messages := s.messages + 1, producers := s.producers[p := Producer(at, s.producers[p].sent + 1)])
    case RollBack(p) => At(s, p, Idle).(messages := s.messages - 1)
    case Swap(p) =>
      At(s, p, Linking(|s.swapped|)).(swapped := s.swapped + [s.producers[p].at.m], linked := s.linked + [false])
    case Link(p) => At(s, p, Scheduling).(linked := s.linked[s.producers[p].at.ticket := true])
    case Schedule(p) =>
      if s.running then At(s, p, Idle)
      else At(s, p, Idle).(running := true, workers := s.workers + [Draining(0)])
    case Yield(w) => To(s, w, Draining(0))
    case Pop(w) =>
      if s.popped < |s.swapped| && s.popped < |s.linked| && s.linked[s.popped] then
        To(s, w, Popped(s.swapped[s.popped], s.workers[w].processed + 1)).(popped := s.popped + 1)
      else
        To(s, w, Storing)
    case Decrement(w) =>
      To(s, w, Invoking(s.workers[w].m, s.workers[w].processed)).(messages := s.messages - 1)
    case Invoke(w, closed) =>
      To(s, w, if closed then Storing else Draining(s.workers[w].processed)).(handled := s.handled + [s.workers[w].m])
    case Store(w) => To(s, w, Rechecking).(running := false)
    case Recheck(w) => To(s, w, if s.messages > 0 then Recasting else Exited)
    case Recast(w) => if s.running then To(s, w, Exited) else To(s, w, Draining(0)).(running := true)
  }

  /** What a schedule leads to; an action that is not enabled does nothing. */
  function Run(s: State, schedule: seq<Action>): State {
    if schedule == [] then s
    else
      var before := Run(s, schedule[..|schedule| - 1]);
      var a := schedule[|schedule| - 1];
      if Enabled(before, a) then Apply(before, a) else before
  }

  // ---- What is counted ----

  function Reserved(p: Producer): nat { if p.at.Swapping? || p.at.RollingBack? then 1 else 0 }
  function UserReserved(p: Producer): nat { if p.at.Swapping? && p.at.m.kind == User then 1 else 0 }
  function WillSchedule(p: Producer): nat { if p.at.Linking? || p.at.Scheduling? then 1 else 0 }
  function Undecremented(w: Worker): nat { if w.Popped? then 1 else 0 }
  function UserUndecremented(w: Worker): nat { if w.Popped? && w.m.kind == User then 1 else 0 }
  function Holding(w: Worker): nat { if w.Popped? || w.Invoking? then 1 else 0 }
  function WillRecheck(w: Worker): nat { if w.Rechecking? || w.Recasting? then 1 else 0 }
  /** Between a won compare-and-swap and the store of idle. */
  function Owning(w: Worker): nat { if w.Draining? || w.Popped? || w.Invoking? || w.Storing? then 1 else 0 }
  function UserMsg(m: Msg): nat { if m.kind == User then 1 else 0 }

  // ---- The invariant ----

  predicate CounterExact(s: State) {
    && s.popped <= |s.swapped| == |s.linked|
    && s.messages == |s.swapped| - s.popped + Sum(s.producers, Reserved) + Sum(s.workers, Undecremented)
  }

  /** User messages reserved, queued, or popped and not yet taken off the counter. */
  function UsersInside(s: State): nat
    requires s.popped <= |s.swapped|
  {
    Sum(s.swapped[s.popped..], UserMsg) + Sum(s.producers, UserReserved) + Sum(s.workers, UserUndecremented)
  }

  predicate OneOwner(s: State) {
    Sum(s.workers, Owning) == if s.running then 1 else 0
  }

  predicate WakeupPending(s: State) {
    s.popped < |s.swapped| && !s.running ==> Sum(s.producers, WillSchedule) + Sum(s.workers, WillRecheck) > 0
  }

  predicate Counters(s: State) {
    && CounterExact(s)
    && 0 < s.capacity && UsersInside(s) <= s.capacity
    && OneOwner(s)
    && WakeupPending(s)
  }

  predicate HandledOrder(swapped: seq<Msg>, popped: nat, handled: seq<Msg>, workers: seq<Worker>) {
    && popped == |handled| + Sum(workers, Holding)
    && popped <= |swapped|
    && handled == swapped[..|handled|]
    && (forall w :: 0 <= w < |workers| && Holding(workers[w]) == 1 ==>
          |handled| < |swapped| && workers[w].m == swapped[|handled|])
  }

  /** Exactly the unlinked messages have a producer about to link them. */
  predicate LinksPending(swapped: seq<Msg>, linked: seq<bool>, popped: nat, producers: seq<Producer>) {
    && popped <= |swapped| == |linked|
    && (forall t :: 0 <= t < popped ==> linked[t])
    && (forall t :: 0 <= t < |swapped| && !linked[t] ==>
          swapped[t].from < |producers| && producers[swapped[t].from].at == Linking(t))
    && (forall p {:trigger producers[p].at.ticket} :: 0 <= p < |producers| && producers[p].at.Linking? ==>
          var t := producers[p].at.ticket; t < |swapped| && !linked[t] && swapped[t].from == p)
  }

  predicate ProducerOrder(swapped: seq<Msg>, producers: seq<Producer>) {
    && (forall i :: 0 <= i < |swapped| ==>
          var p := swapped[i].from;
          && p < |producers| && swapped[i].no < producers[p].sent
          && (producers[p].at.Swapping? ==> swapped[i].no < producers[p].at.m.no))
    && (forall p :: 0 <= p < |producers| && producers[p].at.Swapping? ==>
          producers[p].at.m.from == p && producers[p].at.m.no + 1 == producers[p].sent)
    && (forall i, j :: 0 <= i < j < |swapped| && swapped[i].from == swapped[j].from ==> swapped[i].no < swapped[j].no)
  }

  predicate Inv(s: State) {
    && Counters(s)
    && HandledOrder(s.swapped, s.popped, s.handled, s.workers)
    && LinksPending(s.swapped, s.linked, s.popped, s.producers)
    && ProducerOrder(s.swapped, s.producers)
  }

  // ---- The counters ----

  lemma ProducerMoved(s: State, p: nat, x: Producer)
    requires p < |s.producers|
    ensures var next := s.producers[p := x];
      && Sum(next, Reserved) + Reserved(s.producers[p]) == Sum(s.producers, Reserved) + Reserved(x)
      && Sum(next, UserReserved) + UserReserved(s.producers[p]) == Sum(s.producers, UserReserved) + UserReserved(x)
      && Sum(next, WillSchedule) + WillSchedule(s.producers[p]) == Sum(s.producers, WillSchedule) + WillSchedule(x)
    ensures Reserved(x) <= Sum(s.producers[p := x], Reserved)
    ensures WillSchedule(x) <= Sum(s.producers[p := x], WillSchedule)
  {
    SumUpdate(s.producers, p, x, Reserved);
    SumUpdate(s.producers, p, x, UserReserved);
    SumUpdate(s.producers, p, x, WillSchedule);
    SumAtLeast(s.producers[p := x], p, Reserved);
    SumAtLeast(s.producers[p := x], p, WillSchedule);
  }

  lemma WorkerMoved(s: State, w: nat, x: Worker)
    requires w < |s.workers|
    ensures var next := s.workers[w := x];
      && Sum(next, Undecremented) + Undecremented(s.workers[w]) == Sum(s.workers, Undecremented) + Undecremented(x)
      && Sum(next, UserUndecremented) + UserUndecremented(s.workers[w]) == Sum(s.workers, UserUndecremented)
            + UserUndecremented(x)
      && Sum(next, Holding) + Holding(s.workers[w]) == Sum(s.workers, Holding) + Holding(x)
      && Sum(next, WillRecheck) + WillRecheck(s.workers[w]) == Sum(s.workers, WillRecheck) + WillRecheck(x)
      && Sum(next, Owning) + Owning(s.workers[w]) == Sum(s.workers, Owning) + Owning(x)
  {
    SumUpdate(s.workers, w, x, Undecremented);
    SumUpdate(s.workers, w, x, UserUndecremented);
    SumUpdate(s.workers, w, x, Holding);
    SumUpdate(s.workers, w, x, WillRecheck);
    SumUpdate(s.workers, w, x, Owning);
  }

  lemma WorkerAdded(s: State)
    ensures var next := s.workers + [Draining(0)];
      && Sum(next, Undecremented) == Sum(s.workers, Undecremented)
      && Sum(next, UserUndecremented) == Sum(s.workers, UserUndecremented)
      && Sum(next, Holding) == Sum(s.workers, Holding)
      && Sum(next, WillRecheck) == Sum(s.workers, WillRecheck)
      && Sum(next, Owning) == Sum(s.workers, Owning) + 1
  {
    SumAppend(s.workers, Draining(0), Undecremented);
    SumAppend(s.workers, Draining(0), UserUndecremented);
    SumAppend(s.workers, Draining(0), Holding);
    SumAppend(s.workers, Draining(0), WillRecheck);
    SumAppend(s.workers, Draining(0), Owning);
  }

  /** User messages inside never exceed the shared counter. */
  lemma UsersWithinCounter(s: State)
    requires CounterExact(s)
    ensures UsersInside(s) <= s.messages
  {
    SumBelow(s.producers, UserReserved, Reserved);
    SumBelow(s.workers, UserUndecremented, Undecremented);
    SumBelow(s.swapped[s.popped..], UserMsg, m => 1);
    SumOnes(s.swapped[s.popped..], m => 1);
  }

  /** How a producer's move shows in the sums: by scalars only. */
  lemma ProducerStep(s: State, p: nat, x: Producer, n: State)
    requires p < |s.producers| && CounterExact(s)
    requires n.producers == s.producers[p := x] && n.swapped == s.swapped && n.popped == s.popped
    requires n.workers == s.workers
    ensures n.popped <= |n.swapped| && Sum(n.workers, Undecremented) == Sum(s.workers, Undecremented)
    ensures Sum(n.producers, Reserved) + Reserved(s.producers[p]) == Sum(s.producers, Reserved) + Reserved(x)
    ensures UsersInside(n) + UserReserved(s.producers[p]) == UsersInside(s) + UserReserved(x)
    ensures Sum(n.producers, WillSchedule) + WillSchedule(s.producers[p])
         == Sum(s.producers, WillSchedule) + WillSchedule(x)
    ensures WillSchedule(x) <= Sum(n.producers, WillSchedule)
  {
    ProducerMoved(s, p, x);
  }

  lemma AddCounters(s: State, p: nat, kind: Kind)
    requires Counters(s) && Enabled(s, Add(p, kind))
    ensures Counters(Apply(s, Add(p, kind)))
  {
    var n := Apply(s, Add(p, kind));
    UsersWithinCounter(s);
    ProducerStep(s, p, n.producers[p], n);
  }

  lemma RollBackCounters(s: State, p: nat)
    requires Counters(s) && Enabled(s, RollBack(p))
    ensures Counters(Apply(s, RollBack(p)))
  {
    var n := Apply(s, RollBack(p));
    ProducerStep(s, p, n.producers[p], n);
  }

  lemma LinkCounters(s: State, p: nat)
    requires Counters(s) && Enabled(s, Link(p))
    ensures Counters(Apply(s, Link(p)))
  {
    var n := Apply(s, Link(p));
    ProducerStep(s, p, n.producers[p], n);
  }

  /** A new worker owns the mailbox and counts for nothing else. */
  lemma WorkerJoins(s: State, n: State)
    requires s.popped <= |s.swapped| && n.workers == s.workers + [Draining(0)]
    requires n.producers == s.producers && n.swapped == s.swapped && n.popped == s.popped
    ensures n.popped <= |n.swapped| && UsersInside(n) == UsersInside(s)
    ensures Sum(n.workers, Undecremented) == Sum(s.workers, Undecremented)
    ensures Sum(n.workers, WillRecheck) == Sum(s.workers, WillRecheck)
    ensures Sum(n.workers, Owning) == Sum(s.workers, Owning) + 1
  {
    WorkerAdded(s);
  }

  lemma ScheduleCounters(s: State, p: nat)
    requires Counters(s) && Enabled(s, Schedule(p))
    ensures Counters(Apply(s, Schedule(p)))
  {
    var idle := At(s, p, Idle);
    ProducerStep(s, p, idle.producers[p], idle);
    if !s.running {
      WorkerJoins(idle, Apply(s, Schedule(p)));
    }
  }

  lemma ProducerCounters(s: State, a: Action)
    requires Counters(s) && Enabled(s, a)
    requires a.Add? || a.RollBack? || a.Schedule? || a.Link?
    ensures Counters(Apply(s, a))
  {
    match a
    case Add(p, kind) => AddCounters(s, p, kind);
    case RollBack(p) => RollBackCounters(s, p);
    case Schedule(p) => ScheduleCounters(s, p);
    case Link(p) => LinkCounters(s, p);
  }

  lemma UsersQueued(swapped: seq<Msg>, popped: nat, m: Msg)
    requires popped <= |swapped|
    ensures Sum((swapped + [m])[popped..], UserMsg) == Sum(swapped[popped..], UserMsg) + UserMsg(m)
  {
    assert (swapped + [m])[popped..] == swapped[popped..] + [m];
    SumAppend(swapped[popped..], m, UserMsg);
  }

  lemma SwapCounters(s: State, p: nat)
    requires Counters(s) && Enabled(s, Swap(p))
    ensures Counters(Apply(s, Swap(p)))
  {
    var m, x := s.producers[p].at.m, s.producers[p].(at := Linking(|s.swapped|));
    var n := Apply(s, Swap(p));
    assert n.producers == s.producers[p := x] && n.workers == s.workers && n.swapped == s.swapped + [m];
    ProducerMoved(s, p, x);
    UsersQueued(s.swapped, s.popped, m);
  }

  predicate WorkerAction(a: Action) {
    a.Pop? || a.Yield? || a.Decrement? || a.Invoke? || a.Store? || a.Recheck? || a.Recast?
  }

  predicate ByWorker(a: Action, w: nat) {
    WorkerAction(a) && a.w == w
  }

  lemma UsersPopped(swapped: seq<Msg>, popped: nat)
    ensures popped < |swapped| ==>
      Sum(swapped[popped..], UserMsg) == UserMsg(swapped[popped]) + Sum(swapped[popped + 1..], UserMsg)
  {
    if popped < |swapped| {
      SumTail(swapped[popped..], UserMsg);
      assert swapped[popped..][1..] == swapped[popped + 1..];
    }
  }

  lemma PopCounters(s: State, w: nat)
    requires Counters(s) && Enabled(s, Pop(w))
    ensures Counters(Apply(s, Pop(w)))
  {
    var n := Apply(s, Pop(w));
    var x := n.workers[w];
    assert n.workers == s.workers[w := x] && n.producers == s.producers && n.swapped == s.swapped;
    WorkerMoved(s, w, x);
    SumAtLeast(s.workers, w, Owning);
    UsersPopped(s.swapped, s.popped);
  }

  lemma WorkerCounters(s: State, w: nat, a: Action)
    requires Counters(s) && Enabled(s, a) && ByWorker(a, w) && !a.Pop?
    ensures Counters(Apply(s, a))
  {
    var n := Apply(s, a);
    var x := n.workers[w];
    assert n.workers == s.workers[w := x] && n.producers == s.producers;
    assert n.swapped == s.swapped && n.popped == s.popped;
    WorkerMoved(s, w, x);
    SumAtLeast(s.workers, w, Owning);
    SumAtLeast(s.workers, w, Undecremented);
  }

  // ---- The orders ----

  /** While one worker owns the mailbox no other holds a message. */
  lemma SoleHolder(s: State, w: nat)
    requires OneOwner(s) && w < |s.workers|
    ensures Owning(s.workers[w]) == 1 ==> forall v :: 0 <= v < |s.workers| && v != w ==> Owning(s.workers[v]) == 0
    ensures Owning(s.workers[w]) == 1 ==> Sum(s.workers, Holding) == Holding(s.workers[w])
  {
    forall v | 0 <= v < |s.workers| && v != w
      ensures Owning(s.workers[w]) == 1 ==> Owning(s.workers[v]) == 0
    {
      SumAtLeastTwo(s.workers, if v < w then v else w, if v < w then w else v, Owning);
    }
    if Owning(s.workers[w]) == 1 {
      var others := s.workers[w := Exited];
      SumZero(others, Holding);
      SumUpdate(s.workers, w, Exited, Holding);
    }
  }

  predicate HandledInv(s: State) {
    HandledOrder(s.swapped, s.popped, s.handled, s.workers)
  }

  lemma PopHandled(s: State, w: nat)
    requires OneOwner(s) && HandledInv(s) && Enabled(s, Pop(w))
    ensures HandledInv(Apply(s, Pop(w)))
  {
    WorkerMoved(s, w, Apply(s, Pop(w)).workers[w]);
    SoleHolder(s, w);
  }

  lemma InvokeHandled(s: State, w: nat, closed: bool)
    requires OneOwner(s) && HandledInv(s) && Enabled(s, Invoke(w, closed))
    ensures HandledInv(Apply(s, Invoke(w, closed)))
  {
    WorkerMoved(s, w, Apply(s, Invoke(w, closed)).workers[w]);
    SoleHolder(s, w);
  }

  lemma HandledKept(s: State, w: nat, a: Action)
    requires HandledInv(s) && Enabled(s, a) && ByWorker(a, w) && !a.Pop? && !a.Invoke?
    ensures HandledInv(Apply(s, a))
  {
    var n := Apply(s, a);
    assert n.workers == s.workers[w := n.workers[w]] && n.swapped == s.swapped;
    WorkerMoved(s, w, n.workers[w]);
  }

  lemma SwapLinks(s: State, p: nat)
    requires LinksPending(s.swapped, s.linked, s.popped, s.producers) && ProducerOrder(s.swapped, s.producers)
    requires Enabled(s, Swap(p))
    ensures var n := Apply(s, Swap(p)); LinksPending(n.swapped, n.linked, n.popped, n.producers)
  {
  }

  lemma LinkLinks(s: State, p: nat)
    requires LinksPending(s.swapped, s.linked, s.popped, s.producers)
    requires Enabled(s, Link(p))
    ensures var n := Apply(s, Link(p)); LinksPending(n.swapped, n.linked, n.popped, n.producers)
  {
  }

  /** A producer that neither links before its move nor after it leaves the links alone. */
  lemma MoveLinks(s: State, p: nat, x: Producer)
    requires LinksPending(s.swapped, s.linked, s.popped, s.producers)
    requires p < |s.producers| && !s.producers[p].at.Linking? && !x.at.Linking?
    ensures LinksPending(s.swapped, s.linked, s.popped, s.producers[p := x])
  {
  }

  lemma MoveOrder(swapped: seq<Msg>, producers: seq<Producer>, p: nat, x: Producer)
    requires ProducerOrder(swapped, producers) && p < |producers| && x.sent >= producers[p].sent
    requires x.at.Swapping? ==> x.at.m == Msg(p, producers[p].sent, x.at.m.kind) && x.sent == producers[p].sent + 1
    ensures ProducerOrder(swapped, producers[p := x])
  {
  }

  lemma SwapOrder(swapped: seq<Msg>, producers: seq<Producer>, p: nat, at: ProducerAt)
    requires ProducerOrder(swapped, producers) && p < |producers| && producers[p].at.Swapping? && at.Linking?
    ensures ProducerOrder(swapped + [producers[p].at.m], producers[p := producers[p].(at := at)])
  {
  }

  lemma SwapHandled(s: State, p: nat)
    requires HandledInv(s) && Enabled(s, Swap(p))
    ensures HandledInv(Apply(s, Swap(p)))
  {
  }

  lemma SwapKept(s: State, p: nat)
    requires Inv(s) && Enabled(s, Swap(p))
    ensures Inv(Apply(s, Swap(p)))
  {
    SwapCounters(s, p);
    SwapHandled(s, p);
    SwapLinks(s, p);
    SwapOrder(s.swapped, s.producers, p, Linking(|s.swapped|));
  }

  lemma LinkKept(s: State, p: nat)
    requires Inv(s) && Enabled(s, Link(p))
    ensures Inv(Apply(s, Link(p)))
  {
    ProducerCounters(s, Link(p));
    LinkLinks(s, p);
    MoveOrder(s.swapped, s.producers, p, s.producers[p].(at := Scheduling));
  }

  lemma MoveKept(s: State, p: nat, a: Action)
    requires Inv(s) && Enabled(s, a) && (a.Add? || a.RollBack? || a.Schedule?) && a.p == p
    ensures Inv(Apply(s, a))
  {
    ProducerCounters(s, a);
    WorkerAdded(s);
    MoveLinks(s, p, Apply(s, a).producers[p]);
    MoveOrder(s.swapped, s.producers, p, Apply(s, a).producers[p]);
  }

  lemma PopKept(s: State, w: nat)
    requires Inv(s) && Enabled(s, Pop(w))
    ensures Inv(Apply(s, Pop(w)))
  {
    PopCounters(s, w);
    PopHandled(s, w);
    PopLinks(s, w);
  }

  lemma PopLinks(s: State, w: nat)
    requires LinksPending(s.swapped, s.linked, s.popped, s.producers) && Enabled(s, Pop(w))
    ensures var n := Apply(s, Pop(w)); LinksPending(n.swapped, n.linked, n.popped, n.producers)
  {
  }

  lemma WorkerKept(s: State, w: nat, a: Action)
    requires Inv(s) && Enabled(s, a) && ByWorker(a, w) && !a.Pop?
    ensures Inv(Apply(s, a))
  {
    WorkerCounters(s, w, a);
    if a.Invoke? {
      InvokeHandled(s, w, a.closed);
    } else {
      HandledKept(s, w, a);
    }
  }

  lemma InvKept(s: State, a: Action)
    requires Inv(s) && Enabled(s, a)
    ensures Inv(Apply(s, a))
  {
    if a.Swap? {
      SwapKept(s, a.p);
    } else if a.Link? {
      LinkKept(s, a.p);
    } else if a.Add? || a.RollBack? || a.Schedule? {
      MoveKept(s, a.p, a);
    } else if a.Pop? {
      PopKept(s, a.w);
    } else {
      WorkerKept(s, a.w, a);
    }
  }

  lemma InvStart(capacity: int, throughput: int, producers: nat)
    ensures Inv(Start(capacity, throughput, producers))
  {
    var s := Start(capacity, throughput, producers);
    SumZero(s.producers, Reserved);
    SumZero(s.producers, UserReserved);
  }

  lemma {:induction false} InvRun(s: State, schedule: seq<Action>)
    requires Inv(s)
    ensures Inv(Run(s, schedule))
  {
    if schedule != [] {
      var before := Run(s, schedule[..|schedule| - 1]);
      InvRun(s, schedule[..|schedule| - 1]);
      if Enabled(before, schedule[|schedule| - 1]) {
        InvKept(before, schedule[|schedule| - 1]);
      }
    }
  }

  // ---- Results, for every schedule of any number of producers ----

  /** No push is under way. */
  predicate AllIdle(s: State) {
    forall p :: 0 <= p < |s.producers| ==> s.producers[p].at.Idle?
  }

  /** No producer is inside a push and every worker has returned. */
  predicate Quiescent(s: State) {
    && AllIdle(s)
    && (forall w :: 0 <= w < |s.workers| ==> s.workers[w].Exited?)
  }

  lemma Reached(capacity: int, throughput: int, producers: nat, schedule: seq<Action>)
    ensures Inv(Run(Start(capacity, throughput, producers), schedule))
  {
    InvStart(capacity, throughput, producers);
    InvRun(Start(capacity, throughput, producers), schedule);
  }

  lemma QuiescentIsDone(s: State)
    requires Inv(s) && Quiescent(s)
    ensures s.popped == |s.swapped| && s.messages == 0 && !s.running && s.handled == s.swapped
  {
    assert Counters(s) && HandledOrder(s.swapped, s.popped, s.handled, s.workers);
    SumZero(s.producers, Reserved);
    SumZero(s.producers, WillSchedule);
    SumZero(s.workers, Undecremented);
    SumZero(s.workers, WillRecheck);
    SumZero(s.workers, Owning);
    SumZero(s.workers, Holding);
  }

  /** No lost wakeup: once nobody is in the middle of anything, everything that was
      pushed has been handled, in swap order, and the counter is back to zero. */
  lemma NoLostWakeup(capacity: int, throughput: int, producers: nat, schedule: seq<Action>)
    requires Quiescent(Run(Start(capacity, throughput, producers), schedule))
    ensures var s := Run(Start(capacity, throughput, producers), schedule);
      s.popped == |s.swapped| && s.messages == 0 && !s.running && s.handled == s.swapped
  {
    Reached(capacity, throughput, producers, schedule);
    QuiescentIsDone(Run(Start(capacity, throughput, producers), schedule));
  }

  /** At most one worker is ever between a won compare-and-swap and its store of
      idle, so the queue has one consumer. */
  lemma SingleConsumer(capacity: int, throughput: int, producers: nat, schedule: seq<Action>, v: nat, w: nat)
    requires var s := Run(Start(capacity, throughput, producers), schedule);
      v < |s.workers| && w < |s.workers| && Owning(s.workers[v]) == 1 && Owning(s.workers[w]) == 1
    ensures v == w
  {
    var s := Run(Start(capacity, throughput, producers), schedule);
    assert OneOwner(s) by {
      Reached(capacity, throughput, producers, schedule);
    }
    SoleHolder(s, w);
  }

  /** Messages are handled in swap order, none twice and none skipped, and those of one
      producer in the order it pushed them. */
  lemma HandledInOrder(capacity: int, throughput: int, producers: nat, schedule: seq<Action>)
    ensures var s := Run(Start(capacity, throughput, producers), schedule);
      && s.handled <= s.swapped
      && forall i, j :: 0 <= i < j < |s.handled| && s.handled[i].from == s.handled[j].from ==>
           s.handled[i].no < s.handled[j].no
  {
    var s := Run(Start(capacity, throughput, producers), schedule);
    assert HandledOrder(s.swapped, s.popped, s.handled, s.workers) && ProducerOrder(s.swapped, s.producers) by {
      Reached(capacity, throughput, producers, schedule);
    }
  }

  /** User messages reserved or queued never exceed the capacity, although system
      messages share the counter. */
  lemma CapacityHolds(capacity: int, throughput: int, producers: nat, schedule: seq<Action>)
    ensures var s := Run(Start(capacity, throughput, producers), schedule);
      && s.popped <= |s.swapped|
      && UsersInside(s) <= s.capacity == NormalCapacity(capacity)
      && UsersInside(s) <= s.messages
  {
    var s0 := Start(capacity, throughput, producers);
    assert Counters(Run(s0, schedule)) by {
      Reached(capacity, throughput, producers, schedule);
    }
    CapacityFixed(s0, schedule);
    UsersWithinCounter(Run(s0, schedule));
  }

  lemma {:induction false} CapacityFixed(s: State, schedule: seq<Action>)
    ensures Run(s, schedule).capacity == s.capacity
  {
    if schedule != [] {
      CapacityFixed(s, schedule[..|schedule| - 1]);
    }
  }

  /** A pop that finds nothing means an empty queue, or a producer that has swapped the
      oldest message in and has yet to link it. */
  lemma PopFindsNothing(capacity: int, throughput: int, producers: nat, schedule: seq<Action>, w: nat)
    requires var s := Run(Start(capacity, throughput, producers), schedule);
      Enabled(s, Pop(w)) && Apply(s, Pop(w)).popped == s.popped
    ensures var s := Run(Start(capacity, throughput, producers), schedule);
      || s.popped == |s.swapped|
      || (s.popped < |s.swapped| && s.swapped[s.popped].from < |s.producers|
          && s.producers[s.swapped[s.popped].from].at == Linking(s.popped))
  {
    var s := Run(Start(capacity, throughput, producers), schedule);
    assert LinksPending(s.swapped, s.linked, s.popped, s.producers) by {
      Reached(capacity, throughput, producers, schedule);
    }
  }

  // ---- The queue actions are the linked queue's half push, link and pop ----

  lemma SwapRefines(s: State, p: nat)
    requires s.popped <= |s.swapped| == |s.linked| && Enabled(s, Swap(p))
    ensures var n := Apply(s, Swap(p));
      Queue(n.swapped, n.linked, n.popped) == SwapSpec(Queue(s.swapped, s.linked, s.popped), s.producers[p].at.m)
  {
  }

  lemma LinkRefines(s: State, p: nat)
    requires LinksPending(s.swapped, s.linked, s.popped, s.producers) && Enabled(s, Link(p))
    ensures var n, t := Apply(s, Link(p)), s.producers[p].at.ticket;
      && s.popped <= t
      && Queue(n.swapped, n.linked, n.popped) == LinkSpec(Queue(s.swapped, s.linked, s.popped), t - s.popped)
  {
  }

  lemma PopRefines(s: State, w: nat)
    requires s.popped <= |s.swapped| == |s.linked| && Enabled(s, Pop(w))
    ensures var n := Apply(s, Pop(w));
      && n.popped <= |n.swapped| == |n.linked|
      && (Queue(n.swapped, n.linked, n.popped), if n.workers[w].Popped? then Some(n.workers[w].m) else None)
         == PopSpec(Queue(s.swapped, s.linked, s.popped))
  {
    var q := Queue(s.swapped, s.linked, s.popped);
    if s.popped < |s.swapped| {
      assert q[0] == Slot(s.swapped[s.popped], s.linked[s.popped]);
      assert q[1..] == Queue(s.swapped, s.linked, s.popped + 1);
    }
  }

  // ---- What a push comes to ----

  /** A push rolls back exactly when its message is a user message and the counter that it
      read, system messages included, was at capacity or above; otherwise the message is on
      its way into the queue. */
  lemma AddDecides(s: State, p: nat, kind: Kind)
    requires p < |s.producers| && s.producers[p].at.Idle?
    ensures Enabled(s, Add(p, kind))
    ensures var n, m := Apply(s, Add(p, kind)), Msg(p, s.producers[p].sent, kind);
      && n.messages == s.messages + 1 && n.producers[p].sent == s.producers[p].sent + 1
      && (n.producers[p].at.RollingBack? <==> kind.User? && s.messages >= s.capacity)
      && (!n.producers[p].at.RollingBack? ==> n.producers[p].at == Swapping(m))
      && n == s.(messages := n.messages, producers := s.producers[p := n.producers[p]])
  {
  }

  predicate ByProducer(a: Action, p: nat) {
    (a.Add? || a.RollBack? || a.Swap? || a.Link? || a.Schedule?) && a.p == p
  }

  /** Nobody else moves a producer, so what its first step decided stays decided until its
      own next step. */
  lemma OthersLeaveIt(s: State, a: Action, p: nat)
    requires Enabled(s, a) && !ByProducer(a, p) && p < |s.producers|
    ensures p < |Apply(s, a).producers| && Apply(s, a).producers[p] == s.producers[p]
  {
  }

  /** A push that nobody disturbs, once accepted: the message is last in the queue, linked,
      and exactly an idle mailbox starts a worker. */
  lemma AcceptedAlone(s: State, p: nat, m: Msg)
    requires |s.swapped| == |s.linked| && p < |s.producers| && s.producers[p].at == Swapping(m)
    ensures Enabled(s, Swap(p))
    ensures var n := Apply(s, Swap(p));
      && Enabled(n, Link(p))
      && var n := Apply(n, Link(p));
      && Enabled(n, Schedule(p))
      && Apply(n, Schedule(p)) == s.(
           swapped := s.swapped + [m], linked := s.linked + [true], running := true,
           producers := s.producers[p := Producer(Idle, s.producers[p].sent)],
           workers := if s.running then s.workers else s.workers + [Draining(0)])
  {
    var x := Apply(Apply(s, Swap(p)), Link(p));
    assert x.linked == s.linked + [true];
    var n := Apply(x, Schedule(p));
    assert n.producers == s.producers[p := Producer(Idle, s.producers[p].sent)];
  }

  /** Refused: the counter and everything else are as before, but for the number used up. */
  lemma RefusedAlone(s: State, p: nat)
    requires p < |s.producers| && s.producers[p].at.RollingBack?
    ensures Enabled(s, RollBack(p))
    ensures Apply(s, RollBack(p)) == s.(messages := s.messages - 1,
              producers := s.producers[p := Producer(Idle, s.producers[p].sent)])
  {
  }

  /** What a whole push by p, with nobody else taking a step, leads to. */
  function Pushed(s: State, p: nat, kind: Kind): State
    requires p < |s.producers| && s.producers[p].at.Idle? && |s.swapped| == |s.linked|
  {
    var added := Apply(s, Add(p, kind));
    if added.producers[p].at.RollingBack? then Apply(added, RollBack(p))
    else
      var swapped := Apply(added, Swap(p));
      Apply(Apply(swapped, Link(p)), Schedule(p))
  }

  predicate Accepted(s: State, kind: Kind) { kind.System? || s.messages < s.capacity }

  lemma PushComesTo(s: State, p: nat, kind: Kind)
    requires p < |s.producers| && s.producers[p].at.Idle? && |s.swapped| == |s.linked|
    ensures var x := Producer(Idle, s.producers[p].sent + 1);
      Pushed(s, p, kind) ==
        if Accepted(s, kind) then
          s.(messages := s.messages + 1, producers := s.producers[p := x], running := true,
             swapped := s.swapped + [Msg(p, s.producers[p].sent, kind)], linked := s.linked + [true],
             workers := if s.running then s.workers else s.workers + [Draining(0)])
        else s.(producers := s.producers[p := x])
  {
    AddDecides(s, p, kind);
    var added := Apply(s, Add(p, kind));
    if added.producers[p].at.RollingBack? {
      RefusedAlone(added, p);
    } else {
      AcceptedAlone(added, p, Msg(p, s.producers[p].sent, kind));
    }
  }

  /** In every reachable state: such a push ends with its message last in the queue, and the
      mailbox running, exactly when it is a system message or the counter was below
      capacity; otherwise the counter, the queue and the workers are as before. */
  lemma PushAlone(capacity: int, throughput: int, producers: nat, schedule: seq<Action>, p: nat, kind: Kind)
    requires var s := Run(Start(capacity, throughput, producers), schedule);
      p < |s.producers| && s.producers[p].at.Idle?
    ensures var s := Run(Start(capacity, throughput, producers), schedule);
      && |s.swapped| == |s.linked|
      && var n := Pushed(s, p, kind);
      if kind.System? || s.messages < (if capacity > 0 then capacity else 1024) then
        && n.swapped == s.swapped + [Msg(p, s.producers[p].sent, kind)] && n.linked == s.linked + [true]
        && n.messages == s.messages + 1 && n.running && n.popped == s.popped && n.handled == s.handled
        && n.workers == (if s.running then s.workers else s.workers + [Draining(0)])
      else n == s.(producers := n.producers)
  {
    var s := Run(Start(capacity, throughput, producers), schedule);
    assert CounterExact(s) by {
      Reached(capacity, throughput, producers, schedule);
    }
    CapacityFixed(Start(capacity, throughput, producers), schedule);
    PushComesTo(s, p, kind);
  }

  // ---- What a worker does ----

  /** A worker that nobody disturbs handles the oldest message, and then goes on counting, or
      ends its run if the handler says that the process has closed. */
  lemma HandlesOldest(s: State, w: nat, n: nat, closed: bool)
    requires w < |s.workers| && s.workers[w] == Draining(n) && n < s.throughput
    requires s.popped < |s.swapped| && s.popped < |s.linked| && s.linked[s.popped]
    ensures Enabled(s, Pop(w))
    ensures var popped := Apply(s, Pop(w));
      && Enabled(popped, Decrement(w))
      && var counted := Apply(popped, Decrement(w));
      && Enabled(counted, Invoke(w, closed))
      && Apply(counted, Invoke(w, closed)) == s.(
           popped := s.popped + 1, messages := s.messages - 1, handled := s.handled + [s.swapped[s.popped]],
           workers := s.workers[w := if closed then Storing else Draining(n + 1)])
  {
    var counted := Apply(Apply(s, Pop(w)), Decrement(w));
    assert Apply(counted, Invoke(w, closed)).workers == s.workers[w := if closed then Storing else Draining(n + 1)];
  }

  /** After `throughput` messages, and not before, it yields and counts from 0 again. */
  lemma YieldDecides(s: State, w: nat, n: nat)
    requires w < |s.workers| && s.workers[w] == Draining(n)
    ensures Enabled(s, Yield(w)) <==> n >= s.throughput
    ensures Enabled(s, Pop(w)) <==> n < s.throughput
    ensures n >= s.throughput ==> Apply(s, Yield(w)) == s.(workers := s.workers[w := Draining(0)])
  {
  }

  /** A run that ends leaves the mailbox idle, and returns exactly if the counter is at zero
      then or another worker wins the mailbox before it tries to. */
  lemma RunEnds(s: State, w: nat)
    requires w < |s.workers| && s.workers[w].Storing?
    ensures Enabled(s, Store(w))
    ensures var stored := Apply(s, Store(w));
      && !stored.running && Enabled(stored, Recheck(w))
      && var checked := Apply(stored, Recheck(w));
      && !checked.running && checked.messages == s.messages
      && (checked.workers[w].Exited? <==> s.messages <= 0)
      && (s.messages > 0 ==>
            && Enabled(checked, Recast(w))
            && Apply(checked, Recast(w)) == s.(running := true, workers := s.workers[w := Draining(0)]))
  {
    var checked := Apply(Apply(s, Store(w)), Recheck(w));
    if s.messages > 0 {
      assert Apply(checked, Recast(w)).workers == s.workers[w := Draining(0)];
    }
  }

  lemma LosesRecast(s: State, w: nat)
    requires w < |s.workers| && s.workers[w].Recasting? && s.running
    ensures Enabled(s, Recast(w)) && Apply(s, Recast(w)) == s.(workers := s.workers[w := Exited])
  {
  }
}
