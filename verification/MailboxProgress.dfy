/** Workers come to an end: once no producer is inside a push, only so many worker steps are
    left, in whatever order they are taken, and they handle all there is. */
module MailboxProgress {
  import opened Counting
  import opened Mailbox

  /** Worker steps, each enabled where it is taken. */
  predicate WorkersOnly(s: State, steps: seq<Action>)
    decreases |steps|
  {
    steps == [] || (WorkerAction(steps[0]) && Enabled(s, steps[0]) && WorkersOnly(Apply(s, steps[0]), steps[1..]))
  }

  /** The state they end in. */
  function After(s: State, steps: seq<Action>): State
    requires WorkersOnly(s, steps)
    decreases |steps|
  {
    if steps == [] then s else After(Apply(s, steps[0]), steps[1..])
  }

  // ---- How much work is left ----

  /** An upper bound on the steps a worker still takes for itself, besides those for the
      messages still queued. Finding the counter at zero ends it; a positive counter
      sends it round again. */
  function Weight(busy: bool, throughput: int): Worker -> nat {
    (w: Worker) =>
      match w
      case Draining(processed) => if processed >= throughput then 4 else 3
      case Popped(_, _) => 9
      case Invoking(_, _) => 8
      case Storing => if busy then 7 else 2
      case Rechecking => if busy then 6 else 1
      case Recasting => 5
      case Exited => 0
  }

  function Left(s: State): nat
    requires s.popped <= |s.swapped|
  {
    7 * (|s.swapped| - s.popped) + Sum(s.workers, Weight(s.messages > 0, s.throughput))
  }

  /** A step of one worker to x weighs what the worker did before, less what it does now. */
  lemma Moved(s: State, n: State, w: nat, x: Worker)
    requires s.popped <= |s.swapped| && n.popped <= |n.swapped| == |s.swapped|
    requires w < |s.workers| && n.workers == s.workers[w := x] && n.throughput == s.throughput
    requires n.messages > 0 ==> s.messages > 0
    ensures var busy, t := s.messages > 0, s.throughput;
      Left(n) + Weight(busy, t)(s.workers[w]) + 7 * n.popped <= Left(s) + Weight(busy, t)(x) + 7 * s.popped
  {
    var before, after := Weight(s.messages > 0, s.throughput), Weight(n.messages > 0, n.throughput);
    SumUpdate(s.workers, w, x, before);
    SumBelow(n.workers, after, before);
  }

  /** The queue is linked through, and a worker that finds it empty finds no count either. */
  lemma PopDecides(s: State, w: nat)
    requires Inv(s) && AllIdle(s) && Enabled(s, Pop(w))
    ensures var n := Apply(s, Pop(w));
      if s.popped < |s.swapped| then n.popped == s.popped + 1 && n.workers[w].Popped?
      else n.popped == s.popped && n.workers[w].Storing? && s.messages == 0
  {
    if s.popped == |s.swapped| {
      SoleHolder(s, w);
      SumZero(s.producers, Reserved);
      SumZero(s.workers, Undecremented);
    }
  }

  lemma PopProgresses(s: State, w: nat)
    requires Inv(s) && AllIdle(s) && s.throughput > 0 && Enabled(s, Pop(w))
    ensures Left(Apply(s, Pop(w))) < Left(s)
  {
    var n := Apply(s, Pop(w));
    PopDecides(s, w);
    Moved(s, n, w, n.workers[w]);
  }

  lemma OtherProgresses(s: State, a: Action)
    requires Inv(s) && s.throughput > 0 && WorkerAction(a) && !a.Pop? && Enabled(s, a)
    ensures Left(Apply(s, a)) < Left(s)
  {
    var n := Apply(s, a);
    Moved(s, n, a.w, n.workers[a.w]);
  }

  /** Each worker step leaves less to do. */
  lemma Progresses(s: State, a: Action)
    requires Inv(s) && AllIdle(s) && s.throughput > 0 && WorkerAction(a) && Enabled(s, a)
    ensures var n := Apply(s, a); Left(n) < Left(s) && AllIdle(n) && n.throughput == s.throughput
  {
    if a.Pop? {
      PopProgresses(s, a.w);
    } else {
      OtherProgresses(s, a);
    }
  }

  lemma {:induction false} StepsBounded(s: State, steps: seq<Action>)
    requires Inv(s) && AllIdle(s) && s.throughput > 0 && WorkersOnly(s, steps)
    ensures Inv(After(s, steps)) && AllIdle(After(s, steps))
    ensures |steps| + Left(After(s, steps)) <= Left(s)
    decreases |steps|
  {
    if steps != [] {
      InvKept(s, steps[0]);
      Progresses(s, steps[0]);
      StepsBounded(Apply(s, steps[0]), steps[1..]);
    }
  }

  lemma {:induction false} LeftBelow(workers: seq<Worker>, busy: bool, throughput: int)
    ensures Sum(workers, Weight(busy, throughput)) <= 9 * |workers|
  {
    if workers != [] {
      LeftBelow(workers[..|workers| - 1], busy, throughput);
    }
  }

  /** A worker that has not returned always has a step. */
  lemma StuckIsQuiescent(s: State)
    requires AllIdle(s) && forall a :: WorkerAction(a) ==> !Enabled(s, a)
    ensures Quiescent(s)
  {
    forall w | 0 <= w < |s.workers| ensures s.workers[w].Exited? {
      assert !Enabled(s, Yield(w)) && !Enabled(s, Pop(w)) && !Enabled(s, Decrement(w)) && !Enabled(s, Invoke(w, false));
      assert !Enabled(s, Store(w)) && !Enabled(s, Recheck(w)) && !Enabled(s, Recast(w));
    }
  }

  lemma {:induction false} ThroughputFixed(s: State, schedule: seq<Action>)
    ensures Run(s, schedule).throughput == s.throughput
  {
    if schedule != [] {
      ThroughputFixed(s, schedule[..|schedule| - 1]);
    }
  }

  // ---- Results ----

  /** With a positive throughput, from any state in which no push is under way: however the
      workers are scheduled, they take no more steps than the queue and their number allow,
      and when none of them has a step left, everything pushed has been handled in order. */
  lemma EverythingHandled(capacity: int, throughput: int, producers: nat, schedule: seq<Action>, steps: seq<Action>)
    requires var s := Run(Start(capacity, throughput, producers), schedule);
      throughput > 0 && AllIdle(s) && WorkersOnly(s, steps)
    ensures var s := Run(Start(capacity, throughput, producers), schedule);
      && |steps| <= 7 * (|s.swapped| - s.popped) + 9 * |s.workers|
      && var n := After(s, steps);
      && n.swapped == s.swapped
      && ((forall a :: WorkerAction(a) ==> !Enabled(n, a)) ==>
            Quiescent(n) && n.handled == n.swapped && n.messages == 0 && !n.running)
  {
    var s0 := Start(capacity, throughput, producers);
    var s := Run(s0, schedule);
    assert Inv(s) by {
      Reached(capacity, throughput, producers, schedule);
    }
    ThroughputFixed(s0, schedule);
    StepsBounded(s, steps);
    LeftBelow(s.workers, s.messages > 0, s.throughput);
    SwappedFixed(s, steps);
    var n := After(s, steps);
    if forall a :: WorkerAction(a) ==> !Enabled(n, a) {
      StuckIsQuiescent(n);
      QuiescentIsDone(n);
    }
  }

  lemma {:induction false} SwappedFixed(s: State, steps: seq<Action>)
    requires WorkersOnly(s, steps)
    ensures After(s, steps).swapped == s.swapped
    decreases |steps|
  {
    if steps != [] {
      SwappedFixed(Apply(s, steps[0]), steps[1..]);
    }
  }

  predicate NothingTaken(s: State) {
    && s.throughput <= 0 && s.popped == 0 && s.handled == []
    && forall w :: 0 <= w < |s.workers| ==> s.workers[w] == Draining(0)
  }

  lemma StillNothing(s: State, a: Action)
    requires NothingTaken(s) && Enabled(s, a)
    ensures NothingTaken(Apply(s, a))
  {
  }

  /** With any other throughput no run handles a message: a worker yields for ever. */
  lemma {:induction false} NothingHandled(capacity: int, throughput: int, producers: nat, schedule: seq<Action>)
    requires throughput <= 0
    ensures NothingTaken(Run(Start(capacity, throughput, producers), schedule))
  {
    if schedule != [] {
      NothingHandled(capacity, throughput, producers, schedule[..|schedule| - 1]);
      var s := Run(Start(capacity, throughput, producers), schedule[..|schedule| - 1]);
      if Enabled(s, schedule[|schedule| - 1]) {
        StillNothing(s, schedule[|schedule| - 1]);
      }
    }
  }
}
