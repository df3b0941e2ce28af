/** The mailbox's own calls, each run to its end without another goroutine in between,
    on the linked queue itself. Module Mailbox takes the same calls apart into atomic
    steps and interleaves them. */
module MailboxCalls {
  import opened Wrappers
  import opened Mpsc
  import opened Mailbox

  lemma Associates<N>(a: seq<N>, b: seq<N>, c: seq<N>)
    ensures a + b + c == a + (b + c)
  {
  }

  class Box<T> {
    const capacity: int
    const throughput: int
    var queue: Queue<T>
    var messages: int
    var running: bool

    /** No push is half done and nobody is between a pop and its decrement. */
    ghost predicate Settled()
      reads this, queue, queue.Nodes()
    {
      queue.Valid() && queue.AllLinked() && messages == |queue.vals|
    }

    constructor (capacity: int, throughput: int)
      ensures Settled() && queue.vals == [] && !running && fresh(queue) && fresh(queue.chain)
      ensures this.capacity == (if capacity > 0 then capacity else 1024)
      ensures this.capacity == NormalCapacity(capacity) && this.throughput == throughput
    {
      this.capacity := NormalCapacity(capacity);
      this.throughput := throughput;
      queue := new Queue();
      messages := 0;
      running := false;
    }

    /** Refused exactly when the counter, system messages included, is at capacity.
        `dispatched` says whether this push starts a worker. */
    method PushUser(x: T) returns (accepted: bool, dispatched: bool)
      requires Settled()
      modifies this`messages, this`running, queue, queue.head
      ensures Settled() && fresh(set o | o in queue.chain && o !in old(queue.chain))
      ensures accepted <==> old(messages) < capacity
      ensures queue.vals == if accepted then old(queue.vals) + [x] else old(queue.vals)
      ensures dispatched <==> accepted && !old(running)
      ensures running == (old(running) || accepted)
    {
      messages := messages + 1;
      if messages > capacity {
        messages := messages - 1;
        return false, false;
      }
      queue.Push(x);
      dispatched := CompareAndRun();
      accepted := true;
    }

    method PushSystem(x: T) returns (dispatched: bool)
      requires Settled()
      modifies this`messages, this`running, queue, queue.head
      ensures Settled() && fresh(set o | o in queue.chain && o !in old(queue.chain))
      ensures queue.vals == old(queue.vals) + [x]
      ensures running && dispatched == !old(running)
    {
      messages := messages + 1;
      queue.Push(x);
      dispatched := CompareAndRun();
    }

    method CompareAndRun() returns (won: bool)
      modifies this`running
      ensures won == !old(running) && running
    {
      won := !running;
      running := true;
    }

    /** A dispatched worker handles everything queued, in order, however often the
        handler says that the process has closed, and leaves the mailbox idle. */
    method ProcessMessages() returns (handled: seq<T>)
      requires Settled() && running && throughput > 0
      modifies this`messages, this`running, queue, queue.Nodes()
      ensures Settled() && !running
      ensures handled == old(queue.vals) && queue.vals == []
    {
      handled := [];
      var again := true;
      while again
        invariant Settled() && running == again
        invariant queue == old(queue) && queue.Nodes() <= old(queue.Nodes())
        invariant handled + queue.vals == old(queue.vals)
        invariant !again ==> queue.vals == []
        decreases |queue.vals|, again
      {
        var some;
        some, again := Round();
        Associates(handled, some, queue.vals);
        handled := handled + some;
      }
    }

    /** One turn of the worker's loop: run, store idle, and look at the counter again. */
    method Round() returns (some: seq<T>, again: bool)
      requires Settled() && running && throughput > 0
      modifies this`messages, this`running, queue, queue.Nodes()
      ensures Settled() && queue.Nodes() <= old(queue.Nodes())
      ensures some + queue.vals == old(queue.vals) && (old(queue.vals) != [] ==> some != [])
      ensures running == again == (queue.vals != [])
    {
      some := Drain();
      running := false;
      again := messages > 0;
      if again {
        running := true;
      }
    }

    method Take() returns (v: Option<T>)
      requires Settled()
      modifies this`messages, queue, queue.Nodes()
      ensures Settled()
      ensures queue.Nodes() <= old(queue.Nodes())
      ensures if old(queue.vals) == [] then v.None? && queue.vals == []
              else v.Some? && [v.value] + queue.vals == old(queue.vals)
    {
      v := queue.Pop();
      if v.Some? {
        messages := messages - 1;
      }
    }

    /** One run: pop until the queue is empty or the handler says it has closed,
        starting the count of processed messages again at every throughput. */
    method Drain() returns (handled: seq<T>)
      requires Settled() && throughput > 0
      modifies this`messages, queue, queue.Nodes()
      ensures Settled()
      ensures handled + queue.vals == old(queue.vals)
      ensures old(queue.vals) != [] ==> handled != []
      ensures queue.Nodes() <= old(queue.Nodes())
    {
      handled := [];
      var processed := 0;
      while true
        invariant Settled()
        invariant queue == old(queue) && queue.Nodes() <= old(queue.Nodes())
        invariant handled + queue.vals == old(queue.vals)
        decreases |queue.vals|, if processed >= throughput then 1 else 0
      {
        if processed >= throughput {
          processed := 0;
          continue;
        }
        processed := processed + 1;
        var v := Take();
        if v.None? {
          return;
        }
        handled := handled + [v.value];
        var closed := *;
        if closed {
          return;
        }
      }
    }
  }
}
