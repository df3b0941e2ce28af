/** The linked multi-producer single-consumer queue.
    A push is two separate atomic actions: the head is swapped first and the old
    head is linked to the new node later, so between the two the chain from the
    tail is broken at that node. */
module Mpsc {
  import opened Wrappers

  /** What the queue holds, oldest first. A slot is `linked` once its
      predecessor's `next` has been stored. */
  datatype Slot<+T> = Slot(val: T, linked: bool)

  function SwapSpec<T>(q: seq<Slot<T>>, x: T): seq<Slot<T>> {
    q + [Slot(x, false)]
  }

  function LinkSpec<T>(q: seq<Slot<T>>, i: nat): seq<Slot<T>>
    requires i < |q|
  {
    q[i := q[i].(linked := true)]
  }

  function PopSpec<T>(q: seq<Slot<T>>): (r: (seq<Slot<T>>, Option<T>)) {
    if q == [] || !q[0].linked then (q, None) else (q[1..], Some(q[0].val))
  }

  class Node<T> {
    var next: Node?<T>
    var val: Option<T>

    constructor (val: Option<T>)
      ensures this.val == val && next == null
    {
      this.val := val;
      next := null;
    }
  }

  class Queue<T> {
    var head: Node<T>
    var tail: Node<T>
    ghost var chain: seq<Node<T>>  // from tail to head, in the order of the head swaps
    ghost var vals: seq<T>  // what the nodes after the tail hold

    ghost predicate Valid()
      reads this, chain
    {
      && |chain| > 0
      && tail == chain[0]
      && head == chain[|chain| - 1]
      && head.next == null
      && (forall i, j :: 0 <= i < j < |chain| ==> chain[i] != chain[j])
      && (forall i {:trigger chain[i].next} :: 0 <= i < |chain| - 1 ==>
            chain[i].next == null || chain[i].next == chain[i + 1])
      && |vals| == |chain| - 1
      && (forall i :: 0 <= i < |vals| ==> chain[i + 1].val == Some(vals[i]))
    }

    /** No push is half done. */
    ghost predicate AllLinked()
      requires Valid()
      reads this, chain
    {
      forall i {:trigger chain[i].next} :: 0 <= i < |chain| - 1 ==> chain[i].next != null
    }

    ghost function Nodes(): set<Node<T>>
      reads this
    {
      set o | o in chain
    }

    ghost function Slots(): (q: seq<Slot<T>>)
      requires Valid()
      reads this, chain
    {
      seq(|vals|, i requires 0 <= i < |vals| < |chain| reads this, chain => Slot(vals[i], chain[i].next != null))
    }

    constructor ()
      ensures Valid() && fresh(chain) && Slots() == [] && vals == []
    {
      var stub := new Node<T>(None);
      head := stub;
      tail := stub;
      chain, vals := [stub], [];
    }

    /** First half of Push: allocate the node and swap the head. */
    method SwapHead(x: T) returns (prev: Node<T>, n: Node<T>)
      requires Valid()
      modifies this
      ensures Valid()
      ensures fresh(n) && chain == old(chain) + [n] && prev == old(head) && prev.next == null
      ensures vals == old(vals) + [x]
      ensures Slots() == SwapSpec(old(Slots()), x)
    {
      n := new Node(Some(x));
      prev := head;
      head := n;
      chain, vals := chain + [n], vals + [x];
    }

    /** Second half of Push: store the new node in its predecessor's `next`. */
    method Link(prev: Node<T>, n: Node<T>, ghost i: nat)
      requires Valid()
      requires i < |chain| - 1 && chain[i] == prev && chain[i + 1] == n
      modifies prev
      ensures Valid() && chain == old(chain) && vals == old(vals) && prev.next == n
      ensures forall o: Node<T> :: o in chain && o != prev ==> o.next == old(o.next)
      ensures Slots() == LinkSpec(old(Slots()), i)
    {
      prev.next := n;
    }

    method Push(x: T)
      requires Valid()
      modifies this, head
      ensures Valid() && fresh(set o | o in chain && o !in old(chain))
      ensures vals == old(vals) + [x] && Slots() == old(Slots()) + [Slot(x, true)]
      ensures old(AllLinked()) ==> AllLinked()
    {
      var prev, n := SwapHead(x);
      Link(prev, n, |chain| - 2);
      assert forall i {:trigger chain[i].next} :: 0 <= i < |chain| - 2 ==> chain[i].next == old(chain[i].next);
    }

    method Pop() returns (v: Option<T>)
      requires Valid()
      modifies this, chain
      ensures Valid()
      ensures v.None? ==> chain == old(chain) && vals == old(vals)
      ensures v.Some? ==> old(tail.next) != null && chain == old(chain)[1..] && old(vals) == [v.value] + vals
      ensures forall o: Node<T> :: o in old(chain) ==> o.next == old(o.next)
      ensures old(AllLinked()) ==> AllLinked() && (v.None? <==> old(vals) == [])
      ensures (Slots(), v) == PopSpec(old(Slots()))
    {
      var next := tail.next;
      if next == null {
        return None;
      }
      assert next == chain[0 + 1] && next.val == Some(vals[0]);
      ghost var before := Slots();
      tail := next;
      v := next.val;
      next.val := None;
      chain, vals := chain[1..], vals[1..];
      assert Slots() == before[1..];
    }

    method Empty() returns (b: bool)
      requires Valid()
      ensures b <==> PopSpec(Slots()).1.None?
    {
      b := tail.next == null;
    }
  }

  /** One atomic action of some goroutine. `LinkIn(k)` lets the k-th push that has
      swapped but not linked continue. */
  datatype Atomic<+T> = SwapIn(x: T) | LinkIn(k: nat) | PopOne

  function SwappedBy<T>(acts: seq<Atomic<T>>): seq<T> {
    if acts == [] then []
    else SwappedBy(acts[..|acts| - 1]) + Entered(acts[|acts| - 1])
  }

  /** Push k, still in progress, sits between positions at[k] and at[k] + 1 of the
      chain, and those two nodes are not linked. */
  ghost predicate InProgress<T>(q: Queue<T>, pushes: seq<(Node<T>, Node<T>)>, at: seq<int>)
    reads q, q.chain
  {
    && |at| == |pushes|
    && (forall j, k :: 0 <= j < k < |at| ==> at[j] != at[k])
    && (forall k :: 0 <= k < |at| ==> 0 <= at[k] < |q.chain| - 1)
    && (forall k :: 0 <= k < |at| ==>
          && q.chain[at[k]] == pushes[k].0
          && q.chain[at[k] + 1] == pushes[k].1
          && q.chain[at[k]].next == null)
  }

  function ToSeq<T>(o: Option<T>): seq<T> {
    if o.Some? then [o.value] else []
  }

  function Entered<T>(a: Atomic<T>): seq<T> {
    if a.SwapIn? then [a.x] else []
  }

  method ContinueLink<T>(q: Queue<T>, k: nat, pushes: seq<(Node<T>, Node<T>)>, ghost at: seq<int>)
    returns (pushes': seq<(Node<T>, Node<T>)>, ghost at': seq<int>)
    requires q.Valid() && InProgress(q, pushes, at) && k < |pushes|
    modifies q.chain
    ensures q.Valid() && InProgress(q, pushes', at') && q.chain == old(q.chain)
    ensures q.vals == old(q.vals)
  {
    q.Link(pushes[k].0, pushes[k].1, at[k]);
    pushes', at' := pushes[..k] + pushes[k + 1..], at[..k] + at[k + 1..];
  }

  method PopBetween<T>(q: Queue<T>, pushes: seq<(Node<T>, Node<T>)>, ghost at: seq<int>)
    returns (ghost at': seq<int>, out: Option<T>)
    requires q.Valid() && InProgress(q, pushes, at)
    modifies q, q.chain
    ensures q.Valid() && InProgress(q, pushes, at')
    ensures forall o :: o in q.chain ==> o in old(q.chain)
    ensures ToSeq(out) + q.vals == old(q.vals)
  {
    out := q.Pop();
    at' := at;
    if out.Some? {
      assert forall k :: 0 <= k < |at| ==> at[k] > 0;
      at' := seq(|at|, k requires 0 <= k < |at| => at[k] - 1);
      assert forall k :: 0 <= k < |at| ==>
        q.chain[at'[k]] == old(q.chain)[at[k]] && q.chain[at'[k] + 1] == old(q.chain)[at[k] + 1];
    }
  }

  method Act<T>(q: Queue<T>, a: Atomic<T>, pushes: seq<(Node<T>, Node<T>)>, ghost at: seq<int>)
    returns (pushes': seq<(Node<T>, Node<T>)>, ghost at': seq<int>, out: Option<T>)
    requires q.Valid() && InProgress(q, pushes, at)
    modifies q, q.chain
    ensures q.Valid() && InProgress(q, pushes', at')
    ensures fresh(set o | o in q.chain && o !in old(q.chain))
    ensures ToSeq(out) + q.vals == old(q.vals) + Entered(a)
  {
    pushes', at', out := pushes, at, None;
    match a
    case SwapIn(x) =>
      var prev, n := q.SwapHead(x);
      pushes', at' := pushes + [(prev, n)], at + [|q.chain| - 2];
    case LinkIn(k) =>
      if k < |pushes| {
        pushes', at' := ContinueLink(q, k, pushes, at);
      }
    case PopOne =>
      at', out := PopBetween(q, pushes, at);
  }

  /** Any interleaving of half pushes with pops, on the linked nodes themselves:
      what comes out, followed by what is left, is what went in, in swap order. */
  method Interleave<T>(q: Queue<T>, acts: seq<Atomic<T>>) returns (popped: seq<T>)
    requires q.Valid()
    modifies q, q.chain
    ensures q.Valid()
    ensures popped + q.vals == old(q.vals) + SwappedBy(acts)
  {
    popped := [];
    var pushes: seq<(Node<T>, Node<T>)> := [];
    ghost var at: seq<int> := [];
    for a := 0 to |acts|
      invariant q.Valid() && InProgress(q, pushes, at)
      invariant fresh(set o | o in q.chain && o !in old(q.chain))
      invariant popped + q.vals == old(q.vals) + SwappedBy(acts[..a])
    {
      ghost var vals := q.vals;
      var out;
      pushes, at, out := Act(q, acts[a], pushes, at);
      Account(popped, ToSeq(out), q.vals, vals, Entered(acts[a]), old(q.vals), SwappedBy(acts[..a]));
      popped := popped + ToSeq(out);
      assert acts[..a + 1][..a] == acts[..a];
    }
    assert acts[..|acts|] == acts;
  }

  lemma Account<T>(popped: seq<T>, out: seq<T>, after: seq<T>, before: seq<T>, entered: seq<T>, start: seq<T>,
      past: seq<T>)
    requires popped + before == start + past
    requires out + after == before + entered
    ensures popped + out + after == start + (past + entered)
  {
    assert popped + out + after == popped + (out + after) == (popped + before) + entered;
  }
}
