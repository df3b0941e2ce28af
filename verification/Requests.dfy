/** The table of pending Ask requests. Each method of the class is one section under the
    table's mutex plus the callbacks it runs after releasing it; the transition system
    below lets any number of goroutines interleave those sections and callbacks. */
module Requests {
  import opened Wrappers
  import opened Maps
  import opened Counting
  import opened Refs

  const ID_COUNT: nat := 0x1_0000_0000_0000_0000  // request ids are 64-bit and wrap
  const DEFAULT_MAX: nat := 65536

  datatype AddError = Closed | LimitReached

  /** What the mutex protects; pending maps a request id to its target node. */
  datatype Table = Table(pending: map<nat, NodeId>, lastId: nat, closed: bool, max: nat)

  function NormalMax(max: int): (m: nat)
    ensures m > 0
  {
    if max <= 0 then DEFAULT_MAX else max
  }

  function NextId(t: Table): nat {
    (t.lastId + 1) % ID_COUNT
  }

  function AddSpec(t: Table, target: NodeId): Result<Table, AddError> {
    if t.closed then Err(Closed)
    else if |t.pending| >= t.max then Err(LimitReached)
    else Ok(t.(lastId := NextId(t), pending := t.pending[NextId(t) := target]))
  }

  function RemoveSpec(t: Table, id: nat): Table {
    t.(pending := t.pending - {id})
  }

  function RetargetSpec(t: Table, id: nat, target: NodeId): Table {
    if target != "" && id in t.pending then t.(pending := t.pending[id := target]) else t
  }

  function StopSpec(t: Table): Table {
    if t.closed then t else t.(closed := true, pending := map[])
  }

  datatype Answer<+V> = Value(v: V) | Failed | Timeout | ManagerClosed

  /** The callbacks of a stop, in the order it visits the ids. */
  function Closings<V>(ids: seq<nat>): seq<(nat, Answer<V>)> {
    seq(|ids|, i requires 0 <= i < |ids| => (ids[i], ManagerClosed))
  }

  class RequestManager<V> {
    var pending: map<nat, NodeId>
    var lastId: nat
    var closed: bool
    const max: nat
    var called: seq<(nat, Answer<V>)>  // the completion callbacks run so far

    ghost predicate Valid()
      reads this
    {
      0 < max && |pending| <= max && (closed ==> pending == map[])
    }

    function Shared(): Table
      reads this
    {
      Table(pending, lastId, closed, max)
    }

    /** `seed` is the random starting point of the ids. */
    constructor (maxPending: int, seed: nat)
      requires seed < ID_COUNT
      ensures Valid() && Shared() == Table(map[], seed, false, NormalMax(maxPending)) && called == []
      ensures max == if maxPending > 0 then maxPending else 65536
    {
      pending, lastId, closed, called := map[], seed, false, [];
      max := NormalMax(maxPending);
    }

    method Add(target: NodeId) returns (r: Result<nat, AddError>)
      requires Valid()
      modifies this`pending, this`lastId
      ensures Valid()
      ensures match AddSpec(old(Shared()), target)
        case Err(e) => r == Err(e) && Shared() == old(Shared())
        case Ok(t) => r == Ok(t.lastId) && Shared() == t
      ensures r == Err(Closed) <==> old(closed)
      ensures r == Err(LimitReached) <==> !old(closed) && |old(pending)| >= max
      ensures r.Ok? ==> r.value == lastId == (old(lastId) + 1) % 0x1_0000_0000_0000_0000
      ensures pending == if r.Ok? then old(pending)[r.value := target] else old(pending)
    {
      if closed {
        return Err(Closed);
      }
      if |pending| >= max {
        return Err(LimitReached);
      }
      lastId := (lastId + 1) % ID_COUNT;
      SizePut(pending, lastId, target);
      pending := pending[lastId := target];
      return Ok(lastId);
    }

    method Remove(id: nat) returns (found: bool)
      requires Valid()
      modifies this`pending
      ensures Valid() && Shared() == RemoveSpec(old(Shared()), id)
      ensures found <==> id in old(pending)
      ensures pending == old(pending) - {id}
    {
      found := id in pending;
      SizeDrop(pending, id);
      pending := pending - {id};
    }

    /** Runs the callback exactly when the id was still pending. */
    method Complete(id: nat, answer: Answer<V>) returns (found: bool)
      requires Valid()
      modifies this`pending, this`called
      ensures Valid() && Shared() == RemoveSpec(old(Shared()), id)
      ensures found <==> id in old(pending)
      ensures pending == old(pending) - {id}
      ensures called == old(called) + if found then [(id, answer)] else []
    {
      found := Remove(id);
      if found {
        called := called + [(id, answer)];
      }
    }

    method Retarget(id: nat, target: NodeId)
      requires Valid()
      modifies this`pending
      ensures Valid() && Shared() == RetargetSpec(old(Shared()), id, target)
      ensures pending.Keys == old(pending.Keys)
      ensures id in pending && target != "" ==> pending[id] == target
      ensures forall k :: k in pending && (k != id || target == "") ==> pending[k] == old(pending)[k]
    {
      if target == "" {
        return;
      }
      if id in pending {
        SizePut(pending, id, target);
        pending := pending[id := target];
      }
    }

    /** Closes the table and then answers everything that was pending, each once. */
    method Stop() returns (ghost order: seq<nat>)
      requires Valid()
      modifies this`pending, this`closed, this`called
      ensures Valid() && Shared() == StopSpec(old(Shared()))
      ensures closed && pending == map[]
      ensures called == old(called) + Closings(order)
      ensures Distinct(order) && (forall id :: id in order <==> id in old(pending) && !old(closed))
    {
      order := [];
      if closed {
        return;
      }
      closed := true;
      var completions := pending.Keys;
      pending := map[];
      while completions != {}
        invariant closed && pending == map[]
        invariant Distinct(order)
        invariant forall id :: id in old(pending) <==> id in completions || id in order
        invariant forall id :: id in order ==> id !in completions
        invariant called == old(called) + Closings(order)
        decreases completions
      {
        var id :| id in completions;
        completions := completions - {id};
        called := called + [(id, ManagerClosed)];
        assert Closings<V>(order + [id]) == Closings<V>(order) + [(id, ManagerClosed)];
        order := order + [id];
      }
    }
  }

  // ---- Any interleaving of the sections with the callbacks they leave to run ----

  datatype Fate = Replied | TimedOut | Withdrawn | StoppedWith

  datatype World = World(
    table: Table,
    issued: seq<nat>,       // ids handed out, in order
    fate: map<nat, Fate>,   // how each id left the table
    due: set<nat>,          // out of the table, callback not run yet
    ran: seq<nat>)          // callbacks run, in order

  datatype Action =
    | Ask(target: NodeId)
    | Reply(id: nat)            // complete, called with an answer
    | Expire(id: nat)           // complete, called by the timer
    | Withdraw(id: nat)         // remove, called when the send has failed
    | Retarget(id: nat, target: NodeId)
    | Stop
    | RunCallback(id: nat)

  function Begin(max: int, seed: nat): World {
    World(Table(map[], seed, false, NormalMax(max)), [], map[], {}, [])
  }

  function Leave(w: World, id: nat, fate: Fate): World {
    if id !in w.table.pending then w
    else w.(table := RemoveSpec(w.table, id), fate := w.fate[id := fate],
            due := if fate == Withdrawn then w.due else w.due + {id})
  }

  function Apply(w: World, a: Action): World {
    match a
    case Ask(target) =>
      (match AddSpec(w.table, target)
       case Err(_) => w
       case Ok(t) => w.(table := t, issued := w.issued + [t.lastId]))
    case Reply(id) => Leave(w, id, Replied)
    case Expire(id) => Leave(w, id, TimedOut)
    case Withdraw(id) => Leave(w, id, Withdrawn)
    case Retarget(id, target) => w.(table := RetargetSpec(w.table, id, target))
    case Stop =>
      w.(table := StopSpec(w.table),
         fate := if w.table.closed then w.fate else w.fate + map id | id in w.table.pending :: StoppedWith,
         due := if w.table.closed then w.due else w.due + w.table.pending.Keys)
    case RunCallback(id) => if id in w.due then w.(due := w.due - {id}, ran := w.ran + [id]) else w
  }

  function Run(w: World, schedule: seq<Action>): World {
    if schedule == [] then w else Apply(Run(w, schedule[..|schedule| - 1]), schedule[|schedule| - 1])
  }

  predicate Numbered(w: World, seed: nat) {
    && w.table.lastId == (seed + |w.issued|) % ID_COUNT
    && (forall k :: 0 <= k < |w.issued| ==> w.issued[k] == (seed + k + 1) % ID_COUNT)
  }

  ghost predicate Accounted(w: World) {
    && (forall id :: id in w.issued <==> id in w.table.pending || id in w.fate)
    && w.table.pending.Keys !! w.fate.Keys
    && (forall id :: id in w.fate && w.fate[id] != Withdrawn <==> id in w.due || id in w.ran)
    && (forall id :: id in w.due ==> id !in w.ran)
    && Distinct(w.ran)
    && |w.table.pending| <= w.table.max
    && (w.table.closed ==> w.table.pending == map[])
  }

  lemma NextIdIsNew(w: World, seed: nat)
    requires Numbered(w, seed) && |w.issued| < ID_COUNT
    ensures NextId(w.table) == (seed + |w.issued| + 1) % ID_COUNT
    ensures NextId(w.table) !in w.issued
  {
    ModAddOne(seed + |w.issued|);
    forall k | 0 <= k < |w.issued|
      ensures w.issued[k] != NextId(w.table)
    {
      ModDistinct(seed + k + 1, seed + |w.issued| + 1);
    }
  }

  lemma ModAddOne(x: nat)
    ensures (x % ID_COUNT + 1) % ID_COUNT == (x + 1) % ID_COUNT
  {
  }

  lemma ModDistinct(x: nat, y: nat)
    requires x < y < x + ID_COUNT
    ensures x % ID_COUNT != y % ID_COUNT
  {
  }

  lemma NumberedKept(w: World, seed: nat, a: Action)
    requires Numbered(w, seed) && |w.issued| < ID_COUNT
    ensures Numbered(Apply(w, a), seed)
  {
    if a.Ask? {
      NextIdIsNew(w, seed);
    }
  }

  lemma AskKept(w: World, target: NodeId)
    requires Accounted(w) && NextId(w.table) !in w.issued
    ensures Accounted(Apply(w, Ask(target)))
  {
    SizePut(w.table.pending, NextId(w.table), target);
  }

  lemma LeaveKept(w: World, id: nat, fate: Fate)
    requires Accounted(w)
    ensures Accounted(Leave(w, id, fate))
  {
    SizeDrop(w.table.pending, id);
  }

  lemma RetargetKept(w: World, id: nat, target: NodeId)
    requires Accounted(w)
    ensures Accounted(Apply(w, Retarget(id, target)))
  {
    if id in w.table.pending {
      SizePut(w.table.pending, id, target);
    }
  }

  lemma StopKept(w: World)
    requires Accounted(w)
    ensures Accounted(Apply(w, Stop))
  {
    if !w.table.closed {
      Merged(w.fate, w.table.pending);
      StoppedAccounts(w, w.fate + map id | id in w.table.pending :: StoppedWith);
    }
  }

  lemma StoppedAccounts(w: World, fate: map<nat, Fate>)
    requires Accounted(w) && !w.table.closed
    requires forall id :: id in fate <==> id in w.fate || id in w.table.pending
    requires forall id :: id in w.fate ==> fate[id] == w.fate[id]
    requires forall id :: id in w.table.pending ==> fate[id] == StoppedWith
    ensures Accounted(w.(table := StopSpec(w.table), fate := fate, due := w.due + w.table.pending.Keys))
  {
  }

  lemma Merged(fate: map<nat, Fate>, pending: map<nat, NodeId>)
    requires pending.Keys !! fate.Keys
    ensures var m := fate + map id | id in pending :: StoppedWith;
      && (forall id :: id in m <==> id in fate || id in pending)
      && (forall id :: id in fate ==> m[id] == fate[id])
      && (forall id :: id in pending ==> m[id] == StoppedWith)
  {
  }

  lemma RunCallbackKept(w: World, id: nat)
    requires Accounted(w)
    ensures Accounted(Apply(w, RunCallback(id)))
  {
  }

  lemma AccountedKept(w: World, a: Action)
    requires Accounted(w) && NextId(w.table) !in w.issued
    ensures Accounted(Apply(w, a)) && Apply(w, a).table.max == w.table.max
  {
    match a
    case Ask(target) => AskKept(w, target);
    case Reply(id) => LeaveKept(w, id, Replied);
    case Expire(id) => LeaveKept(w, id, TimedOut);
    case Withdraw(id) => LeaveKept(w, id, Withdrawn);
    case Retarget(id, target) => RetargetKept(w, id, target);
    case Stop => StopKept(w);
    case RunCallback(id) => RunCallbackKept(w, id);
  }

  /** Fewer ids were handed out than there are. */
  predicate FewIds(w: World) { |w.issued| < ID_COUNT }

  lemma {:induction false} InvRun(max: int, seed: nat, schedule: seq<Action>)
    requires seed < ID_COUNT && FewIds(Run(Begin(max, seed), schedule))
    ensures var w := Run(Begin(max, seed), schedule);
      Numbered(w, seed) && Accounted(w) && w.table.max == NormalMax(max)
  {
    if schedule != [] {
      var a := schedule[|schedule| - 1];
      var w := Run(Begin(max, seed), schedule[..|schedule| - 1]);
      assert w.issued <= Apply(w, a).issued;
      InvRun(max, seed, schedule[..|schedule| - 1]);
      NextIdIsNew(w, seed);
      NumberedKept(w, seed, a);
      AccountedKept(w, a);
    }
  }

  /** An Ask is refused without a trace exactly by a closed or full table; otherwise the next
      id is handed out and pending for its target. */
  lemma AskDecides(w: World, target: NodeId)
    ensures var w', id := Apply(w, Ask(target)), (w.table.lastId + 1) % 0x1_0000_0000_0000_0000;
      if w.table.closed || |w.table.pending| >= w.table.max then w' == w
      else && w'.issued == w.issued + [id] && w'.table.pending == w.table.pending[id := target]
           && w'.table.lastId == id && w'.fate == w.fate && w'.due == w.due && w'.ran == w.ran
           && w'.table.max == w.table.max && !w'.table.closed
  {
  }

  /** A pending id leaves by the first reply, expiry, withdrawal or stop, with that fate, and
      its callback is then owed unless it was withdrawn; an owed callback can run, once. */
  lemma LeavesOnce(w: World, id: nat, a: Action, fate: Fate)
    requires Accounted(w) && id in w.table.pending
    requires (a == Reply(id) && fate == Replied) || (a == Expire(id) && fate == TimedOut)
          || (a == Withdraw(id) && fate == Withdrawn) || (a == Stop && fate == StoppedWith)
    ensures var w' := Apply(w, a);
      && id !in w'.table.pending && id in w'.fate && w'.fate[id] == fate
      && (id in w'.due <==> fate != Withdrawn) && (w'.table.closed <==> a == Stop)
      && (fate != Withdrawn ==>
            var x := Apply(w', RunCallback(id));
            x.ran == w'.ran + [id] && id !in x.due && Apply(x, RunCallback(id)) == x)
  {
    if a == Stop {
      assert !w.table.closed;
      Merged(w.fate, w.table.pending);
    }
  }

  /** A reply that was retargeted is still awaited, from the new node. */
  lemma RetargetDecides(w: World, id: nat, target: NodeId)
    requires id in w.table.pending && target != ""
    ensures var w' := Apply(w, Retarget(id, target));
      w' == w.(table := w'.table) && w'.table.pending == w.table.pending[id := target]
      && w'.table.lastId == w.table.lastId
  {
  }

  function Times(id: nat, log: seq<nat>): nat {
    multiset(log)[id]
  }

  lemma IssuedDistinct(w: World, seed: nat)
    requires Numbered(w, seed) && |w.issued| < ID_COUNT
    ensures Distinct(w.issued)
  {
    forall i, j | 0 <= i < j < |w.issued|
      ensures w.issued[i] != w.issued[j]
    {
      ModDistinct(seed + i + 1, seed + j + 1);
    }
  }

  /** Every id handed out is either still pending or has exactly one fate, its callback
      has run at most once and never for a withdrawn one, and the table keeps its bound. */
  lemma Conservation(max: int, seed: nat, schedule: seq<Action>)
    requires seed < ID_COUNT && FewIds(Run(Begin(max, seed), schedule))
    ensures var w := Run(Begin(max, seed), schedule);
      && Distinct(w.issued)
      && |w.table.pending| <= NormalMax(max)
      && forall id :: id in w.issued ==>
          && (id in w.table.pending <==> id !in w.fate)
          && Times(id, w.ran) == (if id in w.fate && w.fate[id] != Withdrawn && id !in w.due then 1 else 0)
  {
    var w := Run(Begin(max, seed), schedule);
    assert Accounted(w) && Distinct(w.issued) && w.table.max == NormalMax(max) by {
      InvRun(max, seed, schedule);
      IssuedDistinct(w, seed);
    }
    forall id
      ensures Times(id, w.ran) == if id in w.ran then 1 else 0
    {
      DistinctOnce(id, w.ran);
    }
  }

  lemma {:induction false} DistinctOnce(id: nat, log: seq<nat>)
    requires Distinct(log)
    ensures Times(id, log) == if id in log then 1 else 0
  {
    if log != [] {
      var last := |log| - 1;
      DistinctOnce(id, log[..last]);
      assert log == log[..last] + [log[last]];
    }
  }

  /** What one action leaves as it was. */
  predicate Extends(w: World, w': World) {
    && (forall id :: id in w.fate ==> id in w'.fate && w'.fate[id] == w.fate[id])
    && (w.table.closed ==> w'.table.closed && w'.issued == w.issued)
    && w.issued <= w'.issued
    && w.ran <= w'.ran
  }

  lemma ActionExtends(w: World, a: Action)
    requires Accounted(w)
    ensures Extends(w, Apply(w, a))
  {
    if a.Stop? && !w.table.closed {
      Merged(w.fate, w.table.pending);
    }
  }

  /** A fate is final, and a stopped table never hands out another id. */
  lemma {:induction false} FateIsFinal(max: int, seed: nat, schedule: seq<Action>, more: seq<Action>)
    requires seed < ID_COUNT && FewIds(Run(Begin(max, seed), schedule + more))
    ensures Extends(Run(Begin(max, seed), schedule), Run(Begin(max, seed), schedule + more))
  {
    if more == [] {
      assert schedule + more == schedule;
    } else {
      var before := more[..|more| - 1];
      assert (schedule + more)[..|schedule + more| - 1] == schedule + before;
      var w := Run(Begin(max, seed), schedule + before);
      assert w.issued <= Apply(w, more[|more| - 1]).issued;
      FateIsFinal(max, seed, schedule, before);
      assert Accounted(w) by {
        InvRun(max, seed, schedule + before);
      }
      ActionExtends(w, more[|more| - 1]);
    }
  }

  // ---- A failed send and its callback ----

  lemma NewlyWithdrawn(w: World, a: Action, id: nat)
    requires id in Apply(w, a).fate && Apply(w, a).fate[id] == Withdrawn
    ensures a == Withdraw(id) || (id in w.fate && w.fate[id] == Withdrawn)
  {
  }

  /** An id that was withdrawn had a withdrawal. */
  lemma {:induction false} WithdrawnByWithdraw(max: int, seed: nat, schedule: seq<Action>, id: nat)
    ensures var w := Run(Begin(max, seed), schedule);
      id in w.fate && w.fate[id] == Withdrawn ==> Withdraw(id) in schedule
  {
    if schedule != [] {
      WithdrawnByWithdraw(max, seed, schedule[..|schedule| - 1], id);
      var w := Run(Begin(max, seed), schedule);
      if id in w.fate && w.fate[id] == Withdrawn {
        NewlyWithdrawn(Run(Begin(max, seed), schedule[..|schedule| - 1]), schedule[|schedule| - 1], id);
      }
    }
  }

  /** The callback of an id has run or is owed. */
  predicate Completes(w: World, id: nat) { id in w.due || id in w.ran }

  lemma WithdrawFinds(w: World, id: nat)
    requires Accounted(w) && id in w.issued
    ensures if id in w.table.pending then Apply(w, Withdraw(id)).fate == w.fate[id := Withdrawn] && !Completes(w, id)
      else Apply(w, Withdraw(id)) == w && (Completes(w, id) <==> w.fate[id] != Withdrawn)
  {
  }

  /** What a failed send's withdrawal finds decides its callback for good: in every
      continuation the callback has run or is owed if and only if the withdrawal, the first
      of its id, found nothing; found means never called, not found means nothing changed. */
  lemma WithdrawalDecides(max: int, seed: nat, schedule: seq<Action>, id: nat, more: seq<Action>)
    requires seed < ID_COUNT && FewIds(Run(Begin(max, seed), schedule + [Withdraw(id)] + more))
    requires id in Run(Begin(max, seed), schedule).issued && Withdraw(id) !in schedule
    ensures var w := Run(Begin(max, seed), schedule);
      var x := Run(Begin(max, seed), schedule + [Withdraw(id)] + more);
      && (Completes(x, id) <==> id !in w.table.pending)
      && (id in w.table.pending ==> Times(id, x.ran) == 0)
      && (id !in w.table.pending ==> Apply(w, Withdraw(id)) == w)
  {
    var w, before := Run(Begin(max, seed), schedule), schedule + [Withdraw(id)];
    var n, x := Run(Begin(max, seed), before), Run(Begin(max, seed), before + more);
    assert before[..|before| - 1] == schedule && n == Apply(w, Withdraw(id)) && n.issued == w.issued;
    assert Extends(n, x) by {
      FateIsFinal(max, seed, before, more);
    }
    assert Accounted(w) by {
      InvRun(max, seed, schedule);
    }
    assert Accounted(x) by {
      InvRun(max, seed, before + more);
    }
    WithdrawFinds(w, id);
    WithdrawnByWithdraw(max, seed, schedule, id);
    DistinctOnce(id, x.ran);
  }

  /** An Ask whose send failed may still have its callback run: in some continuation, if and
      only if the id is no longer pending when the send withdraws it. */
  lemma ErrorAndCallback(max: int, seed: nat, schedule: seq<Action>, id: nat)
    requires seed < ID_COUNT && FewIds(Run(Begin(max, seed), schedule))
    requires id in Run(Begin(max, seed), schedule).issued && Withdraw(id) !in schedule
    ensures (exists more :: CalledAfter(max, seed, schedule, id, more)) <==>
            id !in Run(Begin(max, seed), schedule).table.pending
  {
    var before, w := schedule + [Withdraw(id)], Run(Begin(max, seed), schedule);
    assert before[..|before| - 1] == schedule && before + [] == before;
    if more :| CalledAfter(max, seed, schedule, id, more) {
      WithdrawalDecides(max, seed, schedule, id, more);
    }
    if id !in w.table.pending {
      WithdrawalDecides(max, seed, schedule, id, []);
      var last := before + [RunCallback(id)];
      assert last[..|last| - 1] == before;
      assert id in Run(Begin(max, seed), last).ran;
      assert CalledAfter(max, seed, schedule, id, [RunCallback(id)]);
    }
  }

  /** The callback has run after the withdrawal and these further actions. */
  predicate CalledAfter(max: int, seed: nat, schedule: seq<Action>, id: nat, more: seq<Action>) {
    var x := Run(Begin(max, seed), schedule + [Withdraw(id)] + more);
    FewIds(x) && id in x.ran
  }

  /** It does happen: the timer takes the request out before the failed send withdraws it. */
  lemma FailedSendMayAlsoComplete(max: int, seed: nat, target: NodeId)
    requires seed < ID_COUNT
    ensures var id := (seed + 1) % ID_COUNT; CalledAfter(max, seed, [Ask(target), Expire(id)], id, [RunCallback(id)])
  {
    var id := (seed + 1) % ID_COUNT;
    var w0 := Begin(max, seed);
    var w1 := Apply(w0, Ask(target));
    var w2 := Apply(w1, Expire(id));
    var all := [Ask(target), Expire(id), Withdraw(id), RunCallback(id)];
    assert [Ask(target), Expire(id)] + [Withdraw(id)] + [RunCallback(id)] == all;
    assert all[..3] == [Ask(target), Expire(id), Withdraw(id)];
    assert all[..3][..2] == [Ask(target), Expire(id)];
    assert all[..3][..2][..1] == [Ask(target)];
    assert Run(w0, all[..3][..2][..1]) == w1;
    assert Run(w0, all[..3][..2]) == w2;
    assert Run(w0, all[..3]) == w2;
  }
}
