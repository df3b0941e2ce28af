/** Owners of logical actors in Redis, and the per-node caches in front of it. A script
    runs atomically on the two keys of one actor; the cache write that follows it, and
    the invalidation events, come later in any order. */
module Directory {
  import opened Wrappers

  datatype NodeInfo = NodeInfo(nodeId: string, kind: string, instance: string)

  datatype ActorId = ActorId(kind: string, key: string)

  /** The owner key and the epoch key of one actor. */
  datatype Store = Store(owner: Option<NodeInfo>, epoch: nat)

  datatype Owner = Owner(node: NodeInfo, epoch: nat)

  // ---- The scripts ----

  function GetScript(s: Store): Option<Owner> {
    if s.owner.Some? then Some(Owner(s.owner.value, s.epoch)) else None
  }

  /** Refused only when another node id owns the actor. */
  function AcquireScript(s: Store, candidate: NodeInfo): (r: (Store, bool, Owner)) {
    if s.owner.Some? && s.owner.value.nodeId != candidate.nodeId then (s, false, Owner(s.owner.value, s.epoch))
    else (Store(Some(candidate), s.epoch + 1), true, Owner(candidate, s.epoch + 1))
  }

  predicate Matches(s: Store, expected: NodeInfo) {
    s.owner.Some? && s.owner.value.nodeId == expected.nodeId && s.owner.value.instance == expected.instance
  }

  function DeleteScript(s: Store, expected: NodeInfo): (r: (Store, bool, nat)) {
    if Matches(s, expected) then (Store(None, s.epoch + 1), true, s.epoch + 1) else (s, false, s.epoch)
  }

  // ---- The cache guards ----

  function SetGuard(current: Option<Owner>, owner: Owner): Option<Owner> {
    if current.Some? && current.value.epoch >= owner.epoch then current else Some(owner)
  }

  function DelGuard(current: Option<Owner>, epoch: nat): Option<Owner> {
    if current.Some? && current.value.epoch > epoch then current else None
  }

  class Cache {
    var entries: map<string, Owner>

    function Lookup(key: string): Option<Owner>
      reads this
    {
      if key in entries then Some(entries[key]) else None
    }

    constructor ()
      ensures entries == map[]
    {
      entries := map[];
    }

    method GetCached(key: string) returns (r: Option<Owner>)
      ensures r == Lookup(key)
    {
      return if key in entries then Some(entries[key]) else None;
    }

    /** A newer owner replaces an older one, and nothing else is replaced. */
    method TrySet(key: string, owner: Owner)
      modifies this
      ensures Lookup(key) == SetGuard(old(Lookup(key)), owner)
      ensures if old(Lookup(key)).Some? && owner.epoch <= old(Lookup(key)).value.epoch
        then Lookup(key) == old(Lookup(key)) else Lookup(key) == Some(owner)
      ensures forall k :: k != key ==> Lookup(k) == old(Lookup(k))
    {
      if key in entries {
        if entries[key].epoch >= owner.epoch {
          return;
        }
      }
      entries := entries[key := owner];
    }

    /** An entry that is not newer goes. */
    method TryDel(key: string, epoch: nat)
      modifies this
      ensures Lookup(key) == DelGuard(old(Lookup(key)), epoch)
      ensures if old(Lookup(key)).Some? && epoch < old(Lookup(key)).value.epoch
        then Lookup(key) == old(Lookup(key)) else Lookup(key).None?
      ensures forall k :: k != key ==> Lookup(k) == old(Lookup(k))
    {
      if key in entries {
        if entries[key].epoch > epoch {
          return;
        }
      }
      entries := entries - {key};
    }

    /** Restarts the time to live of an entry for the expected node; the entry stays as it is. */
    method Refresh(key: string, expected: NodeInfo)
      modifies this
      ensures forall k :: Lookup(k) == old(Lookup(k))
    {
      if key in entries && entries[key].node == expected {
        entries := entries[key := entries[key]];
      }
    }

    /** Eviction or expiry of any entry. */
    method Evict(key: string)
      modifies this
      ensures Lookup(key) == None
      ensures forall k :: k != key ==> Lookup(k) == old(Lookup(k))
    {
      entries := entries - {key};
    }
  }

  // ---- One actor, any number of nodes ----

  /** A call between its script and the end of its cache write; an acquire that won and a
      delete publish their epoch afterwards. */
  datatype Call = SetCall(node: nat, owner: Owner, publish: bool) | DelCall(node: nat, epoch: nat)

  datatype World = World(
    store: Store,
    caches: seq<Option<Owner>>,
    calls: seq<Call>,
    published: set<nat>,
    acquired: map<nat, NodeInfo>)  // who was made owner at each epoch

  datatype Action =
    | Get(node: nat)                  // the script; the cache missed some time before
    | Acquire(node: nat, candidate: NodeInfo)
    | Delete(node: nat, expected: NodeInfo)
    | Renew(node: nat, expected: NodeInfo)
    | LeaseExpires
    | WriteCache(k: nat)              // the cache write of a call, then its event
    | Deliver(node: nat, epoch: nat)  // an event, possibly late, repeated or out of order
    | Evict(node: nat)

  function Begin(nodes: nat): World {
    World(Store(None, 0), seq(nodes, _ => None), [], {}, map[])
  }

  predicate Enabled(w: World, a: Action) {
    match a
    case Get(node) => node < |w.caches|
    case Acquire(node, _) => node < |w.caches|
    case Delete(node, _) => node < |w.caches|
    case Renew(node, _) => node < |w.caches|
    case LeaseExpires => true
    case WriteCache(k) => k < |w.calls| && w.calls[k].node < |w.caches|
    case Deliver(node, epoch) => node < |w.caches| && epoch in w.published
    case Evict(node) => node < |w.caches|
  }

  function Apply(w: World, a: Action): World
    requires Enabled(w, a)
  {
    match a
    case Get(node) =>
      var r := GetScript(w.store);
      if r.Some? then w.(calls := w.calls + [SetCall(node, r.value, false)]) else w
    case Acquire(node, candidate) =>
      var (store, won, owner) := AcquireScript(w.store, candidate);
      w.(store := store, calls := w.calls + [SetCall(node, owner, won)],
         acquired := if won then w.acquired[owner.epoch := candidate] else w.acquired)
    case Delete(node, expected) =>
      var (store, deleted, epoch) := DeleteScript(w.store, expected);
      w.(store := store, calls := if deleted then w.calls + [DelCall(node, epoch)] else w.calls)
    case Renew(_, _) => w  // lease and cache times only
    case LeaseExpires => w.(store := w.store.(owner := None))
    case WriteCache(k) =>
      var call := w.calls[k];
      var rest := w.(calls := w.calls[..k] + w.calls[k + 1..]);
      (match call
       case SetCall(node, owner, publish) =>
         rest.(caches := w.caches[node := SetGuard(w.caches[node], owner)],
               published := if publish then w.published + {owner.epoch} else w.published)
       case DelCall(node, epoch) =>
         rest.(caches := w.caches[node := DelGuard(w.caches[node], epoch)], published := w.published + {epoch}))
    case Deliver(node, epoch) => w.(caches := w.caches[node := DelGuard(w.caches[node], epoch)])
    case Evict(node) => w.(caches := w.caches[node := None])
  }

  function Run(w: World, schedule: seq<Action>): World {
    if schedule == [] then w
    else
      var before := Run(w, schedule[..|schedule| - 1]);
      var a := schedule[|schedule| - 1];
      if Enabled(before, a) then Apply(before, a) else before
  }

  // ---- Epochs ----

  predicate Genuine(w: World, o: Owner) {
    o.epoch in w.acquired && w.acquired[o.epoch] == o.node
  }

  ghost predicate Inv(w: World) {
    && (w.store.owner.Some? ==> Genuine(w, Owner(w.store.owner.value, w.store.epoch)))
    && (forall e :: e in w.acquired ==> e <= w.store.epoch)
    && (forall n :: 0 <= n < |w.caches| && w.caches[n].Some? ==> Genuine(w, w.caches[n].value))
    && (forall k :: 0 <= k < |w.calls| && w.calls[k].SetCall? ==> Genuine(w, w.calls[k].owner))
    && (forall k :: 0 <= k < |w.calls| && w.calls[k].DelCall? ==> w.calls[k].epoch <= w.store.epoch)
    && (forall e :: e in w.published ==> e <= w.store.epoch)
  }

  lemma InvKept(w: World, a: Action)
    requires Inv(w) && Enabled(w, a)
    ensures Inv(Apply(w, a))
  {
  }

  lemma {:induction false} InvRun(nodes: nat, schedule: seq<Action>)
    ensures Inv(Run(Begin(nodes), schedule)) && |Run(Begin(nodes), schedule).caches| == nodes
  {
    if schedule != [] {
      InvRun(nodes, schedule[..|schedule| - 1]);
      var w := Run(Begin(nodes), schedule[..|schedule| - 1]);
      if Enabled(w, schedule[|schedule| - 1]) {
        InvKept(w, schedule[|schedule| - 1]);
      }
    }
  }

  /** Whoever is stored was made owner at the current epoch, lease expiry or not, and two
      nodes that cache an owner with the same epoch cache the same owner. */
  lemma EpochsAgree(nodes: nat, schedule: seq<Action>, m: nat, n: nat)
    requires m < nodes && n < nodes
    ensures var w := Run(Begin(nodes), schedule);
      && |w.caches| == nodes
      && (w.store.owner.Some? ==> Genuine(w, Owner(w.store.owner.value, w.store.epoch)))
      && (w.caches[m].Some? && w.caches[n].Some? && w.caches[m].value.epoch == w.caches[n].value.epoch ==>
            w.caches[m] == w.caches[n])
      && (w.caches[m].Some? ==> w.caches[m].value.epoch <= w.store.epoch)
  {
    InvRun(nodes, schedule);
  }

  predicate Wins(w: World, a: Action) {
    match a
    case Acquire(_, candidate) => AcquireScript(w.store, candidate).1
    case Delete(_, expected) => DeleteScript(w.store, expected).1
    case _ => false
  }

  /** The epoch rises with every acquire that wins and every delete, and never falls. */
  lemma EpochRises(w: World, a: Action)
    requires Enabled(w, a)
    ensures Apply(w, a).store.epoch ==
      w.store.epoch + (if Wins(w, a) then 1 else 0)
    ensures Apply(w, a).store.owner.Some? && Apply(w, a).store.owner != w.store.owner ==>
      Apply(w, a).store.epoch > w.store.epoch
  {
  }

  /** So it never falls in any run, and a stored owner that differs from what was
      stored before has a higher epoch. */
  lemma {:induction false} EpochNeverFalls(w: World, more: seq<Action>)
    ensures var w' := Run(w, more);
      && w.store.epoch <= w'.store.epoch
      && (w'.store.owner.Some? && w'.store.owner != w.store.owner ==> w.store.epoch < w'.store.epoch)
  {
    if more != [] {
      var before, a := Run(w, more[..|more| - 1]), more[|more| - 1];
      EpochNeverFalls(w, more[..|more| - 1]);
      if Enabled(before, a) {
        EpochRises(before, a);
      }
    }
  }

  // ---- What the scripts and the cache writes decide ----

  /** A lookup answers the stored owner with its epoch, and nothing if there is none. */
  lemma GetDecides(s: Store)
    ensures s.owner.None? ==> GetScript(s).None?
    ensures s.owner.Some? ==> GetScript(s) == Some(Owner(s.owner.value, s.epoch))
  {
  }

  /** An acquire wins exactly where nobody owns the actor or the candidate's node id does;
      the candidate is then stored at the next epoch, and answered. One that loses answers
      the owner there is. */
  lemma AcquireDecides(s: Store, candidate: NodeInfo)
    ensures var (s', won, owner) := AcquireScript(s, candidate);
      && (won <==> s.owner.None? || s.owner.value.nodeId == candidate.nodeId)
      && (won ==> GetScript(s') == Some(owner) && owner == Owner(candidate, s.epoch + 1))
      && (!won ==> s' == s && GetScript(s) == Some(owner))
  {
  }

  /** A delete removes exactly the owner with that node id and instance, and raises the
      epoch, so that no acquire before it is as new. */
  lemma DeleteDecides(s: Store, expected: NodeInfo)
    ensures var (s', deleted, epoch) := DeleteScript(s, expected);
      && (deleted <==> exists kind :: s.owner == Some(NodeInfo(expected.nodeId, kind, expected.instance)))
      && (deleted ==> GetScript(s').None? && s'.epoch == epoch == s.epoch + 1)
      && (!deleted ==> s' == s)
  {
    if s.owner.Some? {
      var o := s.owner.value;
      assert o == NodeInfo(o.nodeId, o.kind, o.instance);
    }
  }

  /** What a call is left to write: the owner it was answered, to be published only if the
      acquire won; the epoch of a delete only if it deleted; nothing without an owner. */
  lemma CallDecides(w: World, n: nat, candidate: NodeInfo)
    requires n < |w.caches|
    ensures Enabled(w, Acquire(n, candidate)) && Enabled(w, Get(n)) && Enabled(w, Delete(n, candidate))
    ensures var (s, won, owner) := AcquireScript(w.store, candidate);
      var t := Apply(w, Acquire(n, candidate));
      && t.store == s && t.calls == w.calls + [SetCall(n, owner, won)] && t.caches == w.caches
      && t.acquired == if won then w.acquired[w.store.epoch + 1 := candidate] else w.acquired
    ensures Apply(w, Get(n)) ==
      if w.store.owner.None? then w
      else w.(calls := w.calls + [SetCall(n, Owner(w.store.owner.value, w.store.epoch), false)])
    ensures var (s, deleted, epoch) := DeleteScript(w.store, candidate);
      Apply(w, Delete(n, candidate)) ==
        if deleted then w.(store := s, calls := w.calls + [DelCall(n, epoch)]) else w
  {
  }

  /** After a call's cache write the entry is the newer of the two, the resident one if
      they are equally new; after a delete's, nothing as old as the delete is left. */
  lemma WriteDecides(w: World, k: nat)
    requires Enabled(w, WriteCache(k))
    ensures var n, before, after := w.calls[k].node, w.caches, Apply(w, WriteCache(k)).caches;
      && |after| == |before|
      && (forall m :: 0 <= m < |before| && m != n ==> after[m] == before[m])
      && (match w.calls[k]
          case SetCall(_, owner, _) =>
            if before[n].Some? && owner.epoch <= before[n].value.epoch then after[n] == before[n]
            else after[n] == Some(owner)
          case DelCall(_, epoch) =>
            if before[n].Some? && epoch < before[n].value.epoch then after[n] == before[n] else after[n].None?)
    ensures Apply(w, WriteCache(k)).calls == w.calls[..k] + w.calls[k + 1..]
    ensures Apply(w, WriteCache(k)).published == w.published +
      (match w.calls[k]
       case SetCall(_, owner, publish) => if publish then {owner.epoch} else {}
       case DelCall(_, epoch) => {epoch})
  {
  }

  /** An expired lease leaves no owner, at the same epoch; a renewal and an eviction change
      nothing that is stored. */
  lemma ExpiryDecides(w: World, n: nat, expected: NodeInfo)
    ensures Enabled(w, LeaseExpires)
    ensures Apply(w, LeaseExpires) == w.(store := Store(None, w.store.epoch))
    ensures n < |w.caches| ==>
      && Enabled(w, Renew(n, expected)) && Apply(w, Renew(n, expected)) == w
      && Enabled(w, Evict(n)) && Apply(w, Evict(n)) == w.(caches := w.caches[n := None])
  {
  }

  lemma EventDecides(w: World, n: nat, epoch: nat)
    requires Enabled(w, Deliver(n, epoch))
    ensures var before, after := w.caches, Apply(w, Deliver(n, epoch)).caches;
      && |after| == |before|
      && (forall m :: 0 <= m < |before| && m != n ==> after[m] == before[m])
      && (if before[n].Some? && epoch < before[n].value.epoch then after[n] == before[n] else after[n].None?)
  {
  }

  /** A cached owner is older than what the directory has, or is that. */
  predicate Behind(cached: Option<Owner>, s: Store) {
    cached.Some? ==>
      || cached.value.epoch < s.epoch
      || (cached.value.epoch == s.epoch && (s.owner.Some? ==> s.owner.value == cached.value.node))
  }

  lemma CachesBehind(nodes: nat, schedule: seq<Action>, n: nat)
    requires n < nodes
    ensures var w := Run(Begin(nodes), schedule); |w.caches| == nodes && Behind(w.caches[n], w.store)
  {
    InvRun(nodes, schedule);
  }

  /** A call that answers the directory's owner, or deletes it. */
  predicate Answered(w: World, a: Action) {
    match a
    case Acquire(_, _) => true
    case Get(_) => w.store.owner.Some?
    case Delete(_, expected) => Matches(w.store, expected)
    case _ => false
  }

  lemma CallWrites(w: World, a: Action, n: nat)
    requires n < |w.caches| && Behind(w.caches[n], w.store) && Answered(w, a) && a.node == n
    ensures var called := Apply(w, a);
      && Enabled(called, WriteCache(|w.calls|))
      && var written := Apply(called, WriteCache(|w.calls|));
      && written.store == called.store && written.calls == w.calls && |written.caches| == |w.caches|
      && written.caches[n] == GetScript(called.store)
  {
    var called := Apply(w, a);
    assert called.calls[..|w.calls|] == w.calls && called.calls[|w.calls| + 1..] == [];
  }

  /** In every run: once the call of an acquire, a lookup or a delete has written the cache
      of its node, with no other call in between, that cache answers what the directory does. */
  lemma CallsReachCache(nodes: nat, schedule: seq<Action>, a: Action, n: nat)
    requires n < nodes && Answered(Run(Begin(nodes), schedule), a) && a.node == n
    ensures var w := Run(Begin(nodes), schedule);
      && Enabled(w, a)
      && var called := Apply(w, a);
      && Enabled(called, WriteCache(|w.calls|))
      && var written := Apply(called, WriteCache(|w.calls|));
      && written.store == called.store && n < |written.caches|
      && written.caches[n] == GetScript(called.store)
  {
    CachesBehind(nodes, schedule, n);
    CallWrites(Run(Begin(nodes), schedule), a, n);
  }

  // ---- Freshness ----

  /** While an entry stays in a cache its epoch does not fall. */
  lemma ResidentEpochRises(w: World, a: Action, n: nat)
    requires Enabled(w, a) && n < |w.caches| && w.caches[n].Some? && Apply(w, a).caches[n].Some?
    ensures w.caches[n].value.epoch <= Apply(w, a).caches[n].value.epoch
  {
  }

  predicate CacheAtLeast(w: World, n: nat, epoch: nat) {
    n < |w.caches| && (w.caches[n].Some? ==> w.caches[n].value.epoch >= epoch)
  }

  /** A call whose script ran before `epoch` and that has yet to write the cache of n. */
  predicate Stale(c: Call, n: nat, epoch: nat) {
    c.SetCall? && c.node == n && c.owner.epoch < epoch
  }

  predicate NoStaleCalls(w: World, n: nat, epoch: nat) {
    forall k :: 0 <= k < |w.calls| ==> !Stale(w.calls[k], n, epoch)
  }

  lemma {:induction false} StaysFresh(w: World, more: seq<Action>, n: nat, epoch: nat)
    requires epoch <= w.store.epoch && NoStaleCalls(w, n, epoch) && CacheAtLeast(w, n, epoch)
    ensures var w' := Run(w, more);
      epoch <= w'.store.epoch && NoStaleCalls(w', n, epoch) && CacheAtLeast(w', n, epoch)
  {
    if more != [] {
      StaysFresh(w, more[..|more| - 1], n, epoch);
    }
  }

  /** After a node has applied an event its cache stays at or above that epoch for ever,
      if and only if no older call is still to write it. */
  lemma FreshAfterEvent(nodes: nat, schedule: seq<Action>, n: nat, epoch: nat)
    requires Enabled(Run(Begin(nodes), schedule), Deliver(n, epoch))
    ensures var w := Apply(Run(Begin(nodes), schedule), Deliver(n, epoch));
      NoStaleCalls(w, n, epoch) <==> forall more :: CacheAtLeast(Run(w, more), n, epoch)
  {
    InvRun(nodes, schedule);
    var w := Apply(Run(Begin(nodes), schedule), Deliver(n, epoch));
    if NoStaleCalls(w, n, epoch) {
      forall more
        ensures CacheAtLeast(Run(w, more), n, epoch)
      {
        StaysFresh(w, more, n, epoch);
      }
    } else {
      var k :| 0 <= k < |w.calls| && Stale(w.calls[k], n, epoch);
      StaleCallLands(w, k, n, epoch);
    }
  }

  lemma StaleCallLands(w: World, k: nat, n: nat, epoch: nat)
    requires n < |w.caches| && k < |w.calls| && Stale(w.calls[k], n, epoch)
    ensures !CacheAtLeast(Run(w, [Evict(n), WriteCache(k)]), n, epoch)
  {
    var both := [Evict(n), WriteCache(k)];
    assert both[..1] == [Evict(n)];
    assert [Evict(n)][..0] == [];
    assert Run(w, both[..1]) == Apply(w, Evict(n));
  }

  /** It does happen: a lookup's script runs, the owner is deleted and the event published,
      and the lookup has yet to write the cache when the event is applied. */
  lemma StaleCallExists(a: NodeInfo) returns (schedule: seq<Action>)
    ensures var w := Run(Begin(1), schedule);
      Enabled(w, Deliver(0, 2)) && !NoStaleCalls(Apply(w, Deliver(0, 2)), 0, 2)
  {
    schedule := [Acquire(0, a), Get(0), Delete(0, a), WriteCache(2)];
    var w0 := Begin(1);
    var w1 := Apply(w0, schedule[0]);
    var w2 := Apply(w1, schedule[1]);
    var w3 := Apply(w2, schedule[2]);
    var all := schedule;
    assert all[..3] == [all[0], all[1], all[2]];
    assert all[..3][..2] == [all[0], all[1]];
    assert all[..3][..2][..1] == [all[0]];
    assert all[..3][..2][..1][..0] == [];
    assert Run(w0, all[..3][..2][..1]) == w1;
    assert Run(w0, all[..3][..2]) == w2;
    assert Run(w0, all[..3]) == w3;
    assert w3.calls[1] == SetCall(0, Owner(a, 1), false) && Stale(w3.calls[1], 0, 2);
    var w := Apply(w3, schedule[3]);
    assert w.calls[1] == w3.calls[1];
  }

  // ---- The keys ----

  function Name(id: ActorId): string { id.kind + ":" + id.key }

  predicate ValidId(id: ActorId) {
    id.kind != "" && id.key != "" && ':' !in id.kind && ':' !in id.key
  }

  predicate OneColon(name: string, at: nat) {
    at < |name| && forall k :: 0 <= k < |name| ==> (name[k] == ':' <==> k == at)
  }

  /** Exactly the names that split again: one colon, with something before it and after it. */
  lemma ValidNames(id: ActorId)
    ensures ValidId(id) <==> exists at :: 0 < at < |Name(id)| - 1 && OneColon(Name(id), at)
  {
    var name, n := Name(id), |id.kind|;
    assert name[n] == ':' && forall k :: 0 <= k < n ==> name[k] == id.kind[k];
    assert forall k :: n < k < |name| ==> name[k] == id.key[k - n - 1];
    assert forall k :: 0 <= k < |id.key| ==> id.key[k] == name[k + n + 1];
    if ValidId(id) {
      assert OneColon(name, n) && 0 < n < |name| - 1;
    }
  }

  function OwnerKey(prefix: string, id: ActorId): string { "{directory}." + prefix + Name(id) }

  function EpochKey(prefix: string, id: ActorId): string { "{directory}." + prefix + Name(id) + ".epoch" }

  lemma {:induction false} NameSplits(a: string, b: string, c: string, d: string)
    requires ':' !in a && ':' !in c && a + ":" + b == c + ":" + d
    ensures a == c && b == d
  {
    var s, t := a + ":" + b, c + ":" + d;
    assert s[|a|] == ':' && t[|c|] == ':';
    assert forall i :: 0 <= i < |a| ==> s[i] == a[i];
    assert forall i :: 0 <= i < |c| ==> t[i] == c[i];
    assert |a| == |c|;
    assert a == s[..|a|] && c == t[..|c|];
    assert b == s[|a| + 1..] && d == t[|c| + 1..];
  }

  /** Two actors share an owner key only when they are the same, but the owner key of one
      is the epoch key of another exactly when its key is the other's followed by ".epoch":
      a colon is rejected by validation, that suffix is not. */
  lemma KeysCollide(prefix: string, a: ActorId, b: ActorId)
    requires ValidId(a) && ValidId(b)
    ensures OwnerKey(prefix, a) == OwnerKey(prefix, b) <==> a == b
    ensures OwnerKey(prefix, a) == EpochKey(prefix, b) <==> a.kind == b.kind && a.key == b.key + ".epoch"
  {
    var head := "{directory}." + prefix;
    assert OwnerKey(prefix, a)[|head|..] == Name(a);
    assert OwnerKey(prefix, b)[|head|..] == Name(b);
    assert EpochKey(prefix, b)[|head|..] == b.kind + ":" + (b.key + ".epoch");
    if Name(a) == Name(b) {
      NameSplits(a.kind, a.key, b.kind, b.key);
    }
    if Name(a) == b.kind + ":" + (b.key + ".epoch") {
      NameSplits(a.kind, a.key, b.kind, b.key + ".epoch");
    }
    if a.kind == b.kind && a.key == b.key + ".epoch" {
      assert OwnerKey(prefix, a) == EpochKey(prefix, b);
    }
  }

  /** So such a pair can occur. */
  lemma CollidingKeys()
    ensures var a, b := ActorId("player", "1001.epoch"), ActorId("player", "1001");
      ValidId(a) && ValidId(b) && OwnerKey("", a) == EpochKey("", b)
  {
    KeysCollide("", ActorId("player", "1001.epoch"), ActorId("player", "1001"));
    assert "1001" + ".epoch" == "1001.epoch";
  }
}
