/** The calls of the Redis owner directory, each run to its end: validation, the script,
    the cache write. Module Directory takes them apart and interleaves them. */
module DirectoryCalls {
  import opened Wrappers
  import opened Directory

  datatype Error = InvalidActor | InvalidNode | Unreachable

  /** What becomes of a call to Redis: a reply, or an error, in which case the script may
      have run all the same. */
  datatype Reply = Answered | Failed(ran: bool)

  /** What Go's unicode.IsSpace accepts, which is what validation trims. */
  predicate IsSpace(c: char) {
    || c in "\t\n\r " || c as int in {0x0B, 0x0C, 0x85, 0xA0, 0x1680, 0x2028, 0x2029, 0x202F, 0x205F, 0x3000}
    || 0x2000 <= c as int <= 0x200A
  }

  predicate Blank(s: string) {
    forall i :: 0 <= i < |s| ==> IsSpace(s[i])
  }

  predicate ValidNode(n: NodeInfo) {
    !Blank(n.nodeId) && !Blank(n.instance) && !Blank(n.kind)
  }

  function Problem(id: ActorId, node: NodeInfo): Option<Error> {
    if !ValidId(id) then Some(InvalidActor) else if !ValidNode(node) then Some(InvalidNode) else None
  }

  /** The 25 white space characters of the Unicode standard. */
  lemma Spaces(c: char)
    ensures IsSpace(c) <==> c as int in {
      0x09, 0x0A, 0x0B, 0x0C, 0x0D, 0x20, 0x85, 0xA0, 0x1680,
      0x2000, 0x2001, 0x2002, 0x2003, 0x2004, 0x2005, 0x2006, 0x2007, 0x2008, 0x2009, 0x200A,
      0x2028, 0x2029, 0x202F, 0x205F, 0x3000}
  {
  }

  /** An invalid actor is reported first; a node is refused exactly if its id, instance or
      kind has nothing but white space. */
  lemma ProblemIs(id: ActorId, n: NodeInfo)
    ensures Problem(id, n) == Some(InvalidActor) <==> !ValidId(id)
    ensures Problem(id, n) == Some(InvalidNode) <==>
            ValidId(id) && (AllSpaces(n.nodeId) || AllSpaces(n.instance) || AllSpaces(n.kind))
    ensures Problem(id, n).Some? ==> Problem(id, n).value != Unreachable
  {
  }

  predicate AllSpaces(s: string) { forall c :: c in s ==> IsSpace(c) }

  /** The Redis server, by actor name; a missing name has no owner and epoch 0. */
  class Redis {
    var stores: map<string, Store>

    function Of(name: string): Store
      reads this
    {
      if name in stores then stores[name] else Store(None, 0)
    }

    constructor ()
      ensures stores == map[]
    {
      stores := map[];
    }

    method Put(name: string, s: Store)
      modifies this
      ensures Of(name) == s && forall k :: k != name ==> Of(k) == old(Of(k))
    {
      stores := stores[name := s];
    }
  }

  class OwnerDirectory {
    const redis: Redis
    const cache: Cache
    var events: seq<(string, nat)>  // the updates published so far

    /** No entry of this node is newer than the directory, or names another owner at the
        directory's epoch. */
    ghost predicate UpToDate()
      reads redis, cache
    {
      forall k :: Behind(cache.Lookup(k), redis.Of(k))
    }

    constructor (redis: Redis)
      ensures this.redis == redis && fresh(cache) && cache.entries == map[] && events == []
    {
      this.redis := redis;
      cache := new Cache();
      events := [];
    }

    method AcquireOwner(id: ActorId, candidate: NodeInfo, reply: Reply) returns (r: Result<(NodeInfo, bool), Error>)
      modifies this, redis, cache
      ensures Problem(id, candidate).Some? ==>
        && r == Err(Problem(id, candidate).value)
        && events == old(events) && redis.stores == old(redis.stores) && cache.entries == old(cache.entries)
      ensures Problem(id, candidate).None? && reply.Failed? ==>
        && r == Err(Unreachable)
        && redis.Of(Name(id)) == (if reply.ran then AcquireScript(old(redis.Of(Name(id))), candidate).0
                                  else old(redis.Of(Name(id))))
        && events == old(events) && cache.entries == old(cache.entries)
      ensures Problem(id, candidate).None? && reply.Answered? ==>
        var (store, won, owner) := AcquireScript(old(redis.Of(Name(id))), candidate);
        && r == Ok((owner.node, won))
        && redis.Of(Name(id)) == store
        && cache.Lookup(Name(id)) == SetGuard(old(cache.Lookup(Name(id))), owner)
        && events == old(events) + (if won then [(Name(id), owner.epoch)] else [])
      ensures old(UpToDate()) ==> UpToDate()
      ensures r.Ok? ==> redis.Of(Name(id)).owner == Some(r.value.0) && (r.value.1 ==> r.value.0 == candidate)
      ensures r.Ok? && old(UpToDate()) ==> cache.Lookup(Name(id)) == GetScript(redis.Of(Name(id)))
      ensures forall k :: k != Name(id) ==> redis.Of(k) == old(redis.Of(k)) && cache.Lookup(k) == old(cache.Lookup(k))
    {
      if !ValidId(id) {
        return Err(InvalidActor);
      }
      if !ValidNode(candidate) {
        return Err(InvalidNode);
      }
      var (store, won, owner) := AcquireScript(redis.Of(Name(id)), candidate);
      if reply != Failed(false) {
        redis.Put(Name(id), store);
      }
      if reply.Failed? {
        return Err(Unreachable);
      }
      cache.TrySet(Name(id), owner);
      if won {
        events := events + [(Name(id), owner.epoch)];
      }
      return Ok((owner.node, won));
    }

    /** A cached owner is answered without a call. */
    method GetOwner(id: ActorId, reply: Reply) returns (r: Result<Option<NodeInfo>, Error>)
      modifies cache
      ensures !ValidId(id) ==> r == Err(InvalidActor) && cache.entries == old(cache.entries)
      ensures ValidId(id) && old(cache.Lookup(Name(id))).None? && reply.Failed? ==>
        r == Err(Unreachable) && cache.entries == old(cache.entries)
      ensures ValidId(id) && (old(cache.Lookup(Name(id))).Some? || reply.Answered?) ==>
        var cached, stored := old(cache.Lookup(Name(id))), GetScript(redis.Of(Name(id)));
        var answer := if cached.Some? then cached else stored;
        && r == Ok(if answer.Some? then Some(answer.value.node) else None)
        && cache.Lookup(Name(id)) == answer
      ensures old(UpToDate()) ==> UpToDate()
      ensures forall k :: k != Name(id) ==> cache.Lookup(k) == old(cache.Lookup(k))
    {
      if !ValidId(id) {
        return Err(InvalidActor);
      }
      var cached := cache.GetCached(Name(id));
      if cached.Some? {
        return Ok(Some(cached.value.node));
      }
      if reply.Failed? {
        return Err(Unreachable);
      }
      var stored := GetScript(redis.Of(Name(id)));
      if stored.None? {
        return Ok(None);
      }
      cache.TrySet(Name(id), stored.value);
      return Ok(Some(stored.value.node));
    }

    method RenewOwner(id: ActorId, expected: NodeInfo, reply: Reply) returns (r: Result<bool, Error>)
      modifies cache
      ensures r == if Problem(id, expected).Some? then Err(Problem(id, expected).value)
                   else if reply.Failed? then Err(Unreachable)
                   else Ok(Matches(redis.Of(Name(id)), expected))
      ensures old(UpToDate()) ==> UpToDate()
      ensures forall k :: cache.Lookup(k) == old(cache.Lookup(k))
    {
      if !ValidId(id) {
        return Err(InvalidActor);
      }
      if !ValidNode(expected) {
        return Err(InvalidNode);
      }
      if reply.Failed? {
        return Err(Unreachable);
      }
      var renewed := Matches(redis.Of(Name(id)), expected);
      if renewed {
        cache.Refresh(Name(id), expected);
      }
      return Ok(renewed);
    }

    method DeleteOwner(id: ActorId, expected: NodeInfo, reply: Reply) returns (r: Result<bool, Error>)
      modifies this, redis, cache
      ensures Problem(id, expected).Some? ==>
        && r == Err(Problem(id, expected).value)
        && events == old(events) && redis.stores == old(redis.stores) && cache.entries == old(cache.entries)
      ensures Problem(id, expected).None? && reply.Failed? ==>
        && r == Err(Unreachable)
        && redis.Of(Name(id)) == (if reply.ran then DeleteScript(old(redis.Of(Name(id))), expected).0
                                  else old(redis.Of(Name(id))))
        && events == old(events) && cache.entries == old(cache.entries)
      ensures Problem(id, expected).None? && reply.Answered? ==>
        var (store, deleted, epoch) := DeleteScript(old(redis.Of(Name(id))), expected);
        && r == Ok(deleted)
        && redis.Of(Name(id)) == store
        && cache.Lookup(Name(id)) ==
             (if deleted then DelGuard(old(cache.Lookup(Name(id))), epoch) else old(cache.Lookup(Name(id))))
        && events == old(events) + (if deleted then [(Name(id), epoch)] else [])
      ensures old(UpToDate()) ==> UpToDate()
      ensures r == Ok(true) ==> redis.Of(Name(id)).owner.None?
      ensures r == Ok(true) && old(UpToDate()) ==> cache.Lookup(Name(id)).None?
      ensures forall k :: k != Name(id) ==> redis.Of(k) == old(redis.Of(k)) && cache.Lookup(k) == old(cache.Lookup(k))
    {
      if !ValidId(id) {
        return Err(InvalidActor);
      }
      if !ValidNode(expected) {
        return Err(InvalidNode);
      }
      var (store, deleted, epoch) := DeleteScript(redis.Of(Name(id)), expected);
      if reply != Failed(false) {
        redis.Put(Name(id), store);
      }
      if reply.Failed? {
        return Err(Unreachable);
      }
      if deleted {
        cache.TryDel(Name(id), epoch);
        events := events + [(Name(id), epoch)];
      }
      return Ok(deleted);
    }
  }

  /** A lookup right after an acquire, on the same node, answers who the acquire said owns
      the actor: the candidate, if it won. The second call's own reply does not matter. */
  method AcquireThenGet(d: OwnerDirectory, id: ActorId, candidate: NodeInfo, reply: Reply)
      returns (r: Result<Option<NodeInfo>, Error>)
    requires d.UpToDate() && Problem(id, candidate).None?
    modifies d, d.redis, d.cache
    ensures d.UpToDate()
    ensures var before, after := old(d.redis.Of(Name(id)).owner), d.redis.Of(Name(id)).owner;
      && after == (if before.None? || before.value.nodeId == candidate.nodeId then Some(candidate) else before)
      && r == Ok(after)
  {
    var acquired := d.AcquireOwner(id, candidate, Answered);
    r := d.GetOwner(id, reply);
  }
}
