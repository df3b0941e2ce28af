/** How a router resolves the owner of an actor before it sends to it. */
module RouterCalls {
  import opened Wrappers
  import opened Directory

  const MAX_ATTEMPTS: nat := 3

  datatype ResolveError = GetFailed | PlacementFailed | DeleteFailed | OwnerDead

  /** What the directory, the placement strategy and discovery would answer in one round:
      the owner looked up, the owner an acquire for the picked candidate returns, whether
      discovery knows that very owner, and whether a delete gets through. */
  datatype Round = Round(got: Option<Option<NodeInfo>>, placed: Option<NodeInfo>, alive: bool, deleteOk: bool)

  /** The owner a round arrives at, if it gets that far. */
  function OwnerOf(r: Round): Option<NodeInfo> {
    if r.got.None? then None else if r.got.value.Some? then r.got.value else r.placed
  }

  predicate Good(r: Round) {
    OwnerOf(r).Some? && r.alive
  }

  /** What a round that is not good ends in. */
  function ProblemOf(r: Round): ResolveError {
    if r.got.None? then GetFailed
    else if OwnerOf(r).None? then PlacementFailed
    else if r.deleteOk then OwnerDead
    else DeleteFailed
  }

  /** The owner looked up counts before one that placing found; placing is only for an actor
      without one. A round without a live owner ends in exactly one problem. */
  lemma RoundIs(r: Round, n: NodeInfo)
    ensures OwnerOf(r) == Some(n) <==> r.got == Some(Some(n)) || (r.got == Some(None) && r.placed == Some(n))
    ensures Good(r) ==> r.alive
    ensures OwnerOf(r) == Some(n) ==>
      && (Good(r) <==> r.alive)
      && (!Good(r) ==> (ProblemOf(r) == OwnerDead <==> r.deleteOk) && (ProblemOf(r) == DeleteFailed <==> !r.deleteOk))
    ensures ProblemOf(r) == GetFailed <==> r.got.None?
    ensures ProblemOf(r) == PlacementFailed <==> r.got == Some(None) && r.placed.None?
  {
  }

  /** Exactly the owners found dead are deleted, in the order they were found. */
  lemma {:induction false} DeletesAre(rounds: seq<Round>, n: NodeInfo)
    ensures n in Deletes(rounds) <==> exists i :: 0 <= i < |rounds| && OwnerOf(rounds[i]) == Some(n) && !rounds[i].alive
    ensures |Deletes(rounds)| <= |rounds|
  {
    if rounds != [] {
      var init := rounds[..|rounds| - 1];
      DeletesAre(init, n);
      assert forall i :: 0 <= i < |init| ==> init[i] == rounds[i];
    }
  }

  /** The dead owners that some rounds ask the directory to delete, in order. */
  function Deletes(rounds: seq<Round>): seq<NodeInfo> {
    if rounds == [] then []
    else
      var last := rounds[|rounds| - 1];
      Deletes(rounds[..|rounds| - 1]) + (if OwnerOf(last).Some? && !last.alive then [OwnerOf(last).value] else [])
  }

  /** Returns the owner of the first good round, and never an owner that was not alive in
      it; every owner found dead on the way, and no other, is deleted. */
  method ResolveOwner(rounds: seq<Round>) returns (owner: Result<NodeInfo, ResolveError>, deleted: seq<NodeInfo>)
    requires |rounds| == MAX_ATTEMPTS
    ensures owner.Ok? <==> exists i :: 0 <= i < |rounds| && Good(rounds[i])
    ensures owner.Ok? ==> exists i ::
      && 0 <= i < |rounds| && Good(rounds[i]) && OwnerOf(rounds[i]) == Some(owner.value)
      && (forall j :: 0 <= j < i ==> !Good(rounds[j]))
      && deleted == Deletes(rounds[..i])
    ensures owner.Err? ==> deleted == Deletes(rounds) && owner.error == ProblemOf(rounds[|rounds| - 1])
    ensures forall n :: n in deleted ==>
      exists i :: 0 <= i < |rounds| && OwnerOf(rounds[i]) == Some(n) && !rounds[i].alive
  {
    deleted := [];
    var problem := OwnerDead;
    for i := 0 to |rounds|
      invariant forall j :: 0 <= j < i ==> !Good(rounds[j])
      invariant deleted == Deletes(rounds[..i]) && (i > 0 ==> problem == ProblemOf(rounds[i - 1]))
      invariant forall n :: n in deleted ==>
        exists j :: 0 <= j < |rounds| && OwnerOf(rounds[j]) == Some(n) && !rounds[j].alive
    {
      var r := rounds[i];
      assert rounds[..i + 1][..i] == rounds[..i];
      if r.got.None? {
        problem := GetFailed;
        continue;
      }
      var found := r.got.value;
      if found.None? {
        found := r.placed;
        if found.None? {
          problem := PlacementFailed;
          continue;
        }
      }
      if !r.alive {
        deleted := deleted + [found.value];
        problem := if r.deleteOk then OwnerDead else DeleteFailed;
        continue;
      }
      return Ok(found.value), deleted;
    }
    assert rounds[..|rounds|] == rounds;
    return Err(problem), deleted;
  }
}
