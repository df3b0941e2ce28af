/** The table of local processes: by id, by name, and the wait group that counts the ids. */
module Registry {
  import opened Wrappers
  import opened Maps

  datatype Pid = Pid(id: nat, name: string, node: string)

  datatype LookupError = NotLocal | NotFound

  datatype Table<+P> = Table(ids: map<nat, P>, names: map<string, P>, waiting: int)

  function AddSpec<P>(t: Table<P>, id: nat, name: string, p: P): Table<P> {
    var t' := if name != "" then t.(names := t.names[name := p]) else t;
    if id > 0 then t'.(ids := t.ids[id := p], waiting := t.waiting + 1) else t'
  }

  function RemoveIdSpec<P>(t: Table<P>, id: nat): Table<P> {
    if id > 0 && id in t.ids then t.(ids := t.ids - {id}, waiting := t.waiting - 1) else t
  }

  function RemoveNameSpec<P>(t: Table<P>, name: string): Table<P> {
    if name != "" then t.(names := t.names - {name}) else t
  }

  function FindSpec<P>(t: Table<P>, pid: Pid, node: string): Result<P, LookupError> {
    if pid.node != node then Err(NotLocal)
    else if pid.id > 0 && pid.id in t.ids then Ok(t.ids[pid.id])
    else if pid.name != "" && pid.name in t.names then Ok(t.names[pid.name])
    else Err(NotFound)
  }

  /** The wait group counts the registered ids; an unused id or name is never a key. */
  predicate Counted<P>(t: Table<P>) {
    t.waiting == |t.ids| && 0 !in t.ids && "" !in t.names
  }

  class Manager<P> {
    const nodeId: string
    var ids: map<nat, P>
    var names: map<string, P>
    var waiting: int

    function Contents(): Table<P>
      reads this
    {
      Table(ids, names, waiting)
    }

    constructor (nodeId: string)
      ensures this.nodeId == nodeId && Contents() == Table(map[], map[], 0) && Counted(Contents())
    {
      this.nodeId := nodeId;
      ids, names, waiting := map[], map[], 0;
    }

    /** An id that is already registered is overwritten and counted again. */
    method AddLocked(id: nat, name: string, p: P)
      modifies this
      ensures Contents() == AddSpec(old(Contents()), id, name, p)
      ensures names == if name != "" then old(names)[name := p] else old(names)
      ensures if id > 0 then ids == old(ids)[id := p] && waiting == old(waiting) + 1
        else ids == old(ids) && waiting == old(waiting)
      ensures old(Counted(Contents())) && id !in old(ids) ==> Counted(Contents())
    {
      if Counted(Contents()) && id !in ids {
        AddKeepsCount(Contents(), id, name, p);
      }
      if name != "" {
        names := names[name := p];
      }
      if id > 0 {
        ids := ids[id := p];
        waiting := waiting + 1;
      }
    }

    method RemoveId(id: nat)
      modifies this
      ensures Contents() == RemoveIdSpec(old(Contents()), id)
      ensures names == old(names) && ids == if id > 0 then old(ids) - {id} else old(ids)
      ensures waiting == old(waiting) - (if id > 0 && id in old(ids) then 1 else 0)
      ensures old(Counted(Contents())) ==> Counted(Contents())
    {
      if Counted(Contents()) {
        RemoveKeepsCount(Contents(), id);
      }
      if id == 0 {
        return;
      }
      if id !in ids {
        return;
      }
      waiting := waiting - 1;
      ids := ids - {id};
    }

    method RemoveName(name: string)
      modifies this
      ensures Contents() == RemoveNameSpec(old(Contents()), name)
      ensures ids == old(ids) && waiting == old(waiting) && (name != "" ==> names == old(names) - {name})
      ensures name == "" ==> names == old(names)
      ensures old(Counted(Contents())) ==> Counted(Contents())
    {
      if name == "" {
        return;
      }
      names := names - {name};
    }

    /** The name goes first, so between the two sections the process is still found by id. */
    method Remove(id: nat, name: string)
      modifies this
      ensures Contents() == RemoveIdSpec(RemoveNameSpec(old(Contents()), name), id)
      ensures old(Counted(Contents())) ==> Counted(Contents())
    {
      RemoveName(name);
      RemoveId(id);
    }

    method GetProcess(pid: Pid) returns (r: Result<P, LookupError>)
      ensures r == FindSpec(Contents(), pid, nodeId)
      ensures r == Err(NotLocal) <==> pid.node != nodeId
      ensures pid.node == nodeId && pid.id > 0 && pid.id in ids ==> r == Ok(ids[pid.id])
      ensures pid.node == nodeId && (pid.id == 0 || pid.id !in ids) ==>
        r == if pid.name != "" && pid.name in names then Ok(names[pid.name]) else Err(NotFound)
    {
      if pid.node != nodeId {
        return Err(NotLocal);
      }
      if pid.id > 0 && pid.id in ids {
        return Ok(ids[pid.id]);
      }
      if pid.name != "" && pid.name in names {
        return Ok(names[pid.name]);
      }
      return Err(NotFound);
    }
  }

  lemma AddKeepsCount<P>(t: Table<P>, id: nat, name: string, p: P)
    requires Counted(t) && id !in t.ids
    ensures Counted(AddSpec(t, id, name, p))
  {
    SizePut(t.ids, id, p);
  }

  lemma RemoveKeepsCount<P>(t: Table<P>, id: nat)
    requires Counted(t)
    ensures Counted(RemoveIdSpec(t, id))
  {
    if id in t.ids {
      SizeDrop(t.ids, id);
    }
  }

  /** What is registered is found, by id and by name, until it is removed, and only that. */
  lemma AddThenFind<P>(t: Table<P>, id: nat, name: string, node: string, p: P)
    requires Counted(t) && id > 0 && id !in t.ids && (name != "" ==> name !in t.names)
    ensures var t' := AddSpec(t, id, name, p);
      && FindSpec(t', Pid(id, "", node), node) == Ok(p)
      && FindSpec(t', Pid(id, name, node), node) == Ok(p)
      && (name != "" ==> FindSpec(t', Pid(0, name, node), node) == Ok(p))
      && (forall other: Pid :: other.id != id && (name == "" || other.name != name) ==>
            FindSpec(t', other, node) == FindSpec(t, other, node))
      && (forall other: Pid :: other.node != node ==> FindSpec(t', other, node) == Err(NotLocal))
      && RemoveIdSpec(RemoveNameSpec(t', name), id) == t
  {
    assert t.ids[id := p] - {id} == t.ids;
    if name != "" {
      assert t.names[name := p] - {name} == t.names;
    }
  }
}
