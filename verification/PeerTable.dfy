/** The transport's table of remote peers under concurrent dials, Hello messages and closes.
    Every action is one atomic step: a section under the table's lock, one under a peer's
    lock, or a change of a connection. */
module PeerTable {
  import opened Wrappers

  datatype Phase = Idle | Handshaking | Connected

  datatype Conn = NotOpen | Open | Shut

  /** A second Hello after a registration: none, bound, or turned down. */
  datatype Again = Once | Rebound | Refused

  /** How far the Hello of a connection is; `late` says its registration came after the
      close callback had looked up another id, so that the callback does not undo it. */
  datatype Hello = Unseen | Bound | Registered(late: bool, again: Again) | Rejected

  /** How far the close callback of a connection is, and what id it looked up; it looks up
      none if an accepted connection closes before it has a peer. */
  datatype Closing = NotRun | Looked(id: string) | Finished(looked: Option<string>)

  /** How far the dial of a connection is; an accepted one has none. */
  datatype Dial = NoDial | Dialing | DialReturned | DialFailed

  /** A peer and its connection. An accepted connection expects no id; one dialed to the
      empty id expects one but takes any. */
  datatype Peer = Peer(
    expected: Option<string>,
    remoteId: string,
    phase: Phase,
    conn: Conn,
    attached: bool,
    dial: Dial,
    hello: Hello,
    closing: Closing)
  {
    function Dialed(): string { if expected.Some? then expected.value else "" }

    function Id(): string { if remoteId == "" then Dialed() else remoteId }

    predicate Live() { phase.Connected? && conn.Open? }
  }

  /** Peers are numbered in the order they are made; the table maps ids to them. */
  datatype State = State(peers: seq<Peer>, table: map<string, nat>)

  datatype Action =
    | Connect(id: string)
    | Accept
    | DialOpen(p: nat) | DialFail(p: nat) | DialDone(p: nat)
    | OnConnected(p: nat)
    | HelloBind(p: nat, id: string) | HelloSet(p: nat)
    | CloseConn(p: nat)
    | CloseLook(p: nat) | CloseRemove(p: nat)

  // ---- The table, under its lock ----

  class PeerManager<P(==)> {
    var remoteToConn: map<string, P>

    constructor ()
      ensures remoteToConn == map[]
    {
      remoteToConn := map[];
    }

    method GetLocked(id: string) returns (p: Option<P>)
      ensures p == if id in remoteToConn then Some(remoteToConn[id]) else None
    {
      if id in remoteToConn {
        return Some(remoteToConn[id]);
      }
      return None;
    }

    method SetLocked(id: string, p: P)
      modifies this
      ensures remoteToConn == old(remoteToConn)[id := p]
    {
      remoteToConn := remoteToConn[id := p];
    }

    /** Removes the entry only if it is still this peer's. */
    method Remove(id: string, p: P)
      modifies this
      ensures remoteToConn == Without(old(remoteToConn), id, p)
    {
      var old_ := GetLocked(id);
      if old_ != Some(p) {
        return;
      }
      remoteToConn := remoteToConn - {id};
    }
  }

  function Without<P(==)>(table: map<string, P>, id: string, p: P): map<string, P> {
    if id in table && table[id] == p then table - {id} else table
  }

  // ---- Steps ----

  function NewPeer(expected: Option<string>): Peer {
    Peer(expected, "", Idle, if expected.None? then Open else NotOpen, false,
      if expected.None? then NoDial else Dialing, Unseen, NotRun)
  }

  /** peer.close: a connection not yet attached to its peer is out of its reach. */
  function CloseAttached(q: Peer): Peer {
    if q.attached && q.conn.Open? then q.(conn := Shut) else q
  }

  function ShutOld(peers: seq<Peer>, table: map<string, nat>, id: string, p: nat): seq<Peer> {
    if id in table && table[id] != p && table[id] < |peers|
    then peers[table[id] := CloseAttached(peers[table[id]])]
    else peers
  }

  /** What a connection may bring: one Hello, and a second one with the same id, or with
      another where the peer refuses it; `renames` lets it take another id. */
  predicate MayBind(q: Peer, id: string, renames: bool) {
    || q.hello.Unseen?
    || (q.hello.Registered? && q.hello.again.Once? && (renames || id == q.remoteId || q.Dialed() != ""))
  }

  function Bind(q: Peer, id: string): Peer {
    if q.Dialed() != "" && id != q.Dialed() then
      q.(hello := if q.hello.Registered? then Registered(q.hello.late, Refused) else Rejected)
    else q.(remoteId := id, hello := if q.hello.Registered? then Registered(q.hello.late, Rebound) else Bound)
  }

  /** The close callback has looked this peer up, and not under its bound id. */
  predicate LookedEarly(q: Peer) {
    q.closing.Finished? || (q.closing.Looked? && q.closing.id != q.remoteId)
  }

  function Step(s: State, a: Action, local: string, renames: bool): State {
    match a
    case Connect(id) =>
      if id == local || id in s.table then s
      else State(s.peers + [NewPeer(Some(id))], s.table[id := |s.peers|])
    case Accept => s.(peers := s.peers + [NewPeer(None)])
    case _ => if a.p < |s.peers| then PeerStep(s, a, s.peers[a.p], renames) else s
  }

  function PeerStep(s: State, a: Action, q: Peer, renames: bool): State
    requires !a.Connect? && !a.Accept? && a.p < |s.peers|
  {
    match a
    case DialOpen(p) => if q.dial.Dialing? && q.conn.NotOpen? then s.(peers := s.peers[p := q.(conn := Open)]) else s
    case DialFail(p) =>
      if q.dial.Dialing? && !q.conn.Open?
      then State(s.peers[p := q.(dial := DialFailed)], Without(s.table, q.Dialed(), p))
      else s
    case DialDone(p) => 
      if q.dial.Dialing? && !q.conn.NotOpen? then s.(peers := s.peers[p := q.(dial := DialReturned)]) else s
    case OnConnected(p) =>
      if q.attached || q.conn.NotOpen? then s
      else s.(peers := s.peers[p := q.(attached := true, phase := if q.phase.Idle? then Handshaking else q.phase)])
    case HelloBind(p, id) =>
      if q.attached && id != "" && MayBind(q, id, renames) then s.(peers := s.peers[p := Bind(q, id)]) else s
    case HelloSet(p) =>
      if q.hello.Registered? && q.hello.again.Rebound? then
        s.(peers := s.peers[p := q.(hello := Registered(q.hello.late, Refused))])
      else if !q.hello.Bound? then s
      else if !q.phase.Handshaking? then s.(peers := s.peers[p := q.(hello := Rejected)])
      else
        var done := s.peers[p := q.(phase := Connected, hello := Registered(LookedEarly(q), Once))];
        State(ShutOld(done, s.table, q.remoteId, p), s.table[q.remoteId := p])
    case CloseConn(p) => if q.conn.Open? then s.(peers := s.peers[p := q.(conn := Shut)]) else s
    case CloseLook(p) =>
      if !q.conn.Shut? || !q.closing.NotRun? then s
      else if q.expected.None? && !q.attached then s.(peers := s.peers[p := q.(closing := Finished(None))])
      else s.(peers := s.peers[p := q.(closing := Looked(q.Id()))])
    case CloseRemove(p) =>
      if !q.closing.Looked? then s
      else State(s.peers[p := q.(closing := Finished(Some(q.closing.id)))], Without(s.table, q.closing.id, p))
  }

  function Run(s: State, schedule: seq<Action>, local: string, renames: bool): State
    decreases |schedule|
  {
    if schedule == [] then s else Run(Step(s, schedule[0], local, renames), schedule[1..], local, renames)
  }

  function Init(): State { State([], map[]) }

  // ---- Invariant, when no connection takes another id ----

  /** One peer, given whether it has a table entry under its id. */
  predicate PeerOk(q: Peer, entered: bool) {
    && (q.Live() ==> q.remoteId != "" && entered)
    && (q.phase.Connected? <==> q.hello.Registered?)
    && (q.Dialed() != "" && q.remoteId != "" ==> q.remoteId == q.Dialed())
    && (q.hello.Unseen? ==> q.remoteId == "")
    && (q.hello.Bound? || q.hello.Registered? ==> q.remoteId != "")
    && (q.remoteId != "" ==> q.attached)
    && (q.phase.Idle? <==> !q.attached)
    && (q.attached ==> !q.conn.NotOpen?)
    && (!q.closing.NotRun? ==> q.conn.Shut?)
    && (q.closing.Looked? ==> q.closing.id == q.Id() || (q.closing.id == "" && q.Dialed() == ""))
    && (q.closing.Looked? && q.closing.id != q.Id() && q.hello.Registered? ==> q.hello.late)
    && (q.Dialed() == "" && entered ==> q.hello.Registered?)
    && (q.closing.Finished? && entered ==> q.hello.Registered? && q.hello.late)
  }

  predicate Entered(s: State, p: nat)
    requires p < |s.peers|
  {
    var id := s.peers[p].Id(); id != "" && id in s.table && s.table[id] == p
  }

  /** Entries are of peers that exist, under the peers' own ids; the entry of the empty id,
      if any, is of a peer dialed to it. */
  predicate TableOk(s: State) {
    forall id :: id in s.table ==>
      && s.table[id] < |s.peers|
      && (if id == "" then s.peers[s.table[id]].expected == Some("") else s.peers[s.table[id]].Id() == id)
  }

  predicate Inv(s: State) {
    && TableOk(s)
    && forall p :: 0 <= p < |s.peers| ==> PeerOk(s.peers[p], Entered(s, p))
  }

  /** One peer changes; its id may only go from none to one. */
  lemma Change(s: State, p: nat, q: Peer)
    requires Inv(s) && p < |s.peers| && q.expected == s.peers[p].expected
    requires q.Id() == s.peers[p].Id() || s.peers[p].Id() == ""
    requires PeerOk(q, Entered(s.(peers := s.peers[p := q]), p))
    ensures Inv(s.(peers := s.peers[p := q]))
  {
    var t := s.(peers := s.peers[p := q]);
    forall r | 0 <= r < |t.peers|
      ensures PeerOk(t.peers[r], Entered(t, r))
    {
      assert PeerOk(s.peers[r], Entered(s, r));
    }
  }

  /** A peer's own entry goes. */
  lemma Removal(s: State, p: nat, id: string)
    requires Inv(s) && p < |s.peers| && !s.peers[p].Live()
    ensures Inv(s.(table := Without(s.table, id, p)))
  {
    var t := s.(table := Without(s.table, id, p));
    forall r | 0 <= r < |t.peers|
      ensures PeerOk(t.peers[r], Entered(t, r))
    {
      assert PeerOk(s.peers[r], Entered(s, r));
    }
  }

  lemma AcceptKept(s: State)
    requires Inv(s)
    ensures Inv(s.(peers := s.peers + [NewPeer(None)]))
  {
    var t := s.(peers := s.peers + [NewPeer(None)]);
    forall r | 0 <= r < |t.peers|
      ensures PeerOk(t.peers[r], Entered(t, r))
    {
      assert r < |s.peers| ==> PeerOk(s.peers[r], Entered(s, r));
    }
  }

  lemma ConnectKept(s: State, id: string)
    requires Inv(s) && id !in s.table
    ensures Inv(State(s.peers + [NewPeer(Some(id))], s.table[id := |s.peers|]))
  {
    var t := State(s.peers + [NewPeer(Some(id))], s.table[id := |s.peers|]);
    forall r | 0 <= r < |t.peers|
      ensures PeerOk(t.peers[r], Entered(t, r))
    {
      assert r < |s.peers| ==> PeerOk(s.peers[r], Entered(s, r));
    }
  }

  /** A peer takes over an entry; whoever had it is not live. */
  lemma Takeover(s: State, p: nat, id: string)
    requires TableOk(s) && p < |s.peers| && id != "" && s.peers[p].Id() == id
    requires forall r :: 0 <= r < |s.peers| && r != p ==> PeerOk(s.peers[r], Entered(s, r))
    requires id in s.table ==> s.table[id] == p || !s.peers[s.table[id]].Live()
    requires PeerOk(s.peers[p], true)
    ensures Inv(s.(table := s.table[id := p]))
  {
    var t := s.(table := s.table[id := p]);
    forall r | 0 <= r < |t.peers|
      ensures PeerOk(t.peers[r], Entered(t, r))
    {
      assert r != p ==> PeerOk(s.peers[r], Entered(s, r));
    }
  }

  /** Shutting the peer in the way leaves every peer but p as it should be. */
  lemma ShutKept(s: State, p: nat, q: Peer, id: string)
    requires TableOk(s) && p < |s.peers| && q.expected == s.peers[p].expected
    requires q.Id() == s.peers[p].Id() == id && id != ""
    requires forall r :: 0 <= r < |s.peers| ==> PeerOk(s.peers[r], Entered(s, r))
    ensures var t := State(ShutOld(s.peers[p := q], s.table, id, p), s.table);
      && TableOk(t) && |t.peers| == |s.peers| && t.peers[p] == q
      && (forall r :: 0 <= r < |t.peers| && r != p ==> PeerOk(t.peers[r], Entered(t, r)))
      && (id in t.table && t.table[id] != p ==> !t.peers[t.table[id]].Live())
  {
    var t := State(ShutOld(s.peers[p := q], s.table, id, p), s.table);
    forall r | 0 <= r < |t.peers| && r != p
      ensures PeerOk(t.peers[r], Entered(t, r)) && t.peers[r].Id() == s.peers[r].Id()
      ensures t.peers[r].expected == s.peers[r].expected
    {
      assert PeerOk(s.peers[r], Entered(s, r));
    }
  }

  lemma HelloSetKept(s: State, p: nat)
    requires Inv(s) && p < |s.peers|
    ensures Inv(PeerStep(s, HelloSet(p), s.peers[p], false))
  {
    var q := s.peers[p];
    assert PeerOk(q, Entered(s, p));
    if q.hello.Bound? && q.phase.Handshaking? {
      var id := q.remoteId;
      var q' := q.(phase := Connected, hello := Registered(LookedEarly(q), Once));
      ShutKept(s, p, q', id);
      Takeover(State(ShutOld(s.peers[p := q'], s.table, id, p), s.table), p, id);
    } else if q.hello.Bound? {
      Change(s, p, q.(hello := Rejected));
    } else if q.hello.Registered? && q.hello.again.Rebound? {
      Change(s, p, q.(hello := Registered(q.hello.late, Refused)));
    }
  }

  lemma BindKept(s: State, p: nat, id: string)
    requires Inv(s) && p < |s.peers|
    ensures Inv(PeerStep(s, HelloBind(p, id), s.peers[p], false))
  {
    var q := s.peers[p];
    assert PeerOk(q, Entered(s, p));
    if q.attached && id != "" && MayBind(q, id, false) {
      Change(s, p, Bind(q, id));
    }
  }

  lemma DialFailKept(s: State, p: nat)
    requires Inv(s) && p < |s.peers|
    ensures Inv(PeerStep(s, DialFail(p), s.peers[p], false))
  {
    var q := s.peers[p];
    assert PeerOk(q, Entered(s, p));
    if q.dial.Dialing? && !q.conn.Open? {
      Removal(s, p, q.Dialed());
      Change(s.(table := Without(s.table, q.Dialed(), p)), p, q.(dial := DialFailed));
    }
  }

  lemma CloseRemoveKept(s: State, p: nat)
    requires Inv(s) && p < |s.peers|
    ensures Inv(PeerStep(s, CloseRemove(p), s.peers[p], false))
  {
    var q := s.peers[p];
    assert PeerOk(q, Entered(s, p));
    if q.closing.Looked? {
      Removal(s, p, q.closing.id);
      Change(s.(table := Without(s.table, q.closing.id, p)), p, q.(closing := Finished(Some(q.closing.id))));
    }
  }

  lemma ConnectionKept(s: State, a: Action)
    requires Inv(s) && (a.DialOpen? || a.DialDone? || a.OnConnected? || a.CloseConn? || a.CloseLook?) && a.p < |s.peers|
    ensures Inv(PeerStep(s, a, s.peers[a.p], false))
  {
    var p, q := a.p, s.peers[a.p];
    assert PeerOk(q, Entered(s, p));
    var t := PeerStep(s, a, q, false);
    if t != s {
      Change(s, p, t.peers[p]);
    }
  }

  lemma PeerStepKept(s: State, a: Action)
    requires Inv(s) && !a.Connect? && !a.Accept? && a.p < |s.peers|
    ensures Inv(PeerStep(s, a, s.peers[a.p], false))
  {
    if a.HelloSet? {
      HelloSetKept(s, a.p);
    } else if a.HelloBind? {
      BindKept(s, a.p, a.id);
    } else if a.DialFail? {
      DialFailKept(s, a.p);
    } else if a.CloseRemove? {
      CloseRemoveKept(s, a.p);
    } else {
      ConnectionKept(s, a);
    }
  }

  lemma InvKept(s: State, a: Action, local: string)
    requires Inv(s)
    ensures Inv(Step(s, a, local, false))
  {
    match a
    case Connect(id) => if id !in s.table { ConnectKept(s, id); }
    case Accept => AcceptKept(s);
    case _ => if a.p < |s.peers| { PeerStepKept(s, a); }
  }

  lemma {:induction false} InvRun(s: State, schedule: seq<Action>, local: string)
    requires Inv(s)
    ensures Inv(Run(s, schedule, local, false))
    decreases |schedule|
  {
    if schedule != [] {
      InvKept(s, schedule[0], local);
      InvRun(Step(s, schedule[0], local, false), schedule[1..], local);
    }
  }

  // ---- Results ----

  predicate OneLivePerId(s: State) {
    forall p, q :: 0 <= p < |s.peers| && 0 <= q < |s.peers| && SameLive(s.peers[p], s.peers[q]) ==> p == q
  }

  predicate SameLive(a: Peer, b: Peer) { a.Live() && b.Live() && a.remoteId == b.remoteId }

  /** In every run in which no connection takes another id, a live connected peer is the
      table's entry for its id, and an entry that outlives its own close callback was
      registered after that callback had looked. */
  lemma LivePeersAreEntered(schedule: seq<Action>, local: string, p: nat)
    requires p < |Run(Init(), schedule, local, false).peers|
    ensures var s := Run(Init(), schedule, local, false); var q := s.peers[p];
      && (q.Live() ==> q.remoteId in s.table && s.table[q.remoteId] == p)
      && (q.closing.Finished? && Entered(s, p) ==> q.hello.Registered? && q.hello.late)
  {
    InvRun(Init(), schedule, local);
    var s := Run(Init(), schedule, local, false);
    assert PeerOk(s.peers[p], Entered(s, p));
  }

  lemma OneLive(schedule: seq<Action>, local: string)
    ensures OneLivePerId(Run(Init(), schedule, local, false))
  {
    var s := Run(Init(), schedule, local, false);
    forall p, q | 0 <= p < |s.peers| && 0 <= q < |s.peers| && SameLive(s.peers[p], s.peers[q])
      ensures p == q
    {
      LivePeersAreEntered(schedule, local, p);
      LivePeersAreEntered(schedule, local, q);
    }
  }

  lemma {:induction false} Do(schedule: seq<Action>, a: Action, s: State, local: string, renames: bool)
      returns (longer: seq<Action>)
    ensures Run(s, longer, local, renames) == Step(Run(s, schedule, local, renames), a, local, renames)
    decreases |schedule|
  {
    if schedule == [] {
      longer := [a];
      assert longer[1..] == [];
    } else {
      var rest := Do(schedule[1..], a, Step(s, schedule[0], local, renames), local, renames);
      longer := [schedule[0]] + rest;
      assert longer[1..] == rest;
    }
  }

  /** An accepted connection brings its Hello and is registered under the new id. */
  lemma Register(schedule: seq<Action>, id: string, local: string, renames: bool) returns (longer: seq<Action>)
    requires id != "" && id !in Run(Init(), schedule, local, renames).table
    ensures var s := Run(Init(), schedule, local, renames);
      Run(Init(), longer, local, renames) ==
        State(s.peers + [Peer(None, id, Connected, Open, true, NoDial, Registered(false, Once), NotRun)],
              s.table[id := |s.peers|])
  {
    var p := |Run(Init(), schedule, local, renames).peers|;
    longer := Do(schedule, Accept, Init(), local, renames);
    longer := Do(longer, OnConnected(p), Init(), local, renames);
    longer := Do(longer, HelloBind(p, id), Init(), local, renames);
    longer := Do(longer, HelloSet(p), Init(), local, renames);
  }

  /** Two accepted connections register under different ids; then the first one's second
      Hello claims the other's id. */
  lemma SecondHello(local: string) returns (schedule: seq<Action>)
    ensures !OneLivePerId(Run(Init(), schedule, local, true))
  {
    schedule := Register([], "a", local, true);
    schedule := Register(schedule, "b", local, true);
    schedule := Do(schedule, HelloBind(0, "b"), Init(), local, true);
    var s := Run(Init(), schedule, local, true);
    assert SameLive(s.peers[0], s.peers[1]);
  }

  /** There is at most one live connected peer an id in every run exactly when a connection
      cannot take another id with a second Hello. */
  lemma OneLiveExactly(local: string, renames: bool)
    ensures (forall schedule :: OneLivePerId(Run(Init(), schedule, local, renames))) <==> !renames
  {
    if renames {
      var schedule := SecondHello(local);
    } else {
      forall schedule
        ensures OneLivePerId(Run(Init(), schedule, local, renames))
      {
        OneLive(schedule, local);
      }
    }
  }

  // ---- What dials, Hellos and closes come to, in every run ----

  /** Connecting to an id that has an entry, or is the node's own, does nothing; any other is
      entered at once, and dialed. */
  lemma ConnectDecides(s: State, id: string, local: string, renames: bool)
    ensures var t := Step(s, Connect(id), local, renames);
      if id == local || id in s.table then t == s
      else
        && t.table == s.table[id := |s.peers|] && |t.peers| == |s.peers| + 1 && t.peers[..|s.peers|] == s.peers
        && var q := t.peers[|s.peers|];
           q.expected == Some(id) && q.dial.Dialing? && q.conn.NotOpen? && q.phase.Idle? && q.remoteId == ""
  {
  }

  /** A dial to a new id that opens, and whose other end says that id, ends as the live
      connected peer of the id. */
  lemma DialConnects(schedule: seq<Action>, id: string, local: string, renames: bool) returns (longer: seq<Action>)
    requires id != "" && id != local && id !in Run(Init(), schedule, local, renames).table
    ensures var s := Run(Init(), schedule, local, renames);
      Run(Init(), longer, local, renames) ==
        State(s.peers + [Peer(Some(id), id, Connected, Open, true, DialReturned, Registered(false, Once), NotRun)],
              s.table[id := |s.peers|])
  {
    var p := |Run(Init(), schedule, local, renames).peers|;
    longer := Attaches(schedule, id, local, renames);
    longer := Do(longer, HelloBind(p, id), Init(), local, renames);
    longer := Do(longer, HelloSet(p), Init(), local, renames);
    longer := Do(longer, DialDone(p), Init(), local, renames);
  }

  /** A dial that opens: its peer is attached, and waits for the Hello. */
  lemma Attaches(schedule: seq<Action>, id: string, local: string, renames: bool) returns (longer: seq<Action>)
    requires id != local && id !in Run(Init(), schedule, local, renames).table
    ensures var s := Run(Init(), schedule, local, renames);
      Run(Init(), longer, local, renames) ==
        State(s.peers + [Peer(Some(id), "", Handshaking, Open, true, Dialing, Unseen, NotRun)],
              s.table[id := |s.peers|])
  {
    var p := |Run(Init(), schedule, local, renames).peers|;
    longer := Do(schedule, Connect(id), Init(), local, renames);
    longer := Do(longer, DialOpen(p), Init(), local, renames);
    longer := Do(longer, OnConnected(p), Init(), local, renames);
  }

  /** A dial that fails takes its entry away again, so that the id can be dialed once more. */
  lemma DialGivesUp(schedule: seq<Action>, id: string, local: string, renames: bool) returns (longer: seq<Action>)
    requires id != local && id !in Run(Init(), schedule, local, renames).table
    ensures var s := Run(Init(), schedule, local, renames);
      Run(Init(), longer, local, renames) ==
        State(s.peers + [NewPeer(Some(id)).(dial := DialFailed)], s.table)
  {
    var p := |Run(Init(), schedule, local, renames).peers|;
    longer := Do(schedule, Connect(id), Init(), local, renames);
    longer := Do(longer, DialFail(p), Init(), local, renames);
    assert Run(Init(), longer, local, renames).table == Run(Init(), schedule, local, renames).table;
  }

  /** A Hello with another id than the one that was dialed is turned down: the peer is never
      registered by it, whatever the table is. */
  lemma WrongIdRefused(schedule: seq<Action>, id: string, other: string, local: string, renames: bool)
      returns (longer: seq<Action>)
    requires id != "" && other != "" && other != id && id != local
    requires id !in Run(Init(), schedule, local, renames).table
    ensures var s := Run(Init(), schedule, local, renames);
      Run(Init(), longer, local, renames) ==
        State(s.peers + [Peer(Some(id), "", Handshaking, Open, true, Dialing, Rejected, NotRun)],
              s.table[id := |s.peers|])
  {
    var p := |Run(Init(), schedule, local, renames).peers|;
    longer := Attaches(schedule, id, local, renames);
    longer := Do(longer, HelloBind(p, other), Init(), local, renames);
    longer := Do(longer, HelloSet(p), Init(), local, renames);
  }

  /** A second Hello of a registered peer is bound where its id may be, and turned down in its
      second step, with the table and every connection as they were; a third one is ignored. */
  lemma SecondHelloDecides(s: State, p: nat, id: string, local: string, renames: bool)
    requires p < |s.peers| && s.peers[p].hello.Registered? && s.peers[p].attached && id != ""
    requires s.peers[p].Dialed() == "" || s.peers[p].Dialed() == s.peers[p].remoteId
    ensures var q := s.peers[p];
      var bound := Step(s, HelloBind(p, id), local, renames);
      var t := Step(bound, HelloSet(p), local, renames);
      && (!q.hello.again.Once? ==> bound == s)
      && (!q.hello.again.Rebound? ==> Step(s, HelloSet(p), local, renames) == s)
      && (q.hello.again.Once? && (renames || id == q.remoteId || q.Dialed() != "") ==>
            && t == s.(peers := t.peers) && |t.peers| == |s.peers|
            && t.peers[p].hello == Registered(q.hello.late, Refused)
            && t.peers[p].remoteId == (if q.Dialed() != "" then q.remoteId else id)
            && t.peers[p].conn == q.conn && t.peers[p].phase == q.phase
            && forall r :: 0 <= r < |s.peers| && r != p ==> t.peers[r] == s.peers[r])
      && (q.hello.again.Once? && !renames && id != q.remoteId && q.Dialed() == "" ==> bound == s)
  {
  }

  /** The events of a connection, each at its time: it opens only while it is being dialed,
      the dial returns only with an open or closed connection, it is attached once, closes
      once, and its close callback looks once, for nobody if it never got a peer. */
  lemma ConnectionDecides(s: State, p: nat, local: string, renames: bool)
    requires p < |s.peers|
    ensures var q := s.peers[p];
      && Step(s, DialOpen(p), local, renames) ==
           (if q.dial.Dialing? && q.conn.NotOpen? then s.(peers := s.peers[p := q.(conn := Open)]) else s)
      && Step(s, DialDone(p), local, renames) ==
           (if q.dial.Dialing? && (q.conn.Open? || q.conn.Shut?)
            then s.(peers := s.peers[p := q.(dial := DialReturned)]) else s)
      && Step(s, CloseConn(p), local, renames) ==
           (if q.conn.Open? then s.(peers := s.peers[p := q.(conn := Shut)]) else s)
      && (q.attached || q.conn.NotOpen? ==> Step(s, OnConnected(p), local, renames) == s)
      && (!q.attached && !q.conn.NotOpen? ==>
            var t := Step(s, OnConnected(p), local, renames);
            && t == s.(peers := s.peers[p := q.(attached := true, phase := t.peers[p].phase)])
            && t.peers[p].phase == if q.phase.Idle? then Handshaking else q.phase)
      && (!q.conn.Shut? || !q.closing.NotRun? ==> Step(s, CloseLook(p), local, renames) == s)
      && (q.conn.Shut? && q.closing.NotRun? ==>
            Step(s, CloseLook(p), local, renames) == s.(peers := s.peers[p := q.(closing :=
              if q.expected.None? && !q.attached then Finished(None) else Looked(q.Id()))]))
  {
  }

  /** What the second step of a first Hello does: it registers the peer and shuts the
      attached connection that had the entry, unless the peer has left the handshake. */
  lemma HelloDecides(s: State, p: nat, local: string, renames: bool)
    requires p < |s.peers| && s.peers[p].hello.Bound?
    ensures var q, t := s.peers[p], Step(s, HelloSet(p), local, renames);
      && |t.peers| == |s.peers|
      && (if !q.phase.Handshaking? then t.table == s.table && t.peers == s.peers[p := q.(hello := Rejected)]
          else
            && t.table == s.table[q.remoteId := p]
            && t.peers[p].phase.Connected? && t.peers[p].hello.Registered? && t.peers[p].conn == q.conn
            && forall r :: 0 <= r < |s.peers| && r != p ==>
                 t.peers[r] == s.peers[r].(conn :=
                   if q.remoteId in s.table && s.table[q.remoteId] == r && s.peers[r].attached && s.peers[r].conn.Open?
                   then Shut else s.peers[r].conn))
  {
  }

  /** A connected peer that closes leaves the table, and its id can be dialed again. */
  lemma CloseLeaves(schedule: seq<Action>, p: nat, local: string, renames: bool) returns (longer: seq<Action>)
    requires var s := Run(Init(), schedule, local, renames);
      && p < |s.peers| && s.peers[p].Live() && s.peers[p].closing.NotRun? && s.peers[p].attached
      && s.peers[p].remoteId != "" && Present(s, s.peers[p].remoteId, p)
    ensures var s := Run(Init(), schedule, local, renames); var q := s.peers[p];
      Run(Init(), longer, local, renames) ==
        State(s.peers[p := q.(conn := Shut, closing := Finished(Some(q.remoteId)))], s.table - {q.remoteId})
  {
    longer := Do(schedule, CloseConn(p), Init(), local, renames);
    longer := Do(longer, CloseLook(p), Init(), local, renames);
    longer := Do(longer, CloseRemove(p), Init(), local, renames);
  }

  // ---- Entries that outlive their connections, whether connections take other ids or not ----

  predicate Present(s: State, id: string, p: nat) { id in s.table && s.table[id] == p }

  /** No other connection registers under this id. */
  predicate NoOtherHello(s: State, schedule: seq<Action>, id: string, local: string, renames: bool)
    decreases |schedule|
  {
    || schedule == []
    || (!RegistersUnder(s, schedule[0], id)
        && NoOtherHello(Step(s, schedule[0], local, renames), schedule[1..], id, local, renames))
  }

  predicate RegistersUnder(s: State, a: Action, id: string) {
    a.HelloSet? && a.p < |s.peers| && s.peers[a.p].hello.Bound? && s.peers[a.p].remoteId == id
  }

  /** Whether the entry that a peer registered when it was q is left when it is n: its close
      callback had run, or did not look under that id, and no dial to that id failed since. */
  predicate Left(q: Peer, n: Peer, id: string) {
    && (!n.closing.Finished? || q.closing.Finished? || n.closing.looked != Some(id))
    && !(n.dial.DialFailed? && !q.dial.DialFailed? && q.Dialed() == id)
  }

  /** How a registered peer q can have gone on as n. */
  predicate Later(q: Peer, n: Peer) {
    && n.hello.Registered? && n.expected == q.expected
    && (q.closing.Finished? ==> n.closing == q.closing)
    && (q.closing.Looked? ==> n.closing == q.closing || n.closing == Finished(Some(q.closing.id)))
    && (!q.dial.Dialing? ==> n.dial == q.dial)
    && (q.conn.Shut? ==> n.conn.Shut?) && (!n.closing.NotRun? ==> n.conn.Shut? || !q.closing.NotRun?)
  }

  /** A peer is touched by others only where its connection is shut. */
  lemma OtherStep(s: State, a: Action, p: nat, renames: bool)
    requires p < |s.peers| && !a.Connect? && !a.Accept? && a.p < |s.peers| && a.p != p
    ensures var t := PeerStep(s, a, s.peers[a.p], renames);
      p < |t.peers| && (t.peers[p] == s.peers[p] || (t.peers[p] == s.peers[p].(conn := Shut) && s.peers[p].conn.Open?))
  {
  }

  /** Nor is its entry touched, unless another registers under the id. */
  lemma OtherEntryStep(s: State, a: Action, id: string, p: nat, renames: bool)
    requires p < |s.peers| && !a.Connect? && !a.Accept? && a.p < |s.peers| && a.p != p && !RegistersUnder(s, a, id)
    ensures Present(PeerStep(s, a, s.peers[a.p], renames), id, p) <==> Present(s, id, p)
  {
  }

  lemma OwnStep(s: State, a: Action, p: nat, q: Peer, id: string, renames: bool)
    requires p < |s.peers| && Later(q, s.peers[p]) && (Present(s, id, p) <==> Left(q, s.peers[p], id))
    requires !a.Connect? && !a.Accept? && a.p == p
    ensures var t := PeerStep(s, a, s.peers[p], renames);
      p < |t.peers| && Later(q, t.peers[p]) && (Present(t, id, p) <==> Left(q, t.peers[p], id))
  {
  }

  lemma LeftStep(s: State, a: Action, p: nat, q: Peer, id: string, local: string, renames: bool)
    requires p < |s.peers| && Later(q, s.peers[p]) && (Present(s, id, p) <==> Left(q, s.peers[p], id))
    requires !RegistersUnder(s, a, id)
    ensures var t := Step(s, a, local, renames);
      p < |t.peers| && Later(q, t.peers[p]) && (Present(t, id, p) <==> Left(q, t.peers[p], id))
  {
    if !a.Connect? && !a.Accept? {
      if a.p == p {
        OwnStep(s, a, p, q, id, renames);
      } else if a.p < |s.peers| {
        OtherStep(s, a, p, renames);
        OtherEntryStep(s, a, id, p, renames);
      }
    }
  }

  lemma {:induction false} LeftRun(s: State, more: seq<Action>, p: nat, q: Peer, id: string, local: string,
      renames: bool)
    requires p < |s.peers| && Later(q, s.peers[p]) && (Present(s, id, p) <==> Left(q, s.peers[p], id))
    requires NoOtherHello(s, more, id, local, renames)
    ensures var u := Run(s, more, local, renames);
      p < |u.peers| && Later(q, u.peers[p]) && (Present(u, id, p) <==> Left(q, u.peers[p], id))
    decreases |more|
  {
    if more != [] {
      LeftStep(s, more[0], p, q, id, local, renames);
      LeftRun(Step(s, more[0], local, renames), more[1..], p, q, id, local, renames);
    }
  }

  /** A Hello passes the state check and registers its peer. */
  predicate Registers(s: State, p: nat) {
    p < |s.peers| && s.peers[p].hello.Bound? && s.peers[p].phase.Handshaking?
  }

  lemma RegistersNow(s: State, p: nat, local: string, renames: bool)
    requires Registers(s, p)
    ensures var q, t := s.peers[p], Step(s, HelloSet(p), local, renames);
      && p < |t.peers| && Present(t, q.remoteId, p)
      && t.peers[p] == q.(phase := Connected, hello := Registered(LookedEarly(q), Once))
  {
  }

  /** A connection that was shut if its close callback had begun has ended, callback and all. */
  predicate Ended(q: Peer, n: Peer) {
    (!q.closing.NotRun? ==> q.conn.Shut?) && n.closing.Finished? && !n.dial.Dialing?
  }

  /** For every Hello that registers, in every state and every continuation without another
      Hello for the id: the peer is still the entry for the id it registered under if and
      only if its close callback had run by then, or has not run, or looked under another
      id or none, and no dial to that id has failed since. */
  lemma OutlivesCloseExactly(s: State, p: nat, more: seq<Action>, local: string, renames: bool)
    requires Registers(s, p)
    requires NoOtherHello(Step(s, HelloSet(p), local, renames), more, s.peers[p].remoteId, local, renames)
    ensures var u := Run(Step(s, HelloSet(p), local, renames), more, local, renames);
      p < |u.peers| && (Present(u, s.peers[p].remoteId, p) <==> Left(s.peers[p], u.peers[p], s.peers[p].remoteId))
    ensures var q, u := s.peers[p], Run(Step(s, HelloSet(p), local, renames), more, local, renames);
      Ended(q, u.peers[p]) && Left(q, u.peers[p], q.remoteId) ==> Stuck(u, q.remoteId, p)
  {
    var q, t := s.peers[p], Step(s, HelloSet(p), local, renames);
    RegistersNow(s, p, local, renames);
    LeftRun(t, more, p, t.peers[p], q.remoteId, local, renames);
  }

  /** Where no connection takes another id, the callback looks under another id only if it
      looked before the Hello registered; the condition can then be seen at the registration. */
  lemma OutlivesCloseWithoutRenaming(schedule: seq<Action>, p: nat, more: seq<Action>, local: string)
    requires var s := Run(Init(), schedule, local, false);
      && Registers(s, p) && !s.peers[p].dial.Dialing?
      && var t := Step(s, HelloSet(p), local, false);
         var u := Run(t, more, local, false);
         NoOtherHello(t, more, s.peers[p].remoteId, local, false) && p < |u.peers| && u.peers[p].closing.Finished?
    ensures var s := Run(Init(), schedule, local, false);
      var u := Run(Step(s, HelloSet(p), local, false), more, local, false);
      Present(u, s.peers[p].remoteId, p) <==> LookedEarly(s.peers[p])
  {
    var s := Run(Init(), schedule, local, false);
    var q, id, t := s.peers[p], s.peers[p].remoteId, Step(s, HelloSet(p), local, false);
    RegistersNow(s, p, local, false);
    LeftRun(t, more, p, t.peers[p], id, local, false);
    var u := Run(t, more, local, false);
    InvRun(Init(), schedule, local);
    assert PeerOk(q, Entered(s, p));
    InvKept(s, HelloSet(p), local);
    LateStays(t, more, p, local);
    InvRun(t, more, local);
    assert PeerOk(u.peers[p], Entered(u, p));
  }

  /** Where no connection takes another id, a registration stays what it was. */
  lemma {:induction false} LateStays(s: State, more: seq<Action>, p: nat, local: string)
    requires Inv(s) && p < |s.peers| && s.peers[p].hello.Registered?
    ensures var u := Run(s, more, local, false);
      && p < |u.peers| && u.peers[p].remoteId == s.peers[p].remoteId
      && u.peers[p].hello.Registered? && u.peers[p].hello.late == s.peers[p].hello.late
    decreases |more|
  {
    if more != [] {
      LateStep(s, more[0], p, local);
      InvKept(s, more[0], local);
      LateStays(Step(s, more[0], local, false), more[1..], p, local);
    }
  }

  lemma LateStep(s: State, a: Action, p: nat, local: string)
    requires Inv(s) && p < |s.peers| && s.peers[p].hello.Registered?
    ensures var t := Step(s, a, local, false);
      && p < |t.peers| && t.peers[p].remoteId == s.peers[p].remoteId
      && t.peers[p].hello.Registered? && t.peers[p].hello.late == s.peers[p].hello.late
  {
    assert PeerOk(s.peers[p], Entered(s, p));
    if !a.Connect? && !a.Accept? && a.p < |s.peers| && a.p != p {
      OtherStep(s, a, p, false);
    }
  }

  /** A closed peer under an id, with nothing of its own left that would remove it. */
  predicate Stuck(s: State, id: string, p: nat) {
    && Present(s, id, p) && p < |s.peers|
    && var q := s.peers[p]; q.hello.Registered? && q.closing.Finished? && q.conn.Shut? && !q.dial.Dialing?
  }

  /** Such an entry stays, and connecting to its id does nothing, until another connection
      brings a Hello with the id. */
  lemma StuckStays(s: State, more: seq<Action>, id: string, p: nat, local: string, renames: bool)
    requires Stuck(s, id, p) && NoOtherHello(s, more, id, local, renames)
    ensures var t := Run(s, more, local, renames); Stuck(t, id, p) && Step(t, Connect(id), local, renames) == t
  {
    LeftRun(s, more, p, s.peers[p], id, local, renames);
  }

  /** An accepted connection has said its id and not registered yet. */
  lemma Bringing(local: string, id: string, renames: bool) returns (schedule: seq<Action>)
    requires id != ""
    ensures Run(Init(), schedule, local, renames)
         == State([Peer(None, id, Handshaking, Open, true, NoDial, Bound, NotRun)], map[])
  {
    schedule := Do([], Accept, Init(), local, renames);
    schedule := Do(schedule, OnConnected(0), Init(), local, renames);
    schedule := Do(schedule, HelloBind(0, id), Init(), local, renames);
  }

  /** It does happen: the close callback runs between the two steps of the Hello. */
  lemma HelloAfterClose(local: string, id: string, renames: bool) returns (schedule: seq<Action>)
    requires id != ""
    ensures Stuck(Run(Init(), schedule, local, renames), id, 0)
  {
    schedule := Bringing(local, id, renames);
    schedule := Do(schedule, CloseConn(0), Init(), local, renames);
    schedule := Do(schedule, CloseLook(0), Init(), local, renames);
    schedule := Do(schedule, CloseRemove(0), Init(), local, renames);
    schedule := Do(schedule, HelloSet(0), Init(), local, renames);
  }

  /** Or a second Hello with another id is bound, and turned down, before the connection
      closes; the callback then looks under that other id. */
  lemma RenamedBeforeClose(local: string, id: string, other: string) returns (schedule: seq<Action>)
    requires id != "" && other != "" && other != id
    ensures Stuck(Run(Init(), schedule, local, true), id, 0)
  {
    schedule := Register([], id, local, true);
    schedule := Do(schedule, HelloBind(0, other), Init(), local, true);
    schedule := Do(schedule, HelloSet(0), Init(), local, true);
    schedule := Do(schedule, CloseConn(0), Init(), local, true);
    schedule := Do(schedule, CloseLook(0), Init(), local, true);
    schedule := Do(schedule, CloseRemove(0), Init(), local, true);
  }
}
