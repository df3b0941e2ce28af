/** Ask, Forward and respond across nodes. A request reference travels with an envelope
    through any chain of local and remote forwards; each action is one step of one
    actor, one asker or one receive loop. Whether a send or a push succeeds is up to the
    environment. Two history fields follow the references: `ask` numbers the Ask a
    reference was made for, and the logs record what succeeded. */
module AskForward {
  import opened Wrappers
  import opened Counting
  import opened Refs

  datatype Request = Request(ref: Ref, ask: nat)

  datatype Envelope = Envelope(sender: nat, request: Option<Request>)

  datatype Actor = Actor(node: NodeId, queue: seq<Envelope>, current: Envelope, responded: bool)

  datatype Packet =
    | RequestPacket(to: nat, envelope: Envelope)
    | ResponsePacket(node: NodeId, request: Request)

  datatype Origin = Origin(ref: Ref, sender: nat)

  datatype State = State(
    actors: seq<Actor>,
    net: seq<Packet>,
    outbox: seq<Envelope>,   // envelopes of Asks added to the table and not sent yet
    pending: map<Ref, nat>,  // the tables of all nodes, with the Ask of each entry
    asked: seq<Origin>,      // every Ask so far
    won: seq<nat>,           // the Asks whose respond, respondError or reject succeeded
    done: seq<(nat, nat)>)   // the Ask of each reply that completed a request, and the Ask it completed

  const NO_SENDER := 0

  function Begin(nodes: seq<NodeId>): State {
    State(seq(|nodes|, i requires 0 <= i < |nodes| => Actor(nodes[i], [], Envelope(NO_SENDER, None), false)),
          [], [], map[], [], [], [])
  }

  predicate ValidRef(ref: Ref) {
    ref.node != "" && ref.id != 0
  }

  predicate Sendable(e: Envelope) {
    e.request.Some? ==> ValidRef(e.request.value.ref)
  }

  /** SendEnvelope on node `from`: refused for a malformed reference, otherwise to the
      wire or to the target's queue if the environment lets it through. */
  function Send(s: State, from: NodeId, to: nat, e: Envelope, ok: bool): (r: (State, bool))
    requires to < |s.actors|
  {
    if !ok || !Sendable(e) then (s, false)
    else if s.actors[to].node != from then (s.(net := s.net + [RequestPacket(to, e)]), true)
    else (s.(actors := s.actors[to := s.actors[to].(queue := s.actors[to].queue + [e])]), true)
  }

  /** The table of `node` completes request number `id` with a reply made for `ask`. */
  function Complete(s: State, node: NodeId, id: nat, ask: nat): (r: (State, bool)) {
    var ref := Ref(node, id);
    if ref in s.pending then (s.(pending := s.pending - {ref}, done := s.done + [(ask, s.pending[ref])]), true)
    else (s, false)
  }

  function Respond(s: State, a: nat, ok: bool): State
    requires a < |s.actors|
  {
    var me := s.actors[a];
    if me.responded || me.current.request.None? then s
    else
      var request := me.current.request.value;
      var (next, sent) :=
        if request.ref.node != me.node then
          (if ok then s.(net := s.net + [ResponsePacket(request.ref.node, request)]) else s, ok)
        else Complete(s, me.node, request.ref.id, request.ask);
      if sent then next.(actors := next.actors[a := me.(responded := true)], won := next.won + [request.ask]) else s
  }

  function Forward(s: State, a: nat, to: nat, ok: bool): State
    requires a < |s.actors| && to < |s.actors|
  {
    if s.actors[a].responded then s
    else
      var (next, sent) := Send(s, s.actors[a].node, to, s.actors[a].current, ok);
      if sent then next.(actors := next.actors[a := next.actors[a].(responded := true)]) else s
  }

  /** A packet reaches its node. A request that cannot be pushed is rejected with an
      error response, if that can be sent. */
  function Receive(s: State, i: nat, readable: bool, pushed: bool, rejected: bool): State
    requires i < |s.net|
  {
    var rest := s.(net := s.net[..i] + s.net[i + 1..]);
    if !readable then rest
    else
      match s.net[i]
      case RequestPacket(to, e) =>
        if to >= |s.actors| then rest
        else
          var (next, sent) := Send(rest, s.actors[to].node, to, e, pushed);
          if sent then next
          else if rejected && e.request.Some? && Sendable(e) then
            next.(net := next.net + [ResponsePacket(e.request.value.ref.node, e.request.value)],
                  won := next.won + [e.request.value.ask])
          else next
      case ResponsePacket(node, request) =>
        if !ValidRef(request.ref) then rest else Complete(rest, node, request.ref.id, request.ask).0
  }

  datatype Action =
    | AskAdd(ref: Ref, sender: nat)
    | AskSend(k: nat, to: nat, ok: bool)
    | TellSend(sender: nat, from: NodeId, to: nat, ok: bool)
    | Invoke(a: nat)
    | DoForward(a: nat, to: nat, ok: bool)
    | DoRespond(a: nat, ok: bool)
    | Arrive(i: nat, readable: bool, pushed: bool, rejected: bool)
    | Lose(i: nat)
    | Expire(ref: Ref)  // timer or shutdown

  predicate Enabled(s: State, a: Action) {
    match a
    case AskAdd(ref, _) => forall j :: 0 <= j < |s.asked| ==> s.asked[j].ref != ref
    case AskSend(k, to, _) => k < |s.outbox| && to < |s.actors|
    case TellSend(_, _, to, _) => to < |s.actors|
    case Invoke(a) => a < |s.actors| && s.actors[a].queue != []
    case DoForward(a, to, _) => a < |s.actors| && to < |s.actors|
    case DoRespond(a, _) => a < |s.actors|
    case Arrive(i, _, _, _) => i < |s.net|
    case Lose(i) => i < |s.net|
    case Expire(_) => true
  }

  function Apply(s: State, a: Action): State
    requires Enabled(s, a)
  {
    match a
    case AskAdd(ref, sender) =>
      s.(pending := s.pending[ref := |s.asked|], asked := s.asked + [Origin(ref, sender)],
         outbox := s.outbox + [Envelope(sender, Some(Request(ref, |s.asked|)))])
    case AskSend(k, to, ok) =>
      var e := s.outbox[k];
      var rest := s.(outbox := s.outbox[..k] + s.outbox[k + 1..]);
      var node := if e.request.Some? then e.request.value.ref.node else "";
      var (next, sent) := Send(rest, node, to, e, ok);
      if sent || e.request.None? then next else next.(pending := next.pending - {e.request.value.ref})
    case TellSend(sender, from, to, ok) => Send(s, from, to, Envelope(sender, None), ok).0
    case Invoke(a) =>
      var me := s.actors[a];
      s.(actors := s.actors[a := me.(queue := me.queue[1..], current := me.queue[0], responded := false)])
    case DoForward(a, to, ok) => Forward(s, a, to, ok)
    case DoRespond(a, ok) => Respond(s, a, ok)
    case Arrive(i, readable, pushed, rejected) => Receive(s, i, readable, pushed, rejected)
    case Lose(i) => s.(net := s.net[..i] + s.net[i + 1..])
    case Expire(ref) => s.(pending := s.pending - {ref})
  }

  function Run(s: State, schedule: seq<Action>): State {
    if schedule == [] then s
    else
      var before := Run(s, schedule[..|schedule| - 1]);
      var a := schedule[|schedule| - 1];
      if Enabled(before, a) then Apply(before, a) else before
  }

  // ---- Where the reference of Ask k is ----

  function For(e: Envelope, k: nat): nat {
    if e.request.Some? && e.request.value.ask == k then 1 else 0
  }

  function CarriesFor(k: nat): Envelope -> nat { (e: Envelope) => For(e, k) }

  /** Queued at an actor, or the unresponded current message of its handler. */
  function HoldsFor(k: nat): Actor -> nat {
    (a: Actor) => Sum(a.queue, CarriesFor(k)) + if a.responded then 0 else For(a.current, k)
  }

  function TravelsFor(k: nat): Packet -> nat {
    (p: Packet) => if p.RequestPacket? then For(p.envelope, k) else 0
  }

  function AnswersFor(k: nat): Packet -> nat {
    (p: Packet) => if p.ResponsePacket? && p.request.ask == k then 1 else 0
  }

  function IsAsk(k: nat): nat -> nat { (x: nat) => if x == k then 1 else 0 }

  function CompletedBy(k: nat): ((nat, nat)) -> nat { (d: (nat, nat)) => if d.0 == k then 1 else 0 }

  function Live(s: State, k: nat): nat {
    Sum(s.outbox, CarriesFor(k)) + Sum(s.actors, HoldsFor(k)) + Sum(s.net, TravelsFor(k))
  }

  function Won(s: State, k: nat): nat { Sum(s.won, IsAsk(k)) }

  function Replies(s: State, k: nat): nat {
    Sum(s.net, AnswersFor(k)) + Sum(s.done, CompletedBy(k))
  }

  predicate LinearAt(s: State, k: nat) {
    && Live(s, k) + Won(s, k) <= (if k < |s.asked| then 1 else 0)
    && Replies(s, k) <= Won(s, k)
  }

  // ---- Every reference is the one its Ask was given ----

  predicate RequestRight(asked: seq<Origin>, r: Request) {
    r.ask < |asked| && asked[r.ask].ref == r.ref
  }

  predicate EnvelopeRight(asked: seq<Origin>, e: Envelope) {
    e.request.Some? ==> RequestRight(asked, e.request.value) && e.sender == asked[e.request.value.ask].sender
  }

  predicate PacketRight(asked: seq<Origin>, p: Packet) {
    match p
    case RequestPacket(_, e) => EnvelopeRight(asked, e)
    case ResponsePacket(node, r) => RequestRight(asked, r) && node == r.ref.node
  }

  predicate ActorRight(asked: seq<Origin>, a: Actor) {
    EnvelopeRight(asked, a.current) && forall i :: 0 <= i < |a.queue| ==> EnvelopeRight(asked, a.queue[i])
  }

  predicate RefsRight(s: State) {
    && (forall i, j :: 0 <= i < j < |s.asked| ==> s.asked[i].ref != s.asked[j].ref)
    && (forall i :: 0 <= i < |s.outbox| ==> EnvelopeRight(s.asked, s.outbox[i]) && s.outbox[i].request.Some?)
    && (forall i :: 0 <= i < |s.actors| ==> ActorRight(s.asked, s.actors[i]))
    && (forall i :: 0 <= i < |s.net| ==> PacketRight(s.asked, s.net[i]))
    && (forall ref :: ref in s.pending ==> s.pending[ref] < |s.asked| && s.asked[s.pending[ref]].ref == ref)
    && (forall i :: 0 <= i < |s.done| ==> s.done[i].0 == s.done[i].1)
  }

  lemma SendRight(s: State, from: NodeId, to: nat, e: Envelope, ok: bool)
    requires RefsRight(s) && to < |s.actors| && EnvelopeRight(s.asked, e)
    ensures RefsRight(Send(s, from, to, e, ok).0)
  {
  }

  lemma CompleteRight(s: State, request: Request)
    requires RefsRight(s) && RequestRight(s.asked, request)
    ensures RefsRight(Complete(s, request.ref.node, request.ref.id, request.ask).0)
  {
  }

  lemma LoseRight(s: State, i: nat)
    requires RefsRight(s) && i < |s.net|
    ensures RefsRight(s.(net := s.net[..i] + s.net[i + 1..])) && PacketRight(s.asked, s.net[i])
  {
  }

  lemma RespondRight(s: State, a: nat, ok: bool)
    requires RefsRight(s) && a < |s.actors|
    ensures RefsRight(Respond(s, a, ok))
  {
    assert ActorRight(s.asked, s.actors[a]);
    if s.actors[a].current.request.Some? {
      CompleteRight(s, s.actors[a].current.request.value);
    }
  }

  lemma ForwardRight(s: State, a: nat, to: nat, ok: bool)
    requires RefsRight(s) && a < |s.actors| && to < |s.actors|
    ensures RefsRight(Forward(s, a, to, ok))
  {
    assert ActorRight(s.asked, s.actors[a]);
    SendRight(s, s.actors[a].node, to, s.actors[a].current, ok);
  }

  lemma ReceiveRight(s: State, i: nat, readable: bool, pushed: bool, rejected: bool)
    requires RefsRight(s) && i < |s.net|
    ensures RefsRight(Receive(s, i, readable, pushed, rejected))
  {
    LoseRight(s, i);
    var rest := s.(net := s.net[..i] + s.net[i + 1..]);
    match s.net[i]
    case RequestPacket(to, e) =>
      if to < |s.actors| {
        SendRight(rest, s.actors[to].node, to, e, pushed);
      }
    case ResponsePacket(node, request) => CompleteRight(rest, request);
  }

  lemma AskAddRight(s: State, ref: Ref, sender: nat)
    requires RefsRight(s) && Enabled(s, AskAdd(ref, sender))
    ensures RefsRight(Apply(s, AskAdd(ref, sender)))
  {
  }

  lemma AskSendRight(s: State, k: nat, to: nat, ok: bool)
    requires RefsRight(s) && Enabled(s, AskSend(k, to, ok))
    ensures RefsRight(Apply(s, AskSend(k, to, ok)))
  {
    var e := s.outbox[k];
    var rest := s.(outbox := s.outbox[..k] + s.outbox[k + 1..]);
    assert RefsRight(rest);
    SendRight(rest, e.request.value.ref.node, to, e, ok);
  }

  lemma InvokeRight(s: State, a: nat)
    requires RefsRight(s) && Enabled(s, Invoke(a))
    ensures RefsRight(Apply(s, Invoke(a)))
  {
    assert ActorRight(s.asked, s.actors[a]);
    assert ActorRight(s.asked, Apply(s, Invoke(a)).actors[a]);
  }

  lemma RightKept(s: State, a: Action)
    requires RefsRight(s) && Enabled(s, a)
    ensures RefsRight(Apply(s, a))
  {
    match a
    case AskAdd(ref, sender) => AskAddRight(s, ref, sender);
    case AskSend(k, to, ok) => AskSendRight(s, k, to, ok);
    case TellSend(sender, from, to, ok) => SendRight(s, from, to, Envelope(sender, None), ok);
    case Invoke(a) => InvokeRight(s, a);
    case DoForward(a, to, ok) => ForwardRight(s, a, to, ok);
    case DoRespond(a, ok) => RespondRight(s, a, ok);
    case Arrive(i, readable, pushed, rejected) => ReceiveRight(s, i, readable, pushed, rejected);
    case Lose(i) => LoseRight(s, i);
    case Expire(ref) =>
  }

  // ---- Each reference is in at most one place ----

  lemma SendCounts(s: State, from: NodeId, to: nat, e: Envelope, ok: bool, k: nat)
    requires to < |s.actors|
    ensures var (n, sent) := Send(s, from, to, e, ok);
      && Live(n, k) == Live(s, k) + (if sent then For(e, k) else 0)
      && Replies(n, k) == Replies(s, k)
  {
    SumAppend(s.net, RequestPacket(to, e), TravelsFor(k));
    SumAppend(s.net, RequestPacket(to, e), AnswersFor(k));
    QueuedCounts(s.actors, to, e, k);
  }

  lemma QueuedCounts(actors: seq<Actor>, to: nat, e: Envelope, k: nat)
    requires to < |actors|
    ensures Sum(actors[to := actors[to].(queue := actors[to].queue + [e])], HoldsFor(k))
         == Sum(actors, HoldsFor(k)) + For(e, k)
  {
    var queued := actors[to].(queue := actors[to].queue + [e]);
    SumAppend(actors[to].queue, e, CarriesFor(k));
    SumUpdate(actors, to, queued, HoldsFor(k));
  }

  lemma CompleteCounts(s: State, node: NodeId, id: nat, ask: nat, k: nat)
    ensures var (n, found) := Complete(s, node, id, ask);
      && Live(n, k) == Live(s, k)
      && Replies(n, k) == Replies(s, k) + (if found && ask == k then 1 else 0)
  {
    var n := Complete(s, node, id, ask).0;
    assert n.outbox == s.outbox && n.actors == s.actors && n.net == s.net;
    if Ref(node, id) in s.pending {
      SumAppend(s.done, (ask, s.pending[Ref(node, id)]), CompletedBy(k));
    }
  }

  lemma RespondedCounts(s: State, a: nat, k: nat)
    requires a < |s.actors| && !s.actors[a].responded
    ensures var n := s.(actors := s.actors[a := s.actors[a].(responded := true)]);
      Live(n, k) + For(s.actors[a].current, k) == Live(s, k)
  {
    SumUpdate(s.actors, a, s.actors[a].(responded := true), HoldsFor(k));
  }

  lemma AnswerCounts(s: State, node: NodeId, r: Request, k: nat)
    ensures var n := s.(net := s.net + [ResponsePacket(node, r)], won := s.won + [r.ask]);
      && Live(n, k) == Live(s, k)
      && Replies(n, k) == Replies(s, k) + (if r.ask == k then 1 else 0)
      && Won(n, k) == Won(s, k) + (if r.ask == k then 1 else 0)
  {
    SumAppend(s.net, ResponsePacket(node, r), TravelsFor(k));
    SumAppend(s.net, ResponsePacket(node, r), AnswersFor(k));
    SumAppend(s.won, r.ask, IsAsk(k));
  }

  lemma RemovedCounts(s: State, i: nat, k: nat)
    requires i < |s.net|
    ensures var n := s.(net := s.net[..i] + s.net[i + 1..]);
      && Live(n, k) + TravelsFor(k)(s.net[i]) == Live(s, k)
      && Replies(n, k) + AnswersFor(k)(s.net[i]) == Replies(s, k)
  {
    SumRemove(s.net, i, TravelsFor(k));
    SumRemove(s.net, i, AnswersFor(k));
  }

  lemma RespondRemotely(s: State, a: nat, r: Request, k: nat)
    requires LinearAt(s, k) && a < |s.actors| && !s.actors[a].responded && s.actors[a].current.request == Some(r)
    ensures LinearAt(s.(actors := s.actors[a := s.actors[a].(responded := true)],
                        net := s.net + [ResponsePacket(r.ref.node, r)], won := s.won + [r.ask]), k)
  {
    RespondedCounts(s, a, k);
    AnswerCounts(s.(actors := s.actors[a := s.actors[a].(responded := true)]), r.ref.node, r, k);
  }

  lemma RespondLocally(s: State, a: nat, r: Request, k: nat)
    requires LinearAt(s, k) && a < |s.actors| && !s.actors[a].responded && s.actors[a].current.request == Some(r)
    ensures var (n, found) := Complete(s, r.ref.node, r.ref.id, r.ask);
      found ==> LinearAt(n.(actors := n.actors[a := s.actors[a].(responded := true)], won := n.won + [r.ask]), k)
  {
    RespondedCounts(s, a, k);
    CompleteCounts(s, r.ref.node, r.ref.id, r.ask, k);
    SumAppend(s.won, r.ask, IsAsk(k));
  }

  lemma RespondLinear(s: State, a: nat, ok: bool, k: nat)
    requires LinearAt(s, k) && a < |s.actors|
    ensures LinearAt(Respond(s, a, ok), k)
  {
    var me := s.actors[a];
    if !me.responded && me.current.request.Some? {
      RespondRemotely(s, a, me.current.request.value, k);
      RespondLocally(s, a, me.current.request.value, k);
    }
  }

  /** A sent copy, and the sender's own marked as responded, are one copy as before. */
  lemma MovedOn(s: State, next: State, a: nat, k: nat)
    requires LinearAt(s, k) && a < |next.actors| && !next.actors[a].responded
    requires Live(next, k) == Live(s, k) + For(next.actors[a].current, k) && Replies(next, k) == Replies(s, k)
    requires next.won == s.won && next.asked == s.asked
    ensures LinearAt(next.(actors := next.actors[a := next.actors[a].(responded := true)]), k)
  {
    RespondedCounts(next, a, k);
  }

  lemma SendKeepsActor(s: State, from: NodeId, to: nat, e: Envelope, ok: bool, a: nat)
    requires a < |s.actors| && to < |s.actors|
    ensures var next := Send(s, from, to, e, ok).0;
      && next.won == s.won && next.asked == s.asked && |next.actors| == |s.actors|
      && next.actors[a].current == s.actors[a].current && next.actors[a].responded == s.actors[a].responded
  {
  }

  lemma ForwardLinear(s: State, a: nat, to: nat, ok: bool, k: nat)
    requires LinearAt(s, k) && a < |s.actors| && to < |s.actors|
    ensures LinearAt(Forward(s, a, to, ok), k)
  {
    var me := s.actors[a];
    var (next, sent) := Send(s, me.node, to, me.current, ok);
    if !me.responded && sent {
      SendCounts(s, me.node, to, me.current, ok, k);
      SendKeepsActor(s, me.node, to, me.current, ok, a);
      MovedOn(s, next, a, k);
    }
  }

  lemma ReceiveLinear(s: State, i: nat, readable: bool, pushed: bool, rejected: bool, k: nat)
    requires LinearAt(s, k) && i < |s.net|
    ensures LinearAt(Receive(s, i, readable, pushed, rejected), k)
  {
    RemovedCounts(s, i, k);
    var rest := s.(net := s.net[..i] + s.net[i + 1..]);
    match s.net[i]
    case RequestPacket(to, e) =>
      if to < |s.actors| {
        SendCounts(rest, s.actors[to].node, to, e, pushed, k);
        if e.request.Some? {
          AnswerCounts(rest, e.request.value.ref.node, e.request.value, k);
        }
      }
    case ResponsePacket(node, r) => CompleteCounts(rest, node, r.ref.id, r.ask, k);
  }

  lemma AskAddLinear(s: State, ref: Ref, sender: nat, k: nat)
    requires LinearAt(s, k) && Enabled(s, AskAdd(ref, sender))
    ensures LinearAt(Apply(s, AskAdd(ref, sender)), k)
  {
    var e := Envelope(sender, Some(Request(ref, |s.asked|)));
    var n := Apply(s, AskAdd(ref, sender));
    assert Sum(n.outbox, CarriesFor(k)) == Sum(s.outbox, CarriesFor(k)) + For(e, k) by {
      SumAppend(s.outbox, e, CarriesFor(k));
    }
    assert n.actors == s.actors && n.net == s.net && n.won == s.won && n.done == s.done;
  }

  /** The pending tables carry no reference. */
  lemma SameLinks(s: State, n: State, k: nat)
    requires n == s.(pending := n.pending)
    ensures Live(n, k) == Live(s, k) && Replies(n, k) == Replies(s, k) && Won(n, k) == Won(s, k)
  {
  }

  lemma AskSendLinear(s: State, j: nat, to: nat, ok: bool, k: nat)
    requires LinearAt(s, k) && Enabled(s, AskSend(j, to, ok))
    ensures LinearAt(Apply(s, AskSend(j, to, ok)), k)
  {
    var e := s.outbox[j];
    var rest := s.(outbox := s.outbox[..j] + s.outbox[j + 1..]);
    assert Live(rest, k) + For(e, k) == Live(s, k) && Replies(rest, k) == Replies(s, k) by {
      SumRemove(s.outbox, j, CarriesFor(k));
    }
    var node := if e.request.Some? then e.request.value.ref.node else "";
    var (next, sent) := Send(rest, node, to, e, ok);
    SendCounts(rest, node, to, e, ok, k);
    SameLinks(next, Apply(s, AskSend(j, to, ok)), k);
    assert next.won == s.won && next.asked == s.asked;
  }

  lemma InvokeLinear(s: State, a: nat, k: nat)
    requires LinearAt(s, k) && Enabled(s, Invoke(a))
    ensures LinearAt(Apply(s, Invoke(a)), k)
  {
    var me := s.actors[a];
    SumTail(me.queue, CarriesFor(k));
    SumUpdate(s.actors, a, me.(queue := me.queue[1..], current := me.queue[0], responded := false), HoldsFor(k));
  }

  lemma LinearKept(s: State, a: Action, k: nat)
    requires LinearAt(s, k) && Enabled(s, a)
    ensures LinearAt(Apply(s, a), k)
  {
    match a
    case AskAdd(ref, sender) => AskAddLinear(s, ref, sender, k);
    case AskSend(j, to, ok) => AskSendLinear(s, j, to, ok, k);
    case TellSend(sender, from, to, ok) => SendCounts(s, from, to, Envelope(sender, None), ok, k);
    case Invoke(a) => InvokeLinear(s, a, k);
    case DoForward(a, to, ok) => ForwardLinear(s, a, to, ok, k);
    case DoRespond(a, ok) => RespondLinear(s, a, ok, k);
    case Arrive(i, readable, pushed, rejected) => ReceiveLinear(s, i, readable, pushed, rejected, k);
    case Lose(i) => RemovedCounts(s, i, k);
    case Expire(ref) =>
  }

  lemma {:induction false} InvRun(nodes: seq<NodeId>, schedule: seq<Action>, k: nat)
    ensures var s := Run(Begin(nodes), schedule); RefsRight(s) && LinearAt(s, k)
  {
    if schedule == [] {
      SumZero(Begin(nodes).actors, HoldsFor(k));
    } else {
      var s := Run(Begin(nodes), schedule[..|schedule| - 1]);
      InvRun(nodes, schedule[..|schedule| - 1], k);
      if Enabled(s, schedule[|schedule| - 1]) {
        RightKept(s, schedule[|schedule| - 1]);
        LinearKept(s, schedule[|schedule| - 1], k);
      }
    }
  }

  // ---- Results, for every schedule over any actors on any nodes ----

  /** The reference of an Ask is in at most one of: a queue, a request packet, a handler
      that has not responded; and once a respond, respondError or reject of it has
      succeeded it is in none, so no second one succeeds. */
  lemma OneTokenPerAsk(nodes: seq<NodeId>, schedule: seq<Action>, k: nat)
    ensures var s := Run(Begin(nodes), schedule);
      && Live(s, k) + Won(s, k) <= 1
      && Replies(s, k) <= Won(s, k)
  {
    InvRun(nodes, schedule, k);
  }

  /** Two places never hold the same reference. */
  lemma NoTwoHolders(nodes: seq<NodeId>, schedule: seq<Action>, a: nat, b: nat)
    requires var s := Run(Begin(nodes), schedule);
      && a < b < |s.actors|
      && !s.actors[a].responded && !s.actors[b].responded
      && s.actors[a].current.request.Some?
    ensures var s := Run(Begin(nodes), schedule);
      s.actors[b].current.request != s.actors[a].current.request
  {
    var s := Run(Begin(nodes), schedule);
    var k := s.actors[a].current.request.value.ask;
    InvRun(nodes, schedule, k);
    SumAtLeastTwo(s.actors, a, b, HoldsFor(k));
  }

  /** A reply, however late, only completes the request it answers, and no request is
      completed by two replies. */
  lemma RepliesReachTheirOwnAsk(nodes: seq<NodeId>, schedule: seq<Action>, i: nat, j: nat)
    requires var s := Run(Begin(nodes), schedule); i < |s.done| && j < |s.done|
    ensures var s := Run(Begin(nodes), schedule);
      && s.done[i].0 == s.done[i].1
      && (s.done[i].1 == s.done[j].1 ==> i == j)
  {
    var s := Run(Begin(nodes), schedule);
    InvRun(nodes, schedule, s.done[i].0);
    if i < j {
      SumAtLeastTwo(s.done, i, j, CompletedBy(s.done[i].0));
    } else if j < i {
      SumAtLeastTwo(s.done, j, i, CompletedBy(s.done[i].0));
    }
  }

  /** However often it was forwarded, what a handler sees is the reference and the sender
      of the original Ask. */
  lemma ForwardKeepsOrigin(nodes: seq<NodeId>, schedule: seq<Action>, a: nat)
    requires var s := Run(Begin(nodes), schedule); a < |s.actors| && s.actors[a].current.request.Some?
    ensures var s := Run(Begin(nodes), schedule);
      var e := s.actors[a].current;
      && e.request.value.ask < |s.asked|
      && s.asked[e.request.value.ask] == Origin(e.request.value.ref, e.sender)
  {
    InvRun(nodes, schedule, 0);
    var s := Run(Begin(nodes), schedule);
    assert ActorRight(s.asked, s.actors[a]);
  }

  // ---- What a send, a packet and an answer come to ----

  /** A send succeeds exactly for a whole reference that the environment lets through; the
      envelope is then last in the target's queue on its own node, and otherwise last on
      the net, addressed to the target. One that fails changes nothing. */
  lemma SendDecides(s: State, from: NodeId, to: nat, e: Envelope, ok: bool)
    requires to < |s.actors|
    ensures var (n, sent) := Send(s, from, to, e, ok); var target := s.actors[to];
      && (sent <==> ok && (e.request.Some? ==> e.request.value.ref.node != "" && e.request.value.ref.id != 0))
      && (!sent ==> n == s)
      && (sent && target.node == from ==> n == s.(actors := s.actors[to := target.(queue := target.queue + [e])]))
      && (sent && target.node != from ==> n == s.(net := s.net + [RequestPacket(to, e)]))
  {
  }

  /** A tell, and a request that reaches its node, end up last in the target's queue. */
  lemma TellDecides(s: State, sender: nat, from: NodeId, to: nat, ok: bool)
    requires to < |s.actors|
    ensures Enabled(s, TellSend(sender, from, to, ok))
    ensures Apply(s, TellSend(sender, from, to, ok)) == Send(s, from, to, Envelope(sender, None), ok).0
  {
  }

  /** An Ask is added under its reference, and is sent from the node of that reference; if
      the send fails it is no longer pending. */
  lemma AskDecides(s: State, ref: Ref, sender: nat, to: nat, ok: bool)
    requires (forall j :: 0 <= j < |s.asked| ==> s.asked[j].ref != ref) && to < |s.actors| && s.outbox == []
    ensures Enabled(s, AskAdd(ref, sender))
    ensures var added, e := Apply(s, AskAdd(ref, sender)), Envelope(sender, Some(Request(ref, |s.asked|)));
      && ref in added.pending && added.pending[ref] == |s.asked|
      && Enabled(added, AskSend(0, to, ok))
      && var n := Apply(added, AskSend(0, to, ok));
      && n.outbox == []
      && (if ok && ValidRef(ref) then
            && n.pending == added.pending
            && (s.actors[to].node == ref.node ==> n.actors[to].queue == s.actors[to].queue + [e] && n.net == s.net)
            && (s.actors[to].node != ref.node ==> n.net == s.net + [RequestPacket(to, e)] && n.actors == s.actors)
          else n.pending == s.pending - {ref} && n.net == s.net && n.actors == s.actors)
  {
  }

  /** A readable request for an existing actor: if it is pushed it is last in that actor's
      queue; if it is not and can be rejected, exactly one response for the node of its
      reference is put on the net and nothing is queued. One with a malformed reference is dropped. */
  lemma RequestArrives(s: State, i: nat, pushed: bool, rejected: bool)
    requires i < |s.net| && s.net[i].RequestPacket? && s.net[i].to < |s.actors|
    ensures Enabled(s, Arrive(i, true, pushed, rejected))
    ensures var to, e, n := s.net[i].to, s.net[i].envelope, Apply(s, Arrive(i, true, pushed, rejected));
      var rest := s.net[..i] + s.net[i + 1..];
      if !Sendable(e) then n == s.(net := rest)
      else if pushed then
        n == s.(net := rest, actors := s.actors[to := s.actors[to].(queue := s.actors[to].queue + [e])])
      else if rejected && e.request.Some? then
        n == s.(net := rest + [ResponsePacket(e.request.value.ref.node, e.request.value)],
                won := s.won + [e.request.value.ask])
      else n == s.(net := rest)
  {
  }

  /** A readable response completes the request its reference names on the node it was sent
      to, exactly if that is still pending; one that cannot be read is dropped. */
  lemma ResponseArrives(s: State, i: nat, readable: bool)
    requires i < |s.net| && s.net[i].ResponsePacket?
    ensures Enabled(s, Arrive(i, readable, false, false))
    ensures var n, ref := Apply(s, Arrive(i, readable, false, false)), Ref(s.net[i].node, s.net[i].request.ref.id);
      && n.net == s.net[..i] + s.net[i + 1..] && n.actors == s.actors
      && (if readable && s.net[i].request.ref.node != "" && s.net[i].request.ref.id != 0 && ref in s.pending
          then n.pending == s.pending - {ref} && n.done == s.done + [(s.net[i].request.ask, s.pending[ref])]
          else n.pending == s.pending && n.done == s.done)
  {
  }

  /** A timer takes its request out of the table; a lost packet is gone, and nothing else. */
  lemma ExpiryDecides(s: State, ref: Ref, i: nat)
    ensures Enabled(s, Expire(ref)) && Apply(s, Expire(ref)) == s.(pending := s.pending - {ref})
    ensures i < |s.net| ==>
      Enabled(s, Lose(i)) && Apply(s, Lose(i)) == s.(net := s.net[..i] + s.net[i + 1..])
  {
  }

  lemma InvokeDecides(s: State, a: nat)
    requires a < |s.actors| && s.actors[a].queue != []
    ensures Enabled(s, Invoke(a))
    ensures var me, n := s.actors[a], Apply(s, Invoke(a));
      n == s.(actors := n.actors) && n.actors[a] == Actor(me.node, me.queue[1..], me.queue[0], false)
      && |n.actors| == |s.actors| && forall b :: 0 <= b < |s.actors| && b != a ==> n.actors[b] == s.actors[b]
  {
  }

  /** A forward passes the current envelope on unchanged, exactly if nothing went out yet and
      the send succeeds, and then counts as the answer. */
  lemma ForwardDecides(s: State, a: nat, to: nat, ok: bool)
    requires a < |s.actors| && to < |s.actors|
    ensures Enabled(s, DoForward(a, to, ok))
    ensures var me, n := s.actors[a], Apply(s, DoForward(a, to, ok));
      var local := s.actors[to].node == me.node;
      if me.responded || !ok || !Sendable(me.current) then n == s
      else
        && n == s.(actors := n.actors, net := if local then s.net else s.net + [RequestPacket(to, me.current)])
        && |n.actors| == |s.actors|
        && forall b :: 0 <= b < |s.actors| ==>
             n.actors[b] == s.actors[b].(
               responded := b == a || s.actors[b].responded,
               queue := if local && b == to then s.actors[b].queue + [me.current] else s.actors[b].queue)
  {
  }

  /** An answer goes out exactly if none did and there is a request to answer: on the
      request's own node if it is still pending there, to another node if it can be sent. */
  lemma RespondDecides(s: State, a: nat, ok: bool)
    requires a < |s.actors| && s.actors[a].current.request.Some?
    ensures Enabled(s, DoRespond(a, ok))
    ensures var me, n := s.actors[a], Apply(s, DoRespond(a, ok));
      var r := me.current.request.value;
      if me.responded || (if r.ref.node != me.node then !ok else r.ref !in s.pending) then n == s
      else
        && n.actors == s.actors[a := me.(responded := true)] && n.won == s.won + [r.ask]
        && (if r.ref.node != me.node
            then n.net == s.net + [ResponsePacket(r.ref.node, r)] && n.pending == s.pending && n.done == s.done
            else n.net == s.net && n.pending == s.pending - {r.ref} && n.done == s.done + [(r.ask, s.pending[r.ref])])
  {
  }

  // ---- A request that was completed is no longer pending ----

  predicate DoneGone(s: State) {
    forall i :: 0 <= i < |s.done| ==> s.done[i].1 < |s.asked| && s.asked[s.done[i].1].ref !in s.pending
  }

  lemma CompleteGone(s: State, node: NodeId, id: nat, ask: nat)
    requires RefsRight(s) && DoneGone(s)
    ensures DoneGone(Complete(s, node, id, ask).0)
  {
  }

  lemma DoneGoneKept(s: State, a: Action)
    requires RefsRight(s) && DoneGone(s) && Enabled(s, a)
    ensures DoneGone(Apply(s, a))
  {
    match a
    case DoRespond(i, ok) =>
      if s.actors[i].current.request.Some? {
        var r := s.actors[i].current.request.value;
        CompleteGone(s, s.actors[i].node, r.ref.id, r.ask);
      }
    case Arrive(i, _, _, _) =>
      if s.net[i].ResponsePacket? {
        CompleteGone(s, s.net[i].node, s.net[i].request.ref.id, s.net[i].request.ask);
      }
    case _ =>
  }

  /** In every run. */
  lemma {:induction false} CompletedIsGone(nodes: seq<NodeId>, schedule: seq<Action>)
    ensures DoneGone(Run(Begin(nodes), schedule))
  {
    if schedule != [] {
      var s := Run(Begin(nodes), schedule[..|schedule| - 1]);
      CompletedIsGone(nodes, schedule[..|schedule| - 1]);
      InvRun(nodes, schedule[..|schedule| - 1], 0);
      if Enabled(s, schedule[|schedule| - 1]) {
        DoneGoneKept(s, schedule[|schedule| - 1]);
      }
    }
  }

  // ---- From wherever its reference is, an Ask can still be completed ----

  predicate Addressed(s: State) {
    forall i :: 0 <= i < |s.net| && s.net[i].RequestPacket? ==> s.net[i].to < |s.actors|
  }

  lemma AddressedKept(s: State, a: Action)
    requires Addressed(s) && Enabled(s, a)
    ensures Addressed(Apply(s, a)) && |Apply(s, a).actors| == |s.actors|
  {
  }

  lemma {:induction false} AddressedRun(nodes: seq<NodeId>, schedule: seq<Action>)
    ensures Addressed(Run(Begin(nodes), schedule)) && |Run(Begin(nodes), schedule).actors| == |nodes|
  {
    if schedule != [] {
      AddressedRun(nodes, schedule[..|schedule| - 1]);
      var s := Run(Begin(nodes), schedule[..|schedule| - 1]);
      if Enabled(s, schedule[|schedule| - 1]) {
        AddressedKept(s, schedule[|schedule| - 1]);
      }
    }
  }

  /** Ask k is pending, and its reference whole. */
  predicate Awaited(s: State, k: nat) {
    k < |s.asked| && ValidRef(s.asked[k].ref) && s.asked[k].ref in s.pending && s.pending[s.asked[k].ref] == k
  }

  predicate Carries(s: State, e: Envelope, k: nat) {
    k < |s.asked| && e.request == Some(Request(s.asked[k].ref, k))
  }

  predicate Completed(s: State, k: nat) { exists i :: 0 <= i < |s.done| && s.done[i].1 == k }

  lemma {:induction false} RunThen(s: State, first: seq<Action>, more: seq<Action>)
    ensures Run(s, first + more) == Run(Run(s, first), more)
    decreases |more|
  {
    if more == [] {
      assert first + more == first;
    } else {
      assert (first + more)[..|first + more| - 1] == first + more[..|more| - 1];
      RunThen(s, first, more[..|more| - 1]);
    }
  }

  /** One action, and a continuation of what it leads to. */
  lemma Then(s: State, a: Action, more: seq<Action>)
    requires Enabled(s, a)
    ensures Run(s, [a] + more) == Run(Apply(s, a), more)
  {
    RunThen(s, [a], more);
    assert [a][..0] == [];
    assert Run(s, [a]) == Apply(s, a);
  }

  lemma FromResponse(s: State, i: nat, k: nat) returns (more: seq<Action>)
    requires Awaited(s, k) && i < |s.net| && s.net[i] == ResponsePacket(s.asked[k].ref.node, Request(s.asked[k].ref, k))
    ensures Completed(Run(s, more), k)
  {
    ResponseArrives(s, i, true);
    more := [Arrive(i, true, false, false)];
    Then(s, more[0], []);
    assert more + [] == more;
    var n := Run(s, more);
    assert n.done[|s.done|].1 == k;
  }

  lemma FromHandler(s: State, a: nat, k: nat) returns (more: seq<Action>)
    requires Awaited(s, k) && a < |s.actors| && !s.actors[a].responded && Carries(s, s.actors[a].current, k)
    ensures Completed(Run(s, more), k)
  {
    RespondDecides(s, a, true);
    var n := Apply(s, DoRespond(a, true));
    if s.asked[k].ref.node == s.actors[a].node {
      more := [DoRespond(a, true)];
      Then(s, more[0], []);
      assert more + [] == more;
      assert n.done[|s.done|].1 == k;
    } else {
      assert n.net[|s.net|] == ResponsePacket(s.asked[k].ref.node, Request(s.asked[k].ref, k));
      assert n.asked == s.asked;
      var rest := FromResponse(n, |s.net|, k);
      Then(s, DoRespond(a, true), rest);
      more := [DoRespond(a, true)] + rest;
    }
  }

  lemma {:induction false} FromQueue(s: State, a: nat, j: nat, k: nat) returns (more: seq<Action>)
    requires Awaited(s, k) && a < |s.actors| && j < |s.actors[a].queue| && Carries(s, s.actors[a].queue[j], k)
    ensures Completed(Run(s, more), k)
    decreases j
  {
    InvokeDecides(s, a);
    var n := Apply(s, Invoke(a));
    var rest;
    if j == 0 {
      rest := FromHandler(n, a, k);
    } else {
      rest := FromQueue(n, a, j - 1, k);
    }
    Then(s, Invoke(a), rest);
    more := [Invoke(a)] + rest;
  }

  lemma FromNet(s: State, i: nat, k: nat) returns (more: seq<Action>)
    requires Awaited(s, k) && i < |s.net| && s.net[i].RequestPacket? && s.net[i].to < |s.actors|
    requires Carries(s, s.net[i].envelope, k)
    ensures Completed(Run(s, more), k)
  {
    var to, a := s.net[i].to, Arrive(i, true, true, false);
    RequestArrives(s, i, true, false);
    var n := Apply(s, a);
    assert n.actors[to].queue[|s.actors[to].queue|] == s.net[i].envelope;
    var rest := FromQueue(n, to, |s.actors[to].queue|, k);
    Then(s, a, rest);
    more := [a] + rest;
  }

  /** Also where the target's node cannot push the request, if it can send its rejection. */
  lemma RejectedCompletes(s: State, i: nat, k: nat) returns (more: seq<Action>)
    requires Awaited(s, k) && i < |s.net| && s.net[i].RequestPacket? && s.net[i].to < |s.actors|
    requires Carries(s, s.net[i].envelope, k)
    ensures more != [] && more[0] == Arrive(i, true, false, true) && Completed(Run(s, more), k)
  {
    var a := Arrive(i, true, false, true);
    RequestArrives(s, i, false, true);
    var n := Apply(s, a);
    assert n.net[|s.net| - 1] == ResponsePacket(s.asked[k].ref.node, Request(s.asked[k].ref, k));
    var rest := FromResponse(n, |s.net| - 1, k);
    Then(s, a, rest);
    more := [a] + rest;
  }

  lemma FromOutbox(s: State, i: nat, k: nat) returns (more: seq<Action>)
    requires Awaited(s, k) && i < |s.outbox| && Carries(s, s.outbox[i], k) && |s.actors| > 0
    ensures Completed(Run(s, more), k)
  {
    var e, a := s.outbox[i], AskSend(i, 0, true);
    var n := Apply(s, a);
    SendDecides(s.(outbox := s.outbox[..i] + s.outbox[i + 1..]), s.asked[k].ref.node, 0, e, true);
    var rest;
    if s.actors[0].node == s.asked[k].ref.node {
      assert n.actors[0].queue[|s.actors[0].queue|] == e;
      rest := FromQueue(n, 0, |s.actors[0].queue|, k);
    } else {
      assert n.net[|s.net|] == RequestPacket(0, e);
      rest := FromNet(n, |s.net|, k);
    }
    Then(s, a, rest);
    more := [a] + rest;
  }

  lemma FromActor(s: State, a: nat, k: nat) returns (more: seq<Action>)
    requires Awaited(s, k) && a < |s.actors| && ActorRight(s.asked, s.actors[a]) && HoldsFor(k)(s.actors[a]) > 0
    ensures Completed(Run(s, more), k)
  {
    var me := s.actors[a];
    if Sum(me.queue, CarriesFor(k)) > 0 {
      var j := SumWitness(me.queue, CarriesFor(k));
      assert EnvelopeRight(s.asked, me.queue[j]);
      more := FromQueue(s, a, j, k);
    } else {
      more := FromHandler(s, a, k);
    }
  }

  /** From every reachable state in which an Ask is pending and its reference alive anywhere,
      in an outbox, on the net, in a queue or in a handler, some continuation completes it. */
  lemma AskCanComplete(nodes: seq<NodeId>, schedule: seq<Action>, k: nat) returns (more: seq<Action>)
    requires var s := Run(Begin(nodes), schedule);
      nodes != [] && k < |s.asked| && ValidRef(s.asked[k].ref) && s.asked[k].ref in s.pending && Live(s, k) > 0
    ensures Completed(Run(Begin(nodes), schedule + more), k)
  {
    var s := Run(Begin(nodes), schedule);
    InvRun(nodes, schedule, k);
    AddressedRun(nodes, schedule);
    assert Awaited(s, k);
    if Sum(s.outbox, CarriesFor(k)) > 0 {
      var i := SumWitness(s.outbox, CarriesFor(k));
      assert EnvelopeRight(s.asked, s.outbox[i]);
      more := FromOutbox(s, i, k);
    } else if Sum(s.actors, HoldsFor(k)) > 0 {
      var a := SumWitness(s.actors, HoldsFor(k));
      more := FromActor(s, a, k);
    } else {
      var i := SumWitness(s.net, TravelsFor(k));
      assert PacketRight(s.asked, s.net[i]);
      more := FromNet(s, i, k);
    }
    RunThen(Begin(nodes), schedule, more);
  }
}
