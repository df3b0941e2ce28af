/** What a send and a receive come to on a session: which frames are queued and which are
    dropped, that a dropped or closed one stays so, and that what is queued between two ready
    ends can always be delivered. */
module Sending {
  import opened Wrappers
  import opened Bytes
  import opened FrameCodec
  import opened Session
  import opened Counting
  import Cipher

  // ---- One send ----

  /** The frame as it goes on the wire: packed, and encrypted under the end's key. */
  function OnWire(c: Config, e: End, f: Frame): Frame
    requires Pack(c, f).Some? && (c.encrypt ==> |e.sharedKey| == Cipher.KEY_SIZE)
  {
    var packed := Pack(c, f).value;
    if c.encrypt then packed.(body := Cipher.Encrypted(e.sharedKey, packed.body)) else packed
  }

  /** The end can send this frame now. */
  predicate CanSend(c: Config, s: Side, e: End, f: Frame) {
    && e.phase.Ready? && (c.encrypt ==> |e.sharedKey| == Cipher.KEY_SIZE)
    && f.cmd != INTERNAL_CMD && Pack(c, f).Some? && Encodable(c, s, OnWire(c, e, f))
    && |e.queued| < e.taken + c.Of(s).sendChan
  }

  /** What the end is after the four steps of a send, with no other step between them. */
  function Sent(c: Config, s: Side, e: End, peer: End, f: Frame, accepted: bool): End {
    var at := |e.sends|;
    var begun := StepEnd(c, s, e, peer, SendBegin(f));
    var checked := StepEnd(c, s, begun, peer, SendCheck(at));
    var sealed := StepEnd(c, s, checked, peer, SendSeal(at));
    StepEnd(c, s, sealed, peer, SendPush(at, accepted))
  }

  /** On a ready end with its key and room in its channel, the steps of a send queue the
      frame last, and change nothing else. */
  lemma SendQueues(c: Config, s: Side, e: End, peer: End, f: Frame, accepted: bool)
    requires CanSend(c, s, e, f)
    ensures Sent(c, s, e, peer, f, accepted) ==
      e.(sends := e.sends + [Send(f, OnWire(c, e, f), Queued)], queued := e.queued + [Item(OnWire(c, e, f), Some(f))])
  {
    var at := |e.sends|;
    var begun := StepEnd(c, s, e, peer, SendBegin(f));
    assert begun.sends == e.sends + [Send(f, Pack(c, f).value, Packed)];
    var checked := StepEnd(c, s, begun, peer, SendCheck(at));
    assert checked == e.(sends := e.sends + [Send(f, Pack(c, f).value, Checked)]);
    var sealed := StepEnd(c, s, checked, peer, SendSeal(at));
    assert sealed == e.(sends := e.sends + [Send(f, OnWire(c, e, f), Sealed)]);
    var pushed := StepEnd(c, s, sealed, peer, SendPush(at, accepted));
    assert pushed.sends == e.sends + [Send(f, OnWire(c, e, f), Queued)];
  }

  /** When each step of a send goes on, and when it drops the frame. */
  lemma SendDecides(c: Config, s: Side, e: End, peer: End, at: nat, accepted: bool)
    requires at < |e.sends|
    ensures var t := e.sends[at];
      && (t.stage.Packed? ==>
            StepEnd(c, s, e, peer, SendCheck(at)) ==
              e.(sends := e.sends[at := t.(stage := if e.phase.Ready? then Checked else Dropped)]))
      && (t.stage.Checked? ==>
            var n := StepEnd(c, s, e, peer, SendSeal(at));
            && n == e.(sends := n.sends) && |n.sends| == |e.sends| && n.sends[at].source == t.source
            && (n.sends[at].stage.Sealed? || n.sends[at].stage.Dropped?)
            && (n.sends[at].stage.Dropped? ==> n.sends[at].wire == t.wire)
            && (n.sends[at].stage.Sealed? ==>
                  && (c.encrypt ==> |e.sharedKey| == Cipher.KEY_SIZE)
                  && n.sends[at].wire == SealedWith(c, e.sharedKey, t.wire) && Encodable(c, s, n.sends[at].wire))
            && (n.sends[at].stage.Dropped? && (c.encrypt ==> |e.sharedKey| == Cipher.KEY_SIZE) ==>
                  !Encodable(c, s, SealedWith(c, e.sharedKey, t.wire))))
      && (t.stage.Sealed? ==>
            var n := StepEnd(c, s, e, peer, SendPush(at, accepted));
            if |e.queued| < e.taken + c.Of(s).sendChan && (!e.phase.Closed? || accepted)
            then n == e.(sends := e.sends[at := t.(stage := Queued)],
                         queued := e.queued + [Item(t.wire, Some(t.source))])
            else n == e.(sends := e.sends[at := t.(stage := Dropped)]))
  {
  }

  /** The frame under this key; a missing key seals nothing. */
  function SealedWith(c: Config, key: seq<byte>, f: Frame): Frame {
    if c.encrypt && |key| == Cipher.KEY_SIZE then f.(body := Cipher.Encrypted(key, f.body)) else f
  }

  /** A send begins exactly for a business frame that packs, on an end that is not closed. */
  lemma SendBegins(c: Config, s: Side, e: End, peer: End, f: Frame)
    requires f.cmd != INTERNAL_CMD
    ensures var n := StepEnd(c, s, e, peer, SendBegin(f));
      if e.phase.Closed? || Pack(c, f).None? then n == e
      else n == e.(sends := e.sends + [Send(f, Pack(c, f).value, Packed)])
  {
  }

  // ---- What is queued is what the successful sends carried ----

  function ItemOf(f: Frame): Item -> nat { (it: Item) => if it.source == Some(f) then 1 else 0 }

  function SuccessOf(f: Frame): Send -> nat { (t: Send) => if t.stage.Queued? && t.source == f then 1 else 0 }

  predicate Conserved(e: End, f: Frame) { Sum(e.queued, ItemOf(f)) == Sum(e.sends, SuccessOf(f)) }

  lemma StageConserved(e: End, at: nat, t: Send, f: Frame)
    requires Conserved(e, f) && at < |e.sends| && SuccessOf(f)(t) == SuccessOf(f)(e.sends[at])
    ensures Conserved(e.(sends := e.sends[at := t]), f)
  {
    SumUpdate(e.sends, at, t, SuccessOf(f));
  }

  lemma PushConserved(e: End, at: nat, f: Frame)
    requires Conserved(e, f) && at < |e.sends| && e.sends[at].stage.Sealed?
    ensures Conserved(e.(sends := e.sends[at := e.sends[at].(stage := Queued)],
                         queued := e.queued + [Item(e.sends[at].wire, Some(e.sends[at].source))]), f)
  {
    SumUpdate(e.sends, at, e.sends[at].(stage := Queued), SuccessOf(f));
    SumAppend(e.queued, Item(e.sends[at].wire, Some(e.sends[at].source)), ItemOf(f));
  }

  lemma SendConserved(c: Config, s: Side, e: End, peer: End, a: Action, f: Frame)
    requires Conserved(e, f) && (a.SendCheck? || a.SendSeal? || a.SendPush?)
    ensures Conserved(StepEnd(c, s, e, peer, a), f)
  {
    var n := StepEnd(c, s, e, peer, a);
    if n != e {
      if n.sends[a.at].stage.Queued? {
        PushConserved(e, a.at, f);
      } else {
        StageConserved(e, a.at, n.sends[a.at], f);
      }
    }
  }

  lemma BeginConserved(c: Config, s: Side, e: End, peer: End, frame: Frame, f: Frame)
    requires Conserved(e, f)
    ensures Conserved(StepEnd(c, s, e, peer, SendBegin(frame)), f)
  {
    var n := StepEnd(c, s, e, peer, SendBegin(frame));
    if n != e {
      SumAppend(e.sends, Send(frame, Pack(c, frame).value, Packed), SuccessOf(f));
    }
  }

  lemma KeyConserved(c: Config, s: Side, e: End, accepted: bool, f: Frame)
    requires Conserved(e, f) && e.reader.SendingKey?
    ensures Conserved(SendKeyStep(c, s, e, accepted), f)
  {
    var p := Pack(c, KeyFrame(c, s));
    if p.Some? {
      SumAppend(e.queued, Item(p.value, None), ItemOf(f));
    }
  }

  lemma Untouched(c: Config, s: Side, e: End, peer: End, a: Action)
    requires !a.SendBegin? && !a.SendKey? && !a.SendCheck? && !a.SendSeal? && !a.SendPush?
    ensures StepEnd(c, s, e, peer, a).queued == e.queued && StepEnd(c, s, e, peer, a).sends == e.sends
  {
  }

  lemma ConservedKept(c: Config, s: Side, e: End, peer: End, a: Action, f: Frame)
    requires Conserved(e, f)
    ensures Conserved(StepEnd(c, s, e, peer, a), f)
  {
    if a.SendCheck? || a.SendSeal? || a.SendPush? {
      SendConserved(c, s, e, peer, a, f);
    } else if a.SendBegin? {
      BeginConserved(c, s, e, peer, a.frame, f);
    } else if a.SendKey? {
      if e.reader.SendingKey? {
        KeyConserved(c, s, e, a.accepted, f);
      }
    } else {
      Untouched(c, s, e, peer, a);
    }
  }

  lemma {:induction false} ConservedRun(c: Config, x: State, schedule: seq<(Side, Action)>, s: Side, f: Frame)
    requires Conserved(x.Of(s), f)
    ensures Conserved(Run(c, x, schedule).Of(s), f)
    decreases |schedule|
  {
    if schedule != [] {
      var (t, a) := schedule[0];
      if t == s {
        ConservedKept(c, s, x.Of(s), x.Of(Other(s)), a, f);
      }
      ConservedRun(c, Step(c, x, t, a), schedule[1..], s, f);
    }
  }

  /** In every run, an application's frame was queued exactly as often as a send of it
      succeeded. */
  lemma QueuedIsSent(c: Config, schedule: seq<(Side, Action)>, s: Side, f: Frame)
    ensures var e := Run(c, Init(), schedule).Of(s); Sum(e.queued, ItemOf(f)) == Sum(e.sends, SuccessOf(f))
  {
    ConservedRun(c, Init(), schedule, s, f);
  }

  /** What no step undoes: a dropped send stays dropped, a queued one queued, and a closed end
      closed, with nothing more delivered to it or begun on it. */
  predicate Stays(e: End, n: End) {
    && |e.sends| <= |n.sends|
    && (forall at :: 0 <= at < |e.sends| && (e.sends[at].stage.Dropped? || e.sends[at].stage.Queued?) ==>
          n.sends[at] == e.sends[at])
    && (e.phase.Closed? ==> n.phase.Closed? && n.delivered == e.delivered && |n.sends| == |e.sends|)
    && e.queued <= n.queued
  }

  lemma StepStays(c: Config, s: Side, e: End, peer: End, a: Action)
    ensures Stays(e, StepEnd(c, s, e, peer, a))
  {
  }

  lemma {:induction false} RunStays(c: Config, x: State, more: seq<(Side, Action)>, s: Side)
    ensures Stays(x.Of(s), Run(c, x, more).Of(s))
    decreases |more|
  {
    if more != [] {
      var (t, a) := more[0];
      if t == s {
        StepStays(c, s, x.Of(s), x.Of(Other(s)), a);
      }
      RunStays(c, Step(c, x, t, a), more[1..], s);
    }
  }

  /** A send whose check finds the connection not ready never gets any further, whatever
      follows, so that by QueuedIsSent it is not among what is queued. */
  lemma TooEarlyNeverQueued(c: Config, x: State, s: Side, at: nat, more: seq<(Side, Action)>)
    requires at < |x.Of(s).sends| && x.Of(s).sends[at].stage.Packed? && !x.Of(s).phase.Ready?
    ensures var n := Run(c, Step(c, x, s, SendCheck(at)), more).Of(s);
      at < |n.sends| && n.sends[at] == x.Of(s).sends[at].(stage := Dropped)
  {
    RunStays(c, Step(c, x, s, SendCheck(at)), more, s);
  }

  /** After a close nothing more is delivered, and no send begins. */
  lemma ClosedIsFinal(c: Config, x: State, s: Side, more: seq<(Side, Action)>)
    ensures var e, n := x.Of(s), Run(c, Step(c, x, s, Close), more).Of(s);
      n.phase.Closed? && n.delivered == e.delivered && |n.sends| == |e.sends|
  {
    RunStays(c, Step(c, x, s, Close), more, s);
  }

  // ---- One received frame ----

  /** A frame over the limit fails the connection before anything else, and then business
      frames that come too early, or that do not decode; any other is held for the
      application. */
  lemma BusinessDecides(c: Config, s: Side, e: End, wire: Frame)
    requires wire.cmd != INTERNAL_CMD
    ensures var n := ReceiveFrame(c, s, e, wire);
      var plain := Unpack(c, SealedOpen(c, e.sharedKey, wire));
      if c.Of(s).inbound > 0 && HEADER + |wire.body| > c.Of(s).inbound then n == Fail(e, FrameTooLarge)
      else if c.encrypt && !e.phase.Ready? then n == Fail(e, HandshakeNotComplete)
      else if c.encrypt && |e.sharedKey| != Cipher.KEY_SIZE then n == Fail(e, InvalidKey)
      else if plain.None? then n == Fail(e, CodecRefused)
      else n == e.(reader := Holding(plain.value))
  {
  }

  function SealedOpen(c: Config, key: seq<byte>, f: Frame): Frame {
    if c.encrypt && |key| == Cipher.KEY_SIZE then f.(body := Cipher.Decrypted(key, f.body)) else f
  }

  /** A key exchange makes a connection that is shaking hands ready, and the client then
      agrees on the key while the server answers first; later ones are ignored. A close, or
      an act that is not known, fails the connection. */
  lemma InternalDecides(c: Config, s: Side, e: End, wire: Frame)
    requires wire.cmd == INTERNAL_CMD && Unpack(c, wire).Some?
    requires c.Of(s).inbound > 0 ==> HEADER + |wire.body| <= c.Of(s).inbound
    ensures var n, body := ReceiveFrame(c, s, e, wire), Unpack(c, wire).value.body;
      if wire.act == 2 then n == Fail(e, CloseRequested)
      else if wire.act != 1 then n == Fail(e, UnknownAct)
      else if e.phase.Handshaking? then
        n == e.(phase := Ready, reader := if s == Server then SendingKey(Some(body)) else Agreeing(body))
      else n == e
  {
  }

  /** The application is given the frame exactly on a connection that is still ready, and the
      connection goes on exactly if the application accepts it. */
  lemma DeliverDecides(c: Config, s: Side, e: End, peer: End, ok: bool)
    requires e.reader.Holding?
    ensures var n := StepEnd(c, s, e, peer, Deliver(ok));
      if e.phase.Ready?
      then n.delivered == e.delivered + [e.reader.frame] && n.phase == e.phase && (n.reader.Reading? <==> ok)
      else n == Fail(e, HandshakeNotComplete)
  {
  }

  /** Without encryption a new connection is ready as soon as it has started, and reads once
      the application was told. */
  lemma PlainStart(c: Config, s: Side, e: End, peer: End, ok: bool)
    requires !c.encrypt && e.reader.Unstarted? && e.phase.Created?
    ensures var started := StepEnd(c, s, e, peer, Start);
      var ready := StepEnd(c, s, started, peer, Proceed);
      && ready.phase.Ready?
      && StepEnd(c, s, ready, peer, Announce(ok)) ==
           e.(phase := Ready, reader := if ok then Reading else Failed(Refused))
  {
  }

  /** Where a handshake fails: started on a closed connection, a key frame that does not
      pack, encode or find room, an unusable key, or an application that refuses. */
  lemma HandshakeDecides(c: Config, s: Side, e: End, peer: End, accepted: bool)
    ensures e.reader.Unstarted? && !e.phase.Created? ==> StepEnd(c, s, e, peer, Start) == Fail(e, BadState)
    ensures e.reader.Starting? && !c.encrypt && !e.phase.Handshaking? ==>
      StepEnd(c, s, e, peer, Proceed) == Fail(e, BadState)
    ensures e.reader.Starting? && c.encrypt ==>
      StepEnd(c, s, e, peer, Proceed) == e.(reader := if s == Client then SendingKey(None) else Reading)
    ensures e.reader.SendingKey? ==>
      var n, p := StepEnd(c, s, e, peer, SendKey(accepted)), Pack(c, KeyFrame(c, s));
      if p.Some? && Encodable(c, s, p.value) && |e.queued| < e.taken + c.Of(s).sendChan
        && (!e.phase.Closed? || accepted)
      then n.queued == e.queued + [Item(p.value, None)] && !n.reader.Failed?
      else n == Fail(e, KeyNotSent)
    ensures e.reader.Agreeing? ==>
      var n, k := StepEnd(c, s, e, peer, Agree), c.shared(c.Of(s).private, e.reader.key);
      if k.None? then n == Fail(e, KeyRejected) else n == e.(sharedKey := k.value, reader := Announcing)
    ensures e.reader.Announcing? ==>
      StepEnd(c, s, e, peer, Announce(accepted)) == if accepted then e.(reader := Reading) else Fail(e, Refused)
  {
  }

  // ---- What is queued can be delivered ----

  lemma {:induction false} RunThen(c: Config, x: State, first: seq<(Side, Action)>, more: seq<(Side, Action)>)
    ensures Run(c, x, first + more) == Run(c, Run(c, x, first), more)
    decreases |first|
  {
    if first == [] {
      assert first + more == more;
    } else {
      assert (first + more)[1..] == first[1..] + more;
      RunThen(c, Step(c, x, first[0].0, first[0].1), first[1..], more);
    }
  }

  lemma Then(c: Config, x: State, s: Side, a: Action, more: seq<(Side, Action)>)
    ensures Run(c, x, [(s, a)] + more) == Run(c, Step(c, x, s, a), more)
  {
    assert ([(s, a)] + more)[1..] == more;
  }

  /** All that is queued can be written. */
  lemma {:induction false} WritesAll(c: Config, x: State, s: Side) returns (more: seq<(Side, Action)>)
    requires x.Of(s).written <= x.Of(s).taken <= |x.Of(s).queued| && x.Of(s).taken <= x.Of(s).written + 1
    ensures var e, y := x.Of(s), Run(c, x, more);
      y.Of(s) == e.(taken := |e.queued|, written := |e.queued|) && y.Of(Other(s)) == x.Of(Other(s))
    decreases 2 * |x.Of(s).queued| - x.Of(s).taken - x.Of(s).written
  {
    var e := x.Of(s);
    more := [];
    if e.written < e.taken || e.taken < |e.queued| {
      var a := if e.written < e.taken then Write else Take;
      var rest := WritesAll(c, Step(c, x, s, a), s);
      Then(c, x, s, a, rest);
      more := [(s, a)] + rest;
    }
  }

  /** A ready end that reads, and refuses nothing, with its key. */
  ghost predicate Receiving(c: Config, s: Side, e: End) {
    && e.phase.Ready? && e.reader.Reading? && c.ExactCodec() && c.LimitsFit(s)
  }

  /** It takes the next frame, and is then reading again or holds it. */
  lemma ReceivesNext(c: Config, x: State, s: Side)
    requires c.Valid() && Inv(c, x) && Receiving(c, s, x.Of(s))
    requires x.Of(s).read < x.Of(Other(s)).written
    ensures var e, n := x.Of(s), Step(c, x, s, Receive).Of(s);
      && n.phase.Ready? && n.read == e.read + 1 && (n.reader.Reading? || n.reader.Holding?)
  {
    var e, peer := x.Of(s), x.Of(Other(s));
    assert Own(c, s, e) && Own(c, Other(s), peer) && Queue(c, Other(s), peer.queued);
    var it := peer.queued[e.read];
    if c.encrypt && e.read == 0 {
      KeyIsInternal(c, Other(s), it);
      PackUndone(c, KeyFrame(c, Other(s)));
    } else {
      BusinessOpens(c, s, e, it);
    }
  }

  lemma Two(c: Config, x: State, s: Side, a: Action, b: Action)
    ensures Run(c, x, [(s, a)]) == Step(c, x, s, a)
    ensures Run(c, x, [(s, a), (s, b)]) == Step(c, Step(c, x, s, a), s, b)
  {
    Then(c, x, s, a, []);
    Then(c, x, s, a, [(s, b)]);
    Then(c, Step(c, x, s, a), s, b, []);
    assert [(s, a)] + [] == [(s, a)] && [(s, b)] + [] == [(s, b)] && [(s, a)] + [(s, b)] == [(s, a), (s, b)];
  }

  /** A held frame is handed to the application. */
  lemma Hands(c: Config, y: State, s: Side)
    requires c.Valid() && Inv(c, y) && y.Of(s).phase.Ready? && y.Of(s).reader.Holding?
    ensures var z := Step(c, y, s, Deliver(true));
      && Inv(c, z) && z.Of(Other(s)) == y.Of(Other(s))
      && z.Of(s).phase.Ready? && z.Of(s).reader.Reading? && z.Of(s).read == y.Of(s).read
  {
    InvKept(c, y, s, Deliver(true));
  }

  /** It takes the next frame and hands it to the application. */
  lemma ReadsOne(c: Config, x: State, s: Side) returns (steps: seq<(Side, Action)>)
    requires c.Valid() && Inv(c, x) && Receiving(c, s, x.Of(s))
    requires x.Of(s).read < x.Of(Other(s)).written
    ensures var y := Run(c, x, steps);
      && y.Of(Other(s)) == x.Of(Other(s)) && Inv(c, y)
      && Receiving(c, s, y.Of(s)) && y.Of(s).read == x.Of(s).read + 1
  {
    ReceivesNext(c, x, s);
    InvKept(c, x, s, Receive);
    var y := Step(c, x, s, Receive);
    Two(c, x, s, Receive, Deliver(true));
    if y.Of(s).reader.Holding? {
      Hands(c, y, s);
      steps := [(s, Receive), (s, Deliver(true))];
    } else {
      steps := [(s, Receive)];
    }
  }

  lemma {:induction false} ReadsAll(c: Config, x: State, s: Side) returns (more: seq<(Side, Action)>)
    requires c.Valid() && Inv(c, x) && Receiving(c, s, x.Of(s)) && x.Of(s).read <= x.Of(Other(s)).written
    requires x.Of(Other(s)).written == |x.Of(Other(s)).queued|
    ensures var peer, y := x.Of(Other(s)), Run(c, x, more);
      y.Of(Other(s)) == peer && Receiving(c, s, y.Of(s)) && y.Of(s).read == |peer.queued|
    decreases |x.Of(Other(s)).queued| - x.Of(s).read
  {
    more := [];
    if x.Of(s).read < x.Of(Other(s)).written {
      var first := ReadsOne(c, x, s);
      var rest := ReadsAll(c, Run(c, x, first), s);
      RunThen(c, x, first, rest);
      more := first + rest;
    }
  }

  lemma ReadsRest(c: Config, x: State, s: Side) returns (more: seq<(Side, Action)>)
    requires c.Valid() && Inv(c, x) && Receiving(c, s, x.Of(s))
    ensures var y := Run(c, x, more);
      && y.Of(Other(s)).queued == x.Of(Other(s)).queued && Receiving(c, s, y.Of(s))
      && y.Of(s).read == |x.Of(Other(s)).queued|
  {
    assert Own(c, Other(s), x.Of(Other(s)));
    var writes := WritesAll(c, x, Other(s));
    InvRun(c, x, writes);
    var y := Run(c, x, writes);
    assert y.Of(s) == x.Of(s);
    assert Cross(c, s, y.Of(s), y.Of(Other(s)));
    var taking := ReadsAll(c, y, s);
    RunThen(c, x, writes, taking);
    more := writes + taking;
  }

  /** From every reachable state in which an end is ready and reading, with limits that fit
      and no transform that refuses its own output, some continuation delivers to it
      everything the other end has queued, whatever state that one is in. */
  lemma QueuedCanArrive(c: Config, schedule: seq<(Side, Action)>, s: Side) returns (more: seq<(Side, Action)>)
    requires c.Valid() && Receiving(c, s, Run(c, Init(), schedule).Of(s))
    ensures var x, y := Run(c, Init(), schedule), Run(c, Init(), schedule + more);
      && y.Of(Other(s)).queued == x.Of(Other(s)).queued
      && y.Of(s).delivered == Expected(c, x.Of(Other(s)).queued)
  {
    Reached(c, schedule);
    more := ReadsRest(c, Run(c, Init(), schedule), s);
    RunThen(c, Init(), schedule, more);
    DeliveredInOrder(c, schedule + more, s);
  }

  lemma SourcesGrow(items: seq<Item>, it: Item)
    ensures Sources(items + [it]) == Sources(items) + (if it.source.Some? then [it.source.value] else [])
  {
    assert (items + [it])[..|items|] == items;
  }

  lemma ExpectedGrow(c: Config, items: seq<Item>, it: Item)
    ensures Expected(c, items + [it]) ==
      Expected(c, items) + (if it.source.Some? then [Arrives(c, it.source.value)] else [])
  {
    assert (items + [it])[..|items|] == items;
  }

  lemma SentRun(c: Config, x: State, s: Side, f: Frame, accepted: bool) returns (steps: seq<(Side, Action)>)
    ensures var y := Run(c, x, steps);
      y.Of(s) == Sent(c, s, x.Of(s), x.Of(Other(s)), f, accepted) && y.Of(Other(s)) == x.Of(Other(s))
  {
    var at := |x.Of(s).sends|;
    var push, seal := [(s, SendPush(at, accepted))], [(s, SendSeal(at))];
    var check, begin := [(s, SendCheck(at))], [(s, SendBegin(f))];
    var x1 := Step(c, x, s, SendBegin(f));
    var x2 := Step(c, x1, s, SendCheck(at));
    var x3 := Step(c, x2, s, SendSeal(at));
    Then(c, x3, s, SendPush(at, accepted), []);
    assert push + [] == push;
    Then(c, x2, s, SendSeal(at), push);
    Then(c, x1, s, SendCheck(at), seal + push);
    Then(c, x, s, SendBegin(f), check + (seal + push));
    steps := begin + (check + (seal + push));
  }

  lemma SendsAndReads(c: Config, x: State, s: Side, f: Frame) returns (more: seq<(Side, Action)>)
    requires c.Valid() && Inv(c, x) && CanSend(c, s, x.Of(s), f) && Receiving(c, Other(s), x.Of(Other(s)))
    ensures var y := Run(c, x, more);
      && y.Of(s).queued == x.Of(s).queued + [Item(OnWire(c, x.Of(s), f), Some(f))]
      && y.Of(Other(s)).reader.Reading? && y.Of(Other(s)).read == |y.Of(s).queued|
  {
    var sends := SentRun(c, x, s, f, true);
    SendQueues(c, s, x.Of(s), x.Of(Other(s)), f, true);
    InvRun(c, x, sends);
    var rest := ReadsRest(c, Run(c, x, sends), Other(s));
    RunThen(c, x, sends, rest);
    more := sends + rest;
  }

  /** End to end: in every reachable state with a sending end that can send the frame and a
      receiving end as above, some continuation sends it and delivers it last, after
      everything queued before it, with the body it was sent with. */
  lemma SendCanArrive(c: Config, schedule: seq<(Side, Action)>, s: Side, f: Frame) returns (more: seq<(Side, Action)>)
    requires c.Valid()
    requires var x := Run(c, Init(), schedule); CanSend(c, s, x.Of(s), f) && Receiving(c, Other(s), x.Of(Other(s)))
    ensures var x, y := Run(c, Init(), schedule), Run(c, Init(), schedule + more);
      && y.Of(Other(s)).delivered == Expected(c, x.Of(s).queued) + [Arrives(c, f)]
      && Arrives(c, f).body == f.body && Sources(y.Of(s).queued) == Sources(x.Of(s).queued) + [f]
  {
    var x := Run(c, Init(), schedule);
    assert Inv(c, x) by {
      Reached(c, schedule);
    }
    more := SendsAndReads(c, x, s, f);
    RunThen(c, Init(), schedule, more);
    SourcesGrow(x.Of(s).queued, Item(OnWire(c, x.Of(s), f), Some(f)));
    ExpectedGrow(c, x.Of(s).queued, Item(OnWire(c, x.Of(s), f), Some(f)));
    DeliveredInOrder(c, schedule + more, Other(s));
  }
}
