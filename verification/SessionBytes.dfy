/** The session down to its bytes: an end that reads what the other end wrote, cut into reads
    in any way, takes steps of the session, and delivers what the session delivers. */
module SessionBytes {
  import opened Wrappers
  import opened Bytes
  import opened FrameCodec
  import opened ReadLoop
  import opened Stream
  import Config
  import S = Session

  type Accept = Frame -> bool

  /** How many steps are left before the reader is back in its loop, or has failed. */
  function Rank(r: S.Reader): nat {
    match r
    case SendingKey(_) => 3
    case Agreeing(_) => 2
    case Announcing => 1
    case Holding(_) => 1
    case _ => 0
  }

  /** The reader's next step, with the application's answer. */
  function Next(r: S.Reader, accept: Accept): S.Action
    requires Rank(r) > 0
  {
    match r
    case SendingKey(_) => S.SendKey(true)
    case Agreeing(_) => S.Agree
    case Announcing => S.Announce(true)
    case Holding(f) => S.Deliver(accept(f))
  }

  lemma NextSettles(c: S.Config, s: S.Side, e: S.End, peer: S.End, accept: Accept)
    requires Rank(e.reader) > 0
    ensures var n := S.StepEnd(c, s, e, peer, Next(e.reader, accept));
      && n == S.StepEnd(c, s, e, e, Next(e.reader, accept)) && Rank(n.reader) < Rank(e.reader) && n.read == e.read
      && (Rank(n.reader) == 0 ==> n.reader.Reading? || n.reader.Failed?)
  {
  }

  /** What follows the receipt of a frame without a pause: the rest of a key exchange, or the
      delivery. */
  function Finish(c: S.Config, s: S.Side, e: S.End, accept: Accept): S.End
    decreases Rank(e.reader)
  {
    if Rank(e.reader) == 0 then e
    else
      NextSettles(c, s, e, e, accept);
      Finish(c, s, S.StepEnd(c, s, e, e, Next(e.reader, accept)), accept)
  }

  function HandleFrame(c: S.Config, s: S.Side, e: S.End, f: Frame, accept: Accept): S.End {
    Finish(c, s, S.ReceiveFrame(c, s, e, f).(read := e.read + 1), accept)
  }

  /** The connection as the handler of the read loop. */
  function Connection(c: S.Config, s: S.Side, accept: Accept): Handler<S.End, S.Failure> {
    (e: S.End, f: Frame) =>
      var n := HandleFrame(c, s, e, f, accept);
      (n, if n.reader.Failed? then Some(n.reader.failure) else None)
  }

  function Put(x: S.State, s: S.Side, e: S.End): S.State {
    if s.Client? then x.(client := e) else x.(server := e)
  }

  lemma {:induction false} FinishSettles(c: S.Config, s: S.Side, e: S.End, accept: Accept)
    requires Rank(e.reader) > 0 || e.reader.Reading? || e.reader.Failed?
    ensures var n := Finish(c, s, e, accept); (n.reader.Reading? || n.reader.Failed?) && n.read == e.read
    decreases Rank(e.reader)
  {
    if Rank(e.reader) > 0 {
      NextSettles(c, s, e, e, accept);
      FinishSettles(c, s, S.StepEnd(c, s, e, e, Next(e.reader, accept)), accept);
    }
  }

  lemma ReceiveSettles(c: S.Config, s: S.Side, e: S.End, f: Frame)
    requires e.reader.Reading?
    ensures var n := S.ReceiveFrame(c, s, e, f);
      && (Rank(n.reader) > 0 || n.reader.Reading? || n.reader.Failed?)
      && n.read == e.read
  {
  }

  lemma FrameSettles(c: S.Config, s: S.Side, e: S.End, f: Frame, accept: Accept)
    requires e.reader.Reading?
    ensures var n := HandleFrame(c, s, e, f, accept); (n.reader.Reading? || n.reader.Failed?) && n.read == e.read + 1
  {
    ReceiveSettles(c, s, e, f);
    FinishSettles(c, s, S.ReceiveFrame(c, s, e, f).(read := e.read + 1), accept);
  }

  lemma {:induction false} RunAppend(c: S.Config, x: S.State, a: seq<(S.Side, S.Action)>, b: seq<(S.Side, S.Action)>)
    ensures S.Run(c, x, a + b) == S.Run(c, S.Run(c, x, a), b)
    decreases |a|
  {
    if a == [] {
      assert a + b == b;
    } else {
      assert (a + b)[1..] == a[1..] + b;
      RunAppend(c, S.Step(c, x, a[0].0, a[0].1), a[1..], b);
    }
  }

  /** Finishing is a few steps of the session. */
  lemma {:induction false} FinishIsRun(c: S.Config, x: S.State, s: S.Side, accept: Accept)
      returns (schedule: seq<(S.Side, S.Action)>)
    ensures S.Run(c, x, schedule) == Put(x, s, Finish(c, s, x.Of(s), accept))
    decreases Rank(x.Of(s).reader)
  {
    var e := x.Of(s);
    schedule := [];
    if Rank(e.reader) > 0 {
      var a := Next(e.reader, accept);
      var n := S.Step(c, x, s, a);
      NextSettles(c, s, e, x.Of(S.Other(s)), accept);
      assert n == Put(x, s, S.StepEnd(c, s, e, e, a));
      var rest := FinishIsRun(c, n, s, accept);
      schedule := [(s, a)] + rest;
      assert schedule[1..] == rest;
    }
  }

  lemma FrameIsRun(c: S.Config, x: S.State, s: S.Side, accept: Accept) returns (schedule: seq<(S.Side, S.Action)>)
    requires var e, peer := x.Of(s), x.Of(S.Other(s)); e.reader.Reading? && e.read < peer.written <= |peer.queued|
    ensures var e, peer := x.Of(s), x.Of(S.Other(s));
      S.Run(c, x, schedule) == Put(x, s, HandleFrame(c, s, e, peer.queued[e.read].wire, accept))
  {
    var n := S.Step(c, x, s, S.Receive);
    var rest := FinishIsRun(c, n, s, accept);
    schedule := [(s, S.Receive)] + rest;
    assert schedule[1..] == rest;
  }

  function Wires(items: seq<S.Item>): seq<Frame> {
    seq(|items|, i requires 0 <= i < |items| => items[i].wire)
  }

  /** The frames an end may still read. */
  function Unread(x: S.State, s: S.Side): seq<Frame>
    requires x.Of(s).read <= x.Of(S.Other(s)).written <= |x.Of(S.Other(s)).queued|
  {
    Wires(x.Of(S.Other(s)).queued[x.Of(s).read..x.Of(S.Other(s)).written])
  }

  lemma UnreadSendable(c: S.Config, before: seq<(S.Side, S.Action)>, s: S.Side)
    requires c.Valid() && c.LimitsFit(s) && c.Of(s).inbound > 0
    ensures var x := S.Run(c, S.Init(), before);
      && x.Of(s).read <= x.Of(S.Other(s)).written <= |x.Of(S.Other(s)).queued|
      && Sendable(Unread(x, s), c.crc, c.Of(S.Other(s)).outbound, c.Of(s).inbound)
  {
    var x := S.Run(c, S.Init(), before);
    var queued := x.Of(S.Other(s)).queued;
    assert S.Queue(c, S.Other(s), queued) && x.Of(s).read <= x.Of(S.Other(s)).written <= |queued| by {
      S.Reached(c, before);
    }
    forall i | 0 <= i < |queued|
      ensures S.Encodable(c, S.Other(s), queued[i].wire)
    {
      QueuedEncodable(c, S.Other(s), queued, i);
    }
  }

  lemma QueuedEncodable(c: S.Config, s: S.Side, queued: seq<S.Item>, i: nat)
    requires S.Queue(c, s, queued) && i < |queued|
    ensures S.Encodable(c, s, queued[i].wire)
  {
    assert if c.encrypt && i == 0 then S.KeyItem(c, s, queued[i]) else S.Business(c, s, queued[i]);
  }

  /** These reads hold some part of the bytes the other end has written and this one has not
      read. That there are such bytes to speak of is so in every run, by UnreadSendable. */
  ghost predicate PartArrived(c: S.Config, x: S.State, s: S.Side, chunks: seq<seq<byte>>) {
    && x.Of(s).read <= x.Of(S.Other(s)).written <= |x.Of(S.Other(s)).queued|
    && Sendable(Unread(x, s), c.crc, c.Of(S.Other(s)).outbound, c.Of(s).inbound)
    && Concat(chunks) <= Streamed(Unread(x, s), c.crc, c.Of(S.Other(s)).outbound)
  }

  /** Some run of the session leads here. */
  ghost predicate Reachable(c: S.Config, y: S.State) {
    exists schedule :: S.Run(c, S.Init(), schedule) == y
  }

  /** After i of the unread frames: back in the read loop, in a state the session reaches. */
  ghost predicate Along(c: S.Config, x: S.State, s: S.Side, e: S.End, i: nat) {
    e.reader.Reading? && e.read == x.Of(s).read + i && Reachable(c, Put(x, s, e))
  }

  /** Where handling frame i of them may land. */
  ghost predicate Landed(c: S.Config, x: S.State, s: S.Side, n: S.End, i: nat) {
    Reachable(c, Put(x, s, n)) && (n.reader.Failed? || Along(c, x, s, n, i + 1))
  }

  lemma FrameReaches(c: S.Config, x: S.State, s: S.Side, accept: Accept)
    requires Reachable(c, x)
    requires var e, peer := x.Of(s), x.Of(S.Other(s)); e.reader.Reading? && e.read < peer.written <= |peer.queued|
    ensures var e, peer := x.Of(s), x.Of(S.Other(s));
      Reachable(c, Put(x, s, HandleFrame(c, s, e, peer.queued[e.read].wire, accept)))
  {
    var before :| S.Run(c, S.Init(), before) == x;
    var more := FrameIsRun(c, x, s, accept);
    RunAppend(c, S.Init(), before, more);
  }

  /** Handling one frame is a few steps of the session. */
  lemma AlongStep(c: S.Config, x: S.State, s: S.Side, accept: Accept, e: S.End, i: nat)
    requires Along(c, x, s, e, i) && x.Of(s).read + i < x.Of(S.Other(s)).written <= |x.Of(S.Other(s)).queued|
    ensures Landed(c, x, s, HandleFrame(c, s, e, x.Of(S.Other(s)).queued[x.Of(s).read + i].wire, accept), i)
  {
    var y := Put(x, s, e);
    FrameReaches(c, y, s, accept);
    FrameSettles(c, s, e, y.Of(S.Other(s)).queued[e.read].wire, accept);
  }

  /** What every state of the session says of what was delivered. */
  lemma ReachedDelivers(c: S.Config, y: S.State, s: S.Side)
    requires c.Valid() && Reachable(c, y)
    ensures y.Of(s).delivered <= S.Expected(c, y.Of(S.Other(s)).queued)
    ensures y.Of(s).read <= |y.Of(S.Other(s)).queued|
    ensures y.Of(s).reader.Reading? ==> y.Of(s).delivered == S.Expected(c, y.Of(S.Other(s)).queued[..y.Of(s).read])
  {
    var schedule :| S.Run(c, S.Init(), schedule) == y;
    S.DeliveredInOrder(c, schedule, s);
    S.Reached(c, schedule);
  }

  /** A handler whose frames, in that state, are steps of the session. */
  ghost predicate StepsOn(c: S.Config, x: S.State, s: S.Side, conn: Handler<S.End, S.Failure>)
    requires x.Of(s).read <= x.Of(S.Other(s)).written <= |x.Of(S.Other(s)).queued|
  {
    forall e, i: nat {:trigger Along(c, x, s, e, i)} :: i < |Unread(x, s)| && Along(c, x, s, e, i) ==>
      OneStep(c, x, s, conn, e, i)
  }

  ghost predicate OneStep(c: S.Config, x: S.State, s: S.Side, conn: Handler<S.End, S.Failure>, e: S.End, i: nat)
    requires x.Of(s).read <= x.Of(S.Other(s)).written <= |x.Of(S.Other(s)).queued| && i < |Unread(x, s)|
  {
    var (n, h) := conn(e, Unread(x, s)[i]); (h.Some? <==> n.reader.Failed?) && Landed(c, x, s, n, i)
  }

  lemma ConnectionStep(c: S.Config, x: S.State, s: S.Side, accept: Accept, e: S.End, i: nat)
    requires x.Of(s).read <= x.Of(S.Other(s)).written <= |x.Of(S.Other(s)).queued| && i < |Unread(x, s)|
    requires Along(c, x, s, e, i)
    ensures OneStep(c, x, s, Connection(c, s, accept), e, i)
  {
    var f := Unread(x, s)[i];
    assert f == x.Of(S.Other(s)).queued[x.Of(s).read + i].wire;
    AlongStep(c, x, s, accept, e, i);
    ConnectionIs(c, s, accept, e, f);
  }

  lemma ConnectionIs(c: S.Config, s: S.Side, accept: Accept, e: S.End, f: Frame)
    ensures var (n, h) := Connection(c, s, accept)(e, f);
      n == HandleFrame(c, s, e, f, accept) && (h.Some? <==> n.reader.Failed?)
  {
  }

  lemma ConnectionSteps(c: S.Config, x: S.State, s: S.Side, accept: Accept)
    requires x.Of(s).read <= x.Of(S.Other(s)).written <= |x.Of(S.Other(s)).queued|
    ensures StepsOn(c, x, s, Connection(c, s, accept))
  {
    forall e, i: nat {:trigger Along(c, x, s, e, i)} | i < |Unread(x, s)| && Along(c, x, s, e, i)
      ensures OneStep(c, x, s, Connection(c, s, accept), e, i)
    {
      ConnectionStep(c, x, s, accept, e, i);
    }
  }

  ghost predicate Kept(c: S.Config, x: S.State, s: S.Side, o: Outcome<S.End, S.Failure>, k: nat) {
    if o.fault.None? then Along(c, x, s, o.done.state, k) else Reachable(c, Put(x, s, o.done.state))
  }

  lemma BytesKeep(c: S.Config, x: S.State, s: S.Side, chunks: seq<seq<byte>>, conn: Handler<S.End, S.Failure>,
      maxCap: nat)
    requires Readable(chunks) && c.Of(s).inbound > 0 && maxCap >= MaxPartial(c.Of(s).inbound) + Config.READ_CHUNK
    requires Along(c, x, s, x.Of(s), 0) && PartArrived(c, x, s, chunks) && StepsOn(c, x, s, conn)
    ensures var o := Chunked([], chunks, Progress(x.Of(s), []), conn, c.crc, c.Of(s).inbound, maxCap);
      var k := Arrived(Unread(x, s), |Concat(chunks)|);
      && k <= |Unread(x, s)|
      && Kept(c, x, s, o, k)
  {
    var inv: (S.End, nat) -> bool := (e: S.End, i: nat) => Along(c, x, s, e, i);
    var last: S.End -> bool := (e: S.End) => Reachable(c, Put(x, s, e));
    StreamKeeps(Unread(x, s), chunks, Progress(x.Of(s), []), conn, c.crc, c.Of(S.Other(s)).outbound, c.Of(s).inbound,
      maxCap, inv, last);
  }

  /** What the application of an end has, in state e of it reached from x by reading, when
      n of the other end's frames had arrived whole. */
  ghost predicate Delivers(c: S.Config, x: S.State, s: S.Side, o: Outcome<S.End, S.Failure>, n: nat) {
    var queued := x.Of(S.Other(s)).queued;
    && Reachable(c, Put(x, s, o.done.state))
    && o.done.state.delivered <= S.Expected(c, queued)
    && n <= |queued|
    && (o.fault.None? ==> o.done.state.delivered == S.Expected(c, queued[..n]))
  }

  lemma KeptDelivers(c: S.Config, x: S.State, s: S.Side, o: Outcome<S.End, S.Failure>, k: nat)
    requires c.Valid() && x.Of(s).read + k <= |x.Of(S.Other(s)).queued|
    requires Kept(c, x, s, o, k)
    ensures Delivers(c, x, s, o, x.Of(s).read + k)
  {
    ReachedDelivers(c, Put(x, s, o.done.state), s);
  }

  lemma StepsDeliver(c: S.Config, x: S.State, s: S.Side, chunks: seq<seq<byte>>,
      conn: Handler<S.End, S.Failure>, maxCap: nat)
    requires c.Valid() && Readable(chunks)
    requires c.Of(s).inbound > 0 && maxCap >= MaxPartial(c.Of(s).inbound) + Config.READ_CHUNK
    requires Reachable(c, x) && x.Of(s).reader.Reading? && PartArrived(c, x, s, chunks) && StepsOn(c, x, s, conn)
    ensures Delivers(c, x, s, Chunked([], chunks, Progress(x.Of(s), []), conn, c.crc, c.Of(s).inbound, maxCap),
      x.Of(s).read + Arrived(Unread(x, s), |Concat(chunks)|))
  {
    assert Put(x, s, x.Of(s)) == x;
    BytesKeep(c, x, s, chunks, conn, maxCap);
    KeptDelivers(c, x, s, Chunked([], chunks, Progress(x.Of(s), []), conn, c.crc, c.Of(s).inbound, maxCap),
      Arrived(Unread(x, s), |Concat(chunks)|));
  }

  /** In every run, for an end at rest in its read loop, and any part of the bytes the other
      end has written and it has not read, cut into reads in any way: what the loop makes of
      those reads is a state of the session, in which the application has the beginning of
      what the other one queued, and without an error exactly what arrived whole. */
  lemma BytesDeliver(c: S.Config, x: S.State, s: S.Side, chunks: seq<seq<byte>>, accept: Accept, maxCap: nat)
    requires c.Valid() && Readable(chunks)
    requires c.Of(s).inbound > 0 && maxCap >= MaxPartial(c.Of(s).inbound) + Config.READ_CHUNK
    requires Reachable(c, x) && x.Of(s).reader.Reading? && PartArrived(c, x, s, chunks)
    ensures Delivers(c, x, s,
      Chunked([], chunks, Progress(x.Of(s), []), Connection(c, s, accept), c.crc, c.Of(s).inbound, maxCap),
      x.Of(s).read + Arrived(Unread(x, s), |Concat(chunks)|))
  {
    ConnectionSteps(c, x, s, accept);
    StepsDeliver(c, x, s, chunks, Connection(c, s, accept), maxCap);
  }
}
