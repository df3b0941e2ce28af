/** Two connected ends of one session: handshake, queued sends, and the receive path. Every
    action is one atomic step of one end, and a run is any schedule of them. */
module Session {
  import opened Wrappers
  import opened Bytes
  import opened FrameCodec
  import Pipeline
  import Cipher

  datatype Side = Client | Server

  function Other(s: Side): Side { if s.Client? then Server else Client }

  /** What differs between the ends. */
  datatype Local = Local(private: seq<byte>, outbound: nat, inbound: nat, sendChan: nat)

  /** Key agreement, checksum and codec are parameters; the two ends share all three. */
  datatype Config = Config(
    encrypt: bool,
    codec: Option<seq<Pipeline.Transform>>,
    crc: Checksum,
    public: seq<byte> -> seq<byte>,
    shared: (seq<byte>, seq<byte>) -> Option<Cipher.Key>,
    client: Local,
    server: Local)
  {
    function Of(s: Side): Local { if s.Client? then client else server }

    /** What the end derives from its own private key and the other's public key. */
    function KeyOf(s: Side): Option<Cipher.Key> { shared(Of(s).private, public(Of(Other(s)).private)) }

    ghost predicate FaithfulCodec() {
      codec.Some? ==>
        Pipeline.Valid(codec.value) && forall i :: 0 <= i < |codec.value| ==> Pipeline.Faithful(codec.value[i])
    }

    ghost predicate ExactCodec() {
      codec.Some? ==>
        Pipeline.Valid(codec.value) && forall i :: 0 <= i < |codec.value| ==> Pipeline.Exact(codec.value[i])
    }

    /** Both ends derive the same key, and undoing the codec gives the data back or an error. */
    ghost predicate Valid() {
      KeyOf(Client) == KeyOf(Server) && FaithfulCodec()
    }

    predicate LimitsFit(s: Side) {
      Of(s).inbound == 0 || 0 < Of(Other(s)).outbound <= Of(s).inbound
    }
  }

  datatype Phase = Created | Handshaking | Ready | Closed

  datatype Failure =
    | BadState            // start on a connection that is not new
    | KeyNotSent          // the key exchange frame was not queued
    | KeyRejected         // the other end's public key is unusable
    | FrameTooLarge | CodecRefused
    | HandshakeNotComplete | InvalidKey
    | CloseRequested | UnknownAct
    | Refused             // the application's handler returned an error

  /** The goroutine that starts the connection and then reads from it. */
  datatype Reader =
    | Unstarted | Starting
    | SendingKey(peer: Option<seq<byte>>)
    | Agreeing(key: seq<byte>)
    | Announcing
    | Reading
    | Holding(frame: Frame)
    | Failed(failure: Failure)

  /** A queued frame and the frame the application sent; a key exchange has none. */
  datatype Item = Item(wire: Frame, source: Option<Frame>)

  /** One call of SendMessage, between its atomic steps. */
  datatype Stage = Packed | Checked | Sealed | Queued | Dropped
  datatype Send = Send(source: Frame, wire: Frame, stage: Stage)

  /** `queued` is all that entered the send channel; the first `taken` have left it for the
      write loop, and the first `written` are on the wire; of the other end's frames the
      first `read` were taken off it. */
  datatype End = End(
    phase: Phase,
    sharedKey: seq<byte>,
    reader: Reader,
    sends: seq<Send>,
    queued: seq<Item>,
    taken: nat,
    written: nat,
    read: nat,
    delivered: seq<Frame>)

  datatype Action =
    | Start | Proceed | SendKey(accepted: bool) | Agree | Announce(ok: bool)
    | Receive | Deliver(ok: bool)
    | SendBegin(frame: Frame) | SendCheck(at: nat) | SendSeal(at: nat) | SendPush(at: nat, accepted: bool)
    | Take | Write | Close

  // ---- Frames out and in ----

  function Pack(c: Config, f: Frame): Option<Frame> {
    if c.codec.None? then Some(f)
    else
      match Pipeline.Encode(c.codec.value, f.body)
      case Err(_) => None
      case Ok((body, flags)) => Some(f.(body := body, flags := Pipeline.ByteOf(flags)))
  }

  function Unpack(c: Config, f: Frame): Option<Frame> {
    if c.codec.None? then Some(f)
    else
      match Pipeline.Decode(c.codec.value, f.body, Pipeline.BitsOf(f.flags))
      case Err(_) => None
      case Ok(body) => Some(f.(body := body))
  }

  function SealBody(c: Config, key: Cipher.Key, f: Frame): Frame {
    if c.encrypt then f.(body := Cipher.Encrypted(key, f.body)) else f
  }

  function OpenBody(c: Config, key: Cipher.Key, f: Frame): Frame {
    if c.encrypt then f.(body := Cipher.Decrypted(key, f.body)) else f
  }

  predicate Encodable(c: Config, s: Side, f: Frame) {
    Encode(f, c.crc, c.Of(s).outbound).Ok?
  }

  function KeyFrame(c: Config, s: Side): Frame {
    Frame(INTERNAL_CMD, KEY_EXCHANGE, 0, 0, 0, c.public(c.Of(s).private))
  }

  /** What the other end's application gets: the frame that was sent, with the codec's flags. */
  function Arrives(c: Config, f: Frame): Frame {
    var p := Pack(c, f);
    if p.Some? then f.(flags := p.value.flags) else f
  }

  // ---- Steps ----

  function Fail(e: End, failure: Failure): End { e.(reader := Failed(failure)) }

  predicate Full(c: Config, s: Side, e: End) {
    |e.queued| >= e.taken + c.Of(s).sendChan
  }

  /** A full channel refuses; a closed connection may refuse or accept. */
  predicate Accepts(c: Config, s: Side, e: End, accepted: bool) {
    !Full(c, s, e) && (e.phase.Closed? ==> accepted)
  }

  function SendKeyStep(c: Config, s: Side, e: End, accepted: bool): End
    requires e.reader.SendingKey?
  {
    var p := Pack(c, KeyFrame(c, s));
    if p.None? || !Encodable(c, s, p.value) || !Accepts(c, s, e, accepted) then Fail(e, KeyNotSent)
    else
      var e' := e.(queued := e.queued + [Item(p.value, None)]);
      e'.(reader := if e.reader.peer.None? then Reading else Agreeing(e.reader.peer.value))
  }

  function ReceiveFrame(c: Config, s: Side, e: End, wire: Frame): End {
    if c.Of(s).inbound > 0 && FrameSize(|wire.body|) > c.Of(s).inbound then Fail(e, FrameTooLarge)
    else if wire.cmd == INTERNAL_CMD then
      var f := Unpack(c, wire);
      if f.None? then Fail(e, CodecRefused)
      else if wire.act == ACT_CLOSE then Fail(e, CloseRequested)
      else if wire.act != KEY_EXCHANGE then Fail(e, UnknownAct)
      else if !e.phase.Handshaking? then e
      else e.(phase := Ready, reader := if s.Server? then SendingKey(Some(f.value.body)) else Agreeing(f.value.body))
    else if c.encrypt && !e.phase.Ready? then Fail(e, HandshakeNotComplete)
    else if c.encrypt && |e.sharedKey| != Cipher.KEY_SIZE then Fail(e, InvalidKey)
    else
      var f := Unpack(c, if c.encrypt then OpenBody(c, e.sharedKey, wire) else wire);
      if f.None? then Fail(e, CodecRefused) else e.(reader := Holding(f.value))
  }

  function SendSealStep(c: Config, s: Side, e: End, t: Send): Send {
    if c.encrypt && |e.sharedKey| != Cipher.KEY_SIZE then t.(stage := Dropped)
    else
      var wire := if c.encrypt then SealBody(c, e.sharedKey, t.wire) else t.wire;
      if Encodable(c, s, wire) then Send(t.source, wire, Sealed) else t.(stage := Dropped)
  }

  /** The step an end takes; an action that is not enabled changes nothing. */
  function StepEnd(c: Config, s: Side, e: End, peer: End, a: Action): End {
    match a
    case Start =>
      if !e.reader.Unstarted? then e
      else if !e.phase.Created? then Fail(e, BadState)
      else e.(phase := Handshaking, reader := Starting)
    case Proceed =>
      if !e.reader.Starting? then e
      else if c.encrypt then e.(reader := if s.Client? then SendingKey(None) else Reading)
      else if !e.phase.Handshaking? then Fail(e, BadState)
      else e.(phase := Ready, reader := Announcing)
    case SendKey(accepted) => if e.reader.SendingKey? then SendKeyStep(c, s, e, accepted) else e
    case Agree =>
      if !e.reader.Agreeing? then e
      else
        var k := c.shared(c.Of(s).private, e.reader.key);
        if k.None? then Fail(e, KeyRejected) else e.(sharedKey := k.value, reader := Announcing)
    case Announce(ok) => if !e.reader.Announcing? then e else if ok then e.(reader := Reading) else Fail(e, Refused)
    case Receive =>
      if e.reader.Reading? && e.read < peer.written && e.read < |peer.queued|
      then ReceiveFrame(c, s, e, peer.queued[e.read].wire).(read := e.read + 1)
      else e
    case Deliver(ok) =>
      if !e.reader.Holding? then e
      else if !e.phase.Ready? then Fail(e, HandshakeNotComplete)
      else e.(delivered := e.delivered + [e.reader.frame], reader := if ok then Reading else Failed(Refused))
    case SendBegin(f) =>
      var p := Pack(c, f);
      if e.phase.Closed? || f.cmd == INTERNAL_CMD || p.None? then e
      else e.(sends := e.sends + [Send(f, p.value, Packed)])
    case SendCheck(at) =>
      if at < |e.sends| && e.sends[at].stage.Packed?
      then e.(sends := e.sends[at := e.sends[at].(stage := if e.phase.Ready? then Checked else Dropped)])
      else e
    case SendSeal(at) =>
      if at < |e.sends| && e.sends[at].stage.Checked?
      then e.(sends := e.sends[at := SendSealStep(c, s, e, e.sends[at])])
      else e
    case SendPush(at, accepted) =>
      if at < |e.sends| && e.sends[at].stage.Sealed? then
        if Accepts(c, s, e, accepted)
        then e.(sends := e.sends[at := e.sends[at].(stage := Queued)],
                queued := e.queued + [Item(e.sends[at].wire, Some(e.sends[at].source))])
        else e.(sends := e.sends[at := e.sends[at].(stage := Dropped)])
      else e
    case Take => if e.taken == e.written && e.taken < |e.queued| then e.(taken := e.taken + 1) else e
    case Write => if e.written < e.taken then e.(written := e.written + 1) else e
    case Close => e.(phase := Closed)
  }

  datatype State = State(client: End, server: End) {
    function Of(s: Side): End { if s.Client? then client else server }
  }

  function Step(c: Config, x: State, s: Side, a: Action): State {
    var e := StepEnd(c, s, x.Of(s), x.Of(Other(s)), a);
    if s.Client? then x.(client := e) else x.(server := e)
  }

  function Run(c: Config, x: State, schedule: seq<(Side, Action)>): State
    decreases |schedule|
  {
    if schedule == [] then x else Run(c, Step(c, x, schedule[0].0, schedule[0].1), schedule[1..])
  }

  function NewEnd(): End { End(Created, [], Unstarted, [], [], 0, 0, 0, []) }

  function Init(): State { State(NewEnd(), NewEnd()) }

  /** The frames the other application should get, in the order they were queued. */
  function Expected(c: Config, items: seq<Item>): seq<Frame> {
    if items == [] then []
    else
      var last := items[|items| - 1];
      Expected(c, items[..|items| - 1]) + (if last.source.Some? then [Arrives(c, last.source.value)] else [])
  }

  // ---- What one end keeps by itself ----

  predicate Business(c: Config, s: Side, it: Item) {
    && it.source.Some? && it.source.value.cmd != INTERNAL_CMD
    && Pack(c, it.source.value).Some? && Encodable(c, s, it.wire)
    && (c.encrypt ==> c.KeyOf(s).Some?)
    && var packed := Pack(c, it.source.value).value;
       it.wire == if c.encrypt then SealBody(c, c.KeyOf(s).value, packed) else packed
  }

  predicate KeyItem(c: Config, s: Side, it: Item) {
    it.source.None? && Some(it.wire) == Pack(c, KeyFrame(c, s)) && Encodable(c, s, it.wire)
  }

  /** With encryption the key exchange is queued first and only first. */
  predicate Queue(c: Config, s: Side, queued: seq<Item>) {
    forall i :: 0 <= i < |queued| ==>
      if c.encrypt && i == 0 then KeyItem(c, s, queued[i]) else Business(c, s, queued[i])
  }

  predicate GoodSend(c: Config, s: Side, sharedKey: seq<byte>, t: Send) {
    && t.source.cmd != INTERNAL_CMD
    && (t.stage.Packed? || t.stage.Checked? ==> Some(t.wire) == Pack(c, t.source))
    && (t.stage.Sealed? ==> Business(c, s, Item(t.wire, Some(t.source))) && (c.encrypt ==> sharedKey != []))
  }

  /** How the key, the queue and the reader move together. */
  predicate Handshake(c: Config, s: Side, e: End) {
    && (e.sharedKey == [] || Some(e.sharedKey) == c.KeyOf(s))
    && (e.sharedKey != [] ==> e.queued != [])
    && (e.reader.Agreeing? ==> e.queued != [] && e.sharedKey == [] && e.reader.key == c.public(c.Of(Other(s)).private))
    && (e.reader.Unstarted? || e.reader.Starting? || e.reader.SendingKey? ==> e.queued == [] && e.sharedKey == [])
    && (e.phase.Created? || e.phase.Handshaking? ==> e.sharedKey == [] && (s.Server? ==> e.queued == []))
    && (s.Client? && (e.reader.Reading? || e.reader.Holding? || e.reader.Announcing?) ==> e.queued != [])
    && (s.Client? && e.reader.SendingKey? ==> e.reader.peer.None?)
    && (s.Server? && e.reader.SendingKey? ==> e.reader.peer == Some(c.public(c.Of(Other(s)).private)))
    && (e.phase.Ready? && (e.reader.Reading? || e.reader.Holding? || e.reader.Announcing?) ==> e.sharedKey != [])
    && (e.phase.Ready? ==> !e.reader.Unstarted? && !e.reader.Starting? && (s.Client? ==> !e.reader.SendingKey?))
    && (e.phase.Created? || e.phase.Handshaking? ==> !e.reader.Agreeing? && (s.Server? ==> !e.reader.SendingKey?))
  }

  /** Which failures there can be, and where each phase can be met. */
  predicate Reads(c: Config, e: End) {
    && (e.phase.Created? ==> e.reader.Unstarted? || e.reader.Failed?)
    && (e.reader.Holding? ==> e.phase.Ready? || e.phase.Closed?)
    && (!c.encrypt ==> !e.reader.SendingKey? && !e.reader.Agreeing?)
    && (!c.encrypt && (e.reader.Announcing? || e.reader.Reading?) ==> e.phase.Ready? || e.phase.Closed?)
    && (e.reader.Failed? ==> e.reader.failure !in {InvalidKey, UnknownAct, CloseRequested})
    && (e.reader.Failed? && e.reader.failure.HandshakeNotComplete? ==> e.phase.Closed?)
  }

  predicate Sends(c: Config, s: Side, sharedKey: seq<byte>, sends: seq<Send>) {
    forall i :: 0 <= i < |sends| ==> GoodSend(c, s, sharedKey, sends[i])
  }

  predicate Own(c: Config, s: Side, e: End) {
    && Queue(c, s, e.queued)
    && Sends(c, s, e.sharedKey, e.sends)
    && e.written <= e.taken <= |e.queued|
    && e.taken <= e.written + 1
    && (c.encrypt ==> Handshake(c, s, e))
    && Reads(c, e)
  }

  // ---- What an end keeps about the other end's frames ----

  function Held(e: End): seq<Frame> { if e.reader.Holding? then [e.reader.frame] else [] }

  /** A reader that has not failed has delivered, or holds, all it took; a failed one may
      have lost the last. */
  predicate Got(e: End, expected: seq<Frame>) {
    if e.reader.Failed? then e.delivered <= expected else e.delivered + Held(e) == expected
  }

  ghost predicate NoRefusal(c: Config, s: Side, e: End) {
    c.ExactCodec() && c.LimitsFit(s) && e.reader.Failed? ==> e.reader.failure !in {FrameTooLarge, CodecRefused}
  }

  ghost predicate Cross(c: Config, s: Side, e: End, peer: End) {
    && e.read <= peer.written
    && (c.encrypt && e.read > 0 && !e.reader.Failed? ==> e.phase.Ready? || e.phase.Closed?)
    && (e.read <= |peer.queued| ==> Got(e, Expected(c, peer.queued[..e.read])))
    && NoRefusal(c, s, e)
  }

  // ---- Packing and sealing are undone ----

  lemma PackUndone(c: Config, f: Frame)
    requires c.FaithfulCodec() && Pack(c, f).Some?
    ensures var p := Pack(c, f).value; var u := Unpack(c, p);
      && p == f.(body := p.body, flags := p.flags)
      && (u.Some? ==> u.value == Arrives(c, f)) && (c.ExactCodec() ==> u.Some?)
  {
    if c.codec.Some? {
      var (body, flags) := Pipeline.Encode(c.codec.value, f.body).value;
      Pipeline.DecodeOfEncode(c.codec.value, f.body);
      Pipeline.BitsRoundTrip(flags);
    }
  }

  lemma SealUndone(c: Config, key: Cipher.Key, f: Frame)
    ensures OpenBody(c, key, SealBody(c, key, f)) == f
    ensures FrameSize(|SealBody(c, key, f).body|) == FrameSize(|f.body|)
  {
    Cipher.RoundTrip(key, f.body);
  }

  // ---- Each step keeps the end's own invariant ----

  lemma SealKept(c: Config, s: Side, e: End, at: nat)
    requires Own(c, s, e) && at < |e.sends| && e.sends[at].stage.Checked?
    ensures GoodSend(c, s, e.sharedKey, SendSealStep(c, s, e, e.sends[at]))
  {
    assert GoodSend(c, s, e.sharedKey, e.sends[at]);
  }

  lemma KeyReceived(c: Config, s: Side, e: End, it: Item)
    requires c.FaithfulCodec() && c.encrypt && e.reader.Reading? && KeyItem(c, Other(s), it)
    requires Handshake(c, s, e) && Reads(c, e)
    ensures var e' := ReceiveFrame(c, s, e, it.wire); Handshake(c, s, e') && Reads(c, e')
  {
    PackUndone(c, KeyFrame(c, Other(s)));
  }

  lemma BusinessReceived(c: Config, s: Side, e: End, it: Item)
    requires e.reader.Reading? && Business(c, Other(s), it)
    requires c.encrypt ==> (e.phase.Ready? || e.phase.Closed?) && Handshake(c, s, e)
    requires Reads(c, e)
    ensures var e' := ReceiveFrame(c, s, e, it.wire); (c.encrypt ==> Handshake(c, s, e')) && Reads(c, e')
  {
  }

  /** The receive step leaves alone what Own says of the queue and the sends. */
  lemma ReceiveFrameRest(c: Config, s: Side, e: End, wire: Frame)
    requires e.reader.Reading?
    ensures var e' := ReceiveFrame(c, s, e, wire);
      && e'.queued == e.queued && e'.sends == e.sends && e'.sharedKey == e.sharedKey
      && e'.taken == e.taken && e'.written == e.written
  {
  }

  lemma HandshakeIgnoresRead(c: Config, s: Side, e: End, read: nat)
    requires Handshake(c, s, e)
    ensures Handshake(c, s, e.(read := read))
  {
  }

  lemma FrameReceived(c: Config, s: Side, e: End, it: Item)
    requires c.Valid() && e.reader.Reading? && Reads(c, e) && (c.encrypt ==> Handshake(c, s, e))
    requires if c.encrypt && e.read == 0 then KeyItem(c, Other(s), it)
      else Business(c, Other(s), it) && (c.encrypt ==> e.phase.Ready? || e.phase.Closed?)
    ensures var e' := ReceiveFrame(c, s, e, it.wire); (c.encrypt ==> Handshake(c, s, e')) && Reads(c, e')
  {
    if c.encrypt && e.read == 0 {
      KeyReceived(c, s, e, it);
    } else {
      BusinessReceived(c, s, e, it);
    }
  }

  lemma ReceiveKept(c: Config, s: Side, e: End, peer: End)
    requires c.Valid() && Own(c, s, e) && Queue(c, Other(s), peer.queued) && Cross(c, s, e, peer)
    ensures Own(c, s, StepEnd(c, s, e, peer, Receive))
  {
    if e.reader.Reading? && e.read < peer.written && e.read < |peer.queued| {
      var it := peer.queued[e.read];
      FrameReceived(c, s, e, it);
      ReceiveFrameRest(c, s, e, it.wire);
      if c.encrypt {
        HandshakeIgnoresRead(c, s, ReceiveFrame(c, s, e, it.wire), e.read + 1);
      }
    }
  }

  lemma QueueGrows(c: Config, s: Side, queued: seq<Item>, it: Item)
    requires Queue(c, s, queued)
    requires if c.encrypt && queued == [] then KeyItem(c, s, it) else Business(c, s, it)
    ensures Queue(c, s, queued + [it])
  {
  }

  lemma PushKept(c: Config, s: Side, e: End, peer: End, at: nat, accepted: bool)
    requires c.Valid() && Own(c, s, e)
    ensures Own(c, s, StepEnd(c, s, e, peer, SendPush(at, accepted)))
  {
    if at < |e.sends| && e.sends[at].stage.Sealed? {
      assert GoodSend(c, s, e.sharedKey, e.sends[at]);
      QueueGrows(c, s, e.queued, Item(e.sends[at].wire, Some(e.sends[at].source)));
    }
  }

  lemma SendKept(c: Config, s: Side, e: End, peer: End, a: Action)
    requires c.Valid() && Own(c, s, e)
    requires a.SendBegin? || a.SendCheck? || a.SendSeal?
    ensures Own(c, s, StepEnd(c, s, e, peer, a))
  {
    if a.SendSeal? && a.at < |e.sends| && e.sends[a.at].stage.Checked? {
      SealKept(c, s, e, a.at);
    }
  }

  lemma AgreeKept(c: Config, s: Side, e: End, peer: End)
    requires c.Valid() && Own(c, s, e)
    ensures Own(c, s, StepEnd(c, s, e, peer, Agree))
  {
    forall i | 0 <= i < |e.sends|
      ensures e.reader.Agreeing? && c.KeyOf(s).Some? ==> GoodSend(c, s, c.KeyOf(s).value, e.sends[i])
    {
      assert GoodSend(c, s, e.sharedKey, e.sends[i]);
    }
  }

  lemma SendKeyKept(c: Config, s: Side, e: End, peer: End, accepted: bool)
    requires c.Valid() && Own(c, s, e)
    ensures Own(c, s, StepEnd(c, s, e, peer, SendKey(accepted)))
  {
    var p := Pack(c, KeyFrame(c, s));
    if e.reader.SendingKey? && p.Some? && Encodable(c, s, p.value) {
      QueueGrows(c, s, e.queued, Item(p.value, None));
    }
  }

  lemma StartKept(c: Config, s: Side, e: End, peer: End, a: Action)
    requires Own(c, s, e) && (a.Start? || a.Proceed? || a.Announce? || a.Deliver?)
    ensures Own(c, s, StepEnd(c, s, e, peer, a))
  {
  }

  lemma WireKept(c: Config, s: Side, e: End, peer: End, a: Action)
    requires Own(c, s, e) && (a.Take? || a.Write? || a.Close?)
    ensures Own(c, s, StepEnd(c, s, e, peer, a))
  {
  }

  lemma OwnKept(c: Config, s: Side, e: End, peer: End, a: Action)
    requires c.Valid() && Own(c, s, e) && Queue(c, Other(s), peer.queued) && Cross(c, s, e, peer)
    ensures Own(c, s, StepEnd(c, s, e, peer, a))
  {
    match a
    case Receive => ReceiveKept(c, s, e, peer);
    case Agree => AgreeKept(c, s, e, peer);
    case SendKey(accepted) => SendKeyKept(c, s, e, peer, accepted);
    case SendBegin(_) => SendKept(c, s, e, peer, a);
    case SendCheck(_) => SendKept(c, s, e, peer, a);
    case SendSeal(_) => SendKept(c, s, e, peer, a);
    case SendPush(at, accepted) => PushKept(c, s, e, peer, at, accepted);
    case Take => WireKept(c, s, e, peer, a);
    case Write => WireKept(c, s, e, peer, a);
    case Close => WireKept(c, s, e, peer, a);
    case _ => StartKept(c, s, e, peer, a);
  }

  // ---- Each step keeps what the ends know of each other ----

  lemma ExpectedStep(c: Config, items: seq<Item>, n: nat)
    requires n < |items|
    ensures Expected(c, items[..n + 1]) == Expected(c, items[..n]) +
      (if items[n].source.Some? then [Arrives(c, items[n].source.value)] else [])
  {
    assert items[..n + 1][..n] == items[..n];
  }

  lemma KeyArrives(c: Config, s: Side, e: End, it: Item, expected: seq<Frame>)
    requires c.FaithfulCodec() && KeyItem(c, Other(s), it) && e.reader.Reading? && !e.phase.Created?
    requires Got(e, expected)
    ensures var e' := ReceiveFrame(c, s, e, it.wire);
      && Got(e', expected) && e'.read == e.read && NoRefusal(c, s, e')
      && (!e'.reader.Failed? ==> e'.phase.Ready? || e'.phase.Closed?)
  {
    PackUndone(c, KeyFrame(c, Other(s)));
  }

  /** What receiving a business frame comes to. */
  lemma BusinessOpens(c: Config, s: Side, e: End, it: Item)
    requires c.Valid() && Business(c, Other(s), it) && e.reader.Reading?
    requires c.encrypt && e.phase.Ready? ==> Some(e.sharedKey) == c.KeyOf(s)
    ensures var e' := ReceiveFrame(c, s, e, it.wire);
      || e' == e.(reader := Holding(Arrives(c, it.source.value)))
      || (e' == Fail(e, HandshakeNotComplete) && !e.phase.Ready?)
      || (e' == Fail(e, FrameTooLarge) && !c.LimitsFit(s))
      || (e' == Fail(e, CodecRefused) && !c.ExactCodec())
  {
    var f := it.source.value;
    PackUndone(c, f);
    if c.encrypt {
      SealUndone(c, c.KeyOf(s).value, Pack(c, f).value);
    }
  }

  lemma BusinessArrives(c: Config, s: Side, e: End, it: Item, expected: seq<Frame>)
    requires c.Valid() && Business(c, Other(s), it) && e.reader.Reading?
    requires c.encrypt && e.phase.Ready? ==> Some(e.sharedKey) == c.KeyOf(s)
    requires Got(e, expected)
    ensures var e' := ReceiveFrame(c, s, e, it.wire);
      && Got(e', expected + [Arrives(c, it.source.value)]) && e'.read == e.read && e'.phase == e.phase
      && NoRefusal(c, s, e')
  {
    BusinessOpens(c, s, e, it);
  }

  /** One more frame taken off the wire. */
  lemma TookOne(c: Config, s: Side, e: End, peer: End)
    requires e.read < peer.written <= |peer.queued| && Got(e, Expected(c, peer.queued[..e.read + 1]))
    requires NoRefusal(c, s, e)
    requires c.encrypt && !e.reader.Failed? ==> e.phase.Ready? || e.phase.Closed?
    ensures Cross(c, s, e.(read := e.read + 1), peer)
  {
  }

  lemma ItemArrives(c: Config, s: Side, e: End, items: seq<Item>)
    requires c.Valid() && (c.encrypt ==> Handshake(c, s, e)) && Reads(c, e) && Queue(c, Other(s), items)
    requires e.reader.Reading? && e.read < |items| && Got(e, Expected(c, items[..e.read])) && NoRefusal(c, s, e)
    requires c.encrypt && e.read > 0 ==> e.phase.Ready? || e.phase.Closed?
    ensures var e' := ReceiveFrame(c, s, e, items[e.read].wire);
      && Got(e', Expected(c, items[..e.read + 1])) && e'.read == e.read && NoRefusal(c, s, e')
      && (c.encrypt && !e'.reader.Failed? ==> e'.phase.Ready? || e'.phase.Closed?)
  {
    var it, expected := items[e.read], Expected(c, items[..e.read]);
    ExpectedStep(c, items, e.read);
    if c.encrypt && e.read == 0 {
      KeyArrives(c, s, e, it, expected);
    } else {
      BusinessArrives(c, s, e, it, expected);
    }
  }

  lemma CrossReceived(c: Config, s: Side, e: End, peer: End)
    requires c.Valid() && (c.encrypt ==> Handshake(c, s, e)) && Reads(c, e) && Queue(c, Other(s), peer.queued)
    requires peer.written <= |peer.queued| && Cross(c, s, e, peer)
    ensures Cross(c, s, StepEnd(c, s, e, peer, Receive), peer)
  {
    if e.reader.Reading? && e.read < peer.written {
      ItemArrives(c, s, e, peer.queued);
      TookOne(c, s, ReceiveFrame(c, s, e, peer.queued[e.read].wire), peer);
    }
  }

  /** No other step takes a frame off the wire or loses one. */
  lemma GotKept(c: Config, s: Side, e: End, peer: End, a: Action, expected: seq<Frame>)
    requires !a.Receive? && Got(e, expected)
    ensures var e' := StepEnd(c, s, e, peer, a); Got(e', expected) && e'.read == e.read
  {
  }

  lemma PhaseKept(c: Config, s: Side, e: End, peer: End, a: Action)
    requires !a.Receive? && Reads(c, e) && NoRefusal(c, s, e)
    ensures var e' := StepEnd(c, s, e, peer, a);
      && NoRefusal(c, s, e')
      && (e.reader.Failed? ==> e'.reader.Failed?)
      && (e.phase.Ready? || e.phase.Closed? ==> e'.phase.Ready? || e'.phase.Closed?)
  {
  }

  lemma CrossKept(c: Config, s: Side, e: End, peer: End, a: Action)
    requires c.Valid() && Own(c, s, e) && Queue(c, Other(s), peer.queued) && peer.written <= |peer.queued|
    requires Cross(c, s, e, peer)
    ensures Cross(c, s, StepEnd(c, s, e, peer, a), peer)
  {
    if a.Receive? {
      CrossReceived(c, s, e, peer);
    } else {
      GotKept(c, s, e, peer, a, Expected(c, peer.queued[..e.read]));
      PhaseKept(c, s, e, peer, a);
    }
  }

  /** The other end's steps only add to what it queued and wrote. */
  lemma PeerGrows(c: Config, s: Side, e: End, peer: End, a: Action)
    ensures var e' := StepEnd(c, s, e, peer, a); e.queued <= e'.queued && e.written <= e'.written
  {
  }

  ghost predicate Inv(c: Config, x: State) {
    && Own(c, Client, x.client) && Own(c, Server, x.server)
    && Cross(c, Client, x.client, x.server) && Cross(c, Server, x.server, x.client)
  }

  lemma CrossGrows(c: Config, s: Side, e: End, peer: End, peer': End)
    requires Cross(c, s, e, peer) && peer.written <= |peer.queued|
    requires peer.queued <= peer'.queued && peer.written <= peer'.written
    ensures Cross(c, s, e, peer')
  {
    assert peer'.queued[..e.read] == peer.queued[..e.read];
  }

  lemma InvKept(c: Config, x: State, s: Side, a: Action)
    requires c.Valid() && Inv(c, x)
    ensures Inv(c, Step(c, x, s, a))
  {
    var e, peer := x.Of(s), x.Of(Other(s));
    OwnKept(c, s, e, peer, a);
    CrossKept(c, s, e, peer, a);
    PeerGrows(c, s, e, peer, a);
    CrossGrows(c, Other(s), peer, e, StepEnd(c, s, e, peer, a));
  }

  lemma {:induction false} InvRun(c: Config, x: State, schedule: seq<(Side, Action)>)
    requires c.Valid() && Inv(c, x)
    ensures Inv(c, Run(c, x, schedule))
    decreases |schedule|
  {
    if schedule != [] {
      InvKept(c, x, schedule[0].0, schedule[0].1);
      InvRun(c, Step(c, x, schedule[0].0, schedule[0].1), schedule[1..]);
    }
  }

  // ---- Results, for every run from two new connections ----

  lemma Reached(c: Config, schedule: seq<(Side, Action)>)
    requires c.Valid()
    ensures Inv(c, Run(c, Init(), schedule))
  {
    InvRun(c, Init(), schedule);
  }

  lemma KeyIsInternal(c: Config, s: Side, it: Item)
    requires c.Valid() && KeyItem(c, s, it)
    ensures it.wire.cmd == INTERNAL_CMD && it.wire.act == KEY_EXCHANGE
  {
    PackUndone(c, KeyFrame(c, s));
  }

  lemma BusinessSealed(c: Config, s: Side, it: Item)
    requires c.Valid() && c.encrypt && Business(c, s, it)
    ensures SealedBusiness(c, it)
  {
    PackUndone(c, it.source.value);
  }

  predicate SealedBusiness(c: Config, it: Item) {
    && it.wire.cmd != INTERNAL_CMD && it.source.Some? && c.KeyOf(Client).Some? && Pack(c, it.source.value).Some?
    && it.wire.body == Cipher.Encrypted(c.KeyOf(Client).value, Pack(c, it.source.value).value.body)
  }

  predicate KeyFirst(c: Config, queued: seq<Item>, i: nat)
    requires i < |queued|
  {
    if i == 0 then queued[i].wire.cmd == INTERNAL_CMD && queued[i].wire.act == KEY_EXCHANGE && queued[i].source.None?
    else SealedBusiness(c, queued[i])
  }

  /** With encryption, the key exchange is the first frame each end queues and its only
      internal one, and every later body is encrypted under the key both ends derive. */
  lemma KeyExchangeFirst(c: Config, schedule: seq<(Side, Action)>, s: Side)
    requires c.Valid() && c.encrypt
    ensures var queued := Run(c, Init(), schedule).Of(s).queued;
      forall i :: 0 <= i < |queued| ==> KeyFirst(c, queued, i)
  {
    Reached(c, schedule);
    var queued := Run(c, Init(), schedule).Of(s).queued;
    forall i | 0 <= i < |queued|
      ensures KeyFirst(c, queued, i)
    {
      if i == 0 {
        KeyIsInternal(c, s, queued[i]);
      } else {
        BusinessSealed(c, s, queued[i]);
      }
    }
  }

  /** The receive path finds the handshake incomplete only on a closed connection, and never
      meets a missing key, an unknown internal action or a close request. */
  lemma NeverTooEarly(c: Config, schedule: seq<(Side, Action)>, s: Side)
    requires c.Valid()
    ensures var e := Run(c, Init(), schedule).Of(s); e.reader.Failed? ==>
      && (e.reader.failure.HandshakeNotComplete? ==> e.phase.Closed?)
      && !e.reader.failure.InvalidKey? && !e.reader.failure.UnknownAct? && !e.reader.failure.CloseRequested?
  {
    Reached(c, schedule);
  }

  /** If no transform refuses its own output and the sender's limit fits the receiver's, no
      frame is ever refused on arrival. */
  lemma NothingRefused(c: Config, schedule: seq<(Side, Action)>, s: Side)
    requires c.Valid() && c.ExactCodec() && c.LimitsFit(s)
    ensures var r := Run(c, Init(), schedule).Of(s).reader;
      r.Failed? ==> !r.failure.FrameTooLarge? && !r.failure.CodecRefused?
  {
    Reached(c, schedule);
  }

  lemma {:induction false} ExpectedGrows(c: Config, items: seq<Item>, n: nat)
    requires n <= |items|
    ensures Expected(c, items[..n]) <= Expected(c, items)
    decreases |items|
  {
    if n < |items| {
      assert items[..|items| - 1][..n] == items[..n];
      ExpectedGrows(c, items[..|items| - 1], n);
    } else {
      assert items[..n] == items;
    }
  }

  /** What an application was given is the beginning of what the other one queued, and all
      of it once everything written was read and handled. */
  lemma DeliveredInOrder(c: Config, schedule: seq<(Side, Action)>, s: Side)
    requires c.Valid()
    ensures var x := Run(c, Init(), schedule); var e, peer := x.Of(s), x.Of(Other(s));
      && e.delivered <= Expected(c, peer.queued)
      && (e.reader.Reading? && e.read == |peer.queued| ==> e.delivered == Expected(c, peer.queued))
  {
    Reached(c, schedule);
    var x := Run(c, Init(), schedule);
    var e, peer := x.Of(s), x.Of(Other(s));
    ExpectedGrows(c, peer.queued, e.read);
    assert peer.queued[..|peer.queued|] == peer.queued;
  }

  /** The frames an application sent, in the order they were queued. */
  function Sources(items: seq<Item>): seq<Frame> {
    if items == [] then []
    else
      var last := items[|items| - 1];
      Sources(items[..|items| - 1]) + (if last.source.Some? then [last.source.value] else [])
  }

  lemma {:induction false} ExpectedIsSources(c: Config, items: seq<Item>)
    ensures |Expected(c, items)| == |Sources(items)|
    ensures forall k :: 0 <= k < |Sources(items)| ==> Expected(c, items)[k] == Arrives(c, Sources(items)[k])
    decreases |items|
  {
    if items != [] {
      ExpectedIsSources(c, items[..|items| - 1]);
    }
  }

  /** The k-th delivered frame is the k-th one the other application queued: command, action,
      error, index and body, and its flags too unless a codec overwrote them. */
  lemma DeliveredAsSent(c: Config, schedule: seq<(Side, Action)>, s: Side, k: nat)
    requires c.Valid() && k < |Run(c, Init(), schedule).Of(s).delivered|
    ensures var x := Run(c, Init(), schedule); var sent := Sources(x.Of(Other(s)).queued);
      && k < |sent|
      && var f, g := sent[k], x.Of(s).delivered[k];
         && g.cmd == f.cmd && g.act == f.act && g.error == f.error && g.index == f.index && g.body == f.body
         && (c.codec.None? ==> g.flags == f.flags)
  {
    var x := Run(c, Init(), schedule);
    DeliveredInOrder(c, schedule, s);
    ExpectedIsSources(c, x.Of(Other(s)).queued);
    assert x.Of(s).delivered[k] == Expected(c, x.Of(Other(s)).queued)[k];
  }

  // ---- The handshake can complete ----

  lemma {:induction false} Extend(c: Config, x: State, schedule: seq<(Side, Action)>, s: Side, a: Action)
    ensures Run(c, x, schedule + [(s, a)]) == Step(c, Run(c, x, schedule), s, a)
    decreases |schedule|
  {
    if schedule == [] {
      assert schedule + [(s, a)] == [(s, a)] && [(s, a)][1..] == [];
    } else {
      assert (schedule + [(s, a)])[1..] == schedule[1..] + [(s, a)];
      Extend(c, Step(c, x, schedule[0].0, schedule[0].1), schedule[1..], s, a);
    }
  }

  /** The key can be sent, fits the other end's limit, and gives a key. */
  ghost predicate CanShakeHands(c: Config, s: Side) {
    && c.encrypt && c.Valid() && c.ExactCodec() && c.LimitsFit(Other(s)) && c.KeyOf(s).Some? && c.Of(s).sendChan > 0
    && Pack(c, KeyFrame(c, s)).Some? && Encodable(c, s, Pack(c, KeyFrame(c, s)).value)
  }

  function KeySent(c: Config, s: Side): Item
    requires Pack(c, KeyFrame(c, s)).Some?
  {
    Item(Pack(c, KeyFrame(c, s)).value, None)
  }

  /** Both ends start, and the client sends its key. */
  lemma Opening(c: Config) returns (schedule: seq<(Side, Action)>)
    requires CanShakeHands(c, Client)
    ensures Run(c, Init(), schedule) == State(
              NewEnd().(phase := Handshaking, reader := Reading, queued := [KeySent(c, Client)],
                taken := 1, written := 1),
              NewEnd().(phase := Handshaking, reader := Reading))
  {
    schedule := [];
    schedule := Do(c, schedule, Client, Start);
    schedule := Do(c, schedule, Client, Proceed);
    schedule := Do(c, schedule, Client, SendKey(true));
    schedule := Do(c, schedule, Client, Take);
    schedule := Do(c, schedule, Client, Write);
    schedule := Do(c, schedule, Server, Start);
    schedule := Do(c, schedule, Server, Proceed);
  }

  lemma Do(c: Config, schedule: seq<(Side, Action)>, s: Side, a: Action) returns (longer: seq<(Side, Action)>)
    ensures Run(c, Init(), longer) == Step(c, Run(c, Init(), schedule), s, a)
  {
    Extend(c, Init(), schedule, s, a);
    longer := schedule + [(s, a)];
  }

  /** The server takes the client's key and queues its own. */
  lemma Exchanging(c: Config) returns (schedule: seq<(Side, Action)>)
    requires CanShakeHands(c, Client) && CanShakeHands(c, Server)
    ensures Run(c, Init(), schedule) == State(
              NewEnd().(phase := Handshaking, reader := Reading, queued := [KeySent(c, Client)],
                taken := 1, written := 1),
              NewEnd().(phase := Ready, reader := Agreeing(c.public(c.client.private)),
                queued := [KeySent(c, Server)], read := 1))
  {
    schedule := Opening(c);
    PackUndone(c, KeyFrame(c, Client));
    schedule := Do(c, schedule, Server, Receive);
    schedule := Do(c, schedule, Server, SendKey(true));
  }

  /** Then it derives the shared key and is ready. */
  lemma Answering(c: Config) returns (schedule: seq<(Side, Action)>)
    requires CanShakeHands(c, Client) && CanShakeHands(c, Server)
    ensures Run(c, Init(), schedule) == State(
              NewEnd().(phase := Handshaking, reader := Reading, queued := [KeySent(c, Client)],
                taken := 1, written := 1),
              NewEnd().(phase := Ready, reader := Reading, sharedKey := c.KeyOf(Server).value,
                queued := [KeySent(c, Server)], taken := 1, written := 1, read := 1))
  {
    schedule := Exchanging(c);
    schedule := Do(c, schedule, Server, Agree);
    schedule := Do(c, schedule, Server, Announce(true));
    schedule := Do(c, schedule, Server, Take);
    schedule := Do(c, schedule, Server, Write);
  }

  /** Some run leaves both ends ready and reading, with the same key. */
  lemma HandshakeCanComplete(c: Config) returns (schedule: seq<(Side, Action)>)
    requires CanShakeHands(c, Client) && CanShakeHands(c, Server)
    ensures var x := Run(c, Init(), schedule);
      && x.client.phase.Ready? && x.client.reader.Reading? && x.server.phase.Ready? && x.server.reader.Reading?
      && x.client.sharedKey == x.server.sharedKey == c.KeyOf(Client).value
  {
    schedule := Answering(c);
    PackUndone(c, KeyFrame(c, Server));
    schedule := Do(c, schedule, Client, Receive);
    schedule := Do(c, schedule, Client, Agree);
    schedule := Do(c, schedule, Client, Announce(true));
  }
}
