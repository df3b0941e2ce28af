/** The unified frame: a 17-byte header, then the body. The body checksum is a parameter. */
module FrameCodec {
  import opened Wrappers
  import opened Bytes

  const HEADER: nat := 17
  const MAX_INT32: nat := 0x7FFF_FFFF

  const INTERNAL_CMD: byte := 0
  const KEY_EXCHANGE: byte := 1
  const ACT_CLOSE: byte := 2

  type Checksum = seq<byte> -> uint32

  datatype Frame = Frame(cmd: byte, act: byte, flags: byte, error: uint16, index: uint32, body: seq<byte>)

  datatype Error = TooLarge | ReservedCommand | UnknownInternalAct | BadChecksum

  /** What a decode makes of the bytes so far. */
  datatype Decoded = NeedMore | Whole(frame: Frame, consumed: nat) | Bad(consumed: nat, error: Error)

  function FrameSize(bodyLen: nat): nat { HEADER + bodyLen }

  function Validate(cmd: byte, act: byte): Option<Error> {
    if cmd == INTERNAL_CMD then (if act == KEY_EXCHANGE || act == ACT_CLOSE then None else Some(UnknownInternalAct))
    else None
  }

  // ---- Big-endian numbers ----

  function U16(x: uint16): (b: seq<byte>)
    ensures |b| == 2
  {
    [x / 0x100, x % 0x100]
  }

  function U32(x: uint32): (b: seq<byte>)
    ensures |b| == 4
  {
    U16(x / 0x1_0000) + U16(x % 0x1_0000)
  }

  function FromU16(b: seq<byte>): uint16
    requires |b| == 2
  {
    b[0] as int * 0x100 + b[1]
  }

  function FromU32(b: seq<byte>): uint32
    requires |b| == 4
  {
    FromU16(b[..2]) as int * 0x1_0000 + FromU16(b[2..])
  }

  lemma U16RoundTrip(x: uint16, b: seq<byte>)
    requires |b| == 2
    ensures FromU16(U16(x)) == x && U16(FromU16(b)) == b
  {
  }

  lemma U32RoundTrip(x: uint32, b: seq<byte>)
    requires |b| == 4
    ensures FromU32(U32(x)) == x && U32(FromU32(b)) == b
  {
    assert U32(x)[..2] == U16(x / 0x1_0000) && U32(x)[2..] == U16(x % 0x1_0000);
    U16RoundTrip(x / 0x1_0000, b[..2]);
    U16RoundTrip(x % 0x1_0000, b[2..]);
    assert b[..2] + b[2..] == b;
  }

  /** The most significant byte comes first. */
  lemma BigEndian(x: uint16, y: uint32)
    ensures U16(x)[0] == x / 0x100 && U16(x)[1] == x % 0x100
    ensures var b := U32(y); b[0] as int * 0x100_0000 + b[1] as int * 0x1_0000 + b[2] as int * 0x100 + b[3] as int == y
  {
  }

  // ---- Encoding and decoding ----

  function Wire(f: Frame, crc: Checksum): (b: seq<byte>)
    requires FrameSize(|f.body|) <= MAX_INT32
    ensures |b| == FrameSize(|f.body|)
  {
    U32(|f.body|) + [f.cmd, f.act, f.flags] + U16(f.error) + U32(f.index) + U32(crc(f.body)) + f.body
  }

  /** `limit` bounds the whole frame; zero or less means no limit. */
  function Encode(f: Frame, crc: Checksum, limit: int): Result<seq<byte>, Error> {
    var problem := Validate(f.cmd, f.act);
    if problem.Some? then Err(problem.value)
    else if FrameSize(|f.body|) > MAX_INT32 then Err(TooLarge)
    else if limit > 0 && FrameSize(|f.body|) > limit then Err(TooLarge)
    else Ok(Wire(f, crc))
  }

  function Decode(data: seq<byte>, crc: Checksum, limit: int): Decoded {
    if |data| < HEADER then NeedMore
    else
      var length := FromU32(data[..4]);
      if length > MAX_INT32 - HEADER then Bad(HEADER, TooLarge)
      else
        var size := FrameSize(length);
        if limit > 0 && size > limit then Bad(HEADER, TooLarge)
        else if size > |data| then NeedMore
        else
          var f := Frame(data[4], data[5], data[6], FromU16(data[7..9]), FromU32(data[9..13]), data[HEADER..size]);
          if crc(f.body) != FromU32(data[13..17]) then Bad(size, BadChecksum)
          else if Validate(f.cmd, f.act).Some? then Bad(size, Validate(f.cmd, f.act).value)
          else Whole(f, size)
  }

  method PutU16(out: array<byte>, at: nat, x: uint16)
    requires at + 2 <= out.Length
    modifies out
    ensures out[..at + 2] == old(out[..at]) + U16(x)
  {
    out[at], out[at + 1] := x / 0x100, x % 0x100;
  }

  method PutU32(out: array<byte>, at: nat, x: uint32)
    requires at + 4 <= out.Length
    modifies out
    ensures out[..at + 4] == old(out[..at]) + U32(x)
  {
    PutU16(out, at, x / 0x1_0000);
    PutU16(out, at + 2, x % 0x1_0000);
  }

  method PutBytes(out: array<byte>, at: nat, body: seq<byte>)
    requires at + |body| <= out.Length
    modifies out
    ensures out[..at + |body|] == old(out[..at]) + body
  {
    for i := 0 to |body|
      invariant out[..at + i] == old(out[..at]) + body[..i]
    {
      out[at + i] := body[i];
    }
  }

  method EncodeMessageFrame(f: Frame, crc: Checksum, limit: int) returns (r: Result<seq<byte>, Error>)
    ensures r == Encode(f, crc, limit)
  {
    if f.cmd == INTERNAL_CMD {
      if f.act != KEY_EXCHANGE && f.act != ACT_CLOSE {
        return Err(UnknownInternalAct);
      }
    }
    var size := FrameSize(|f.body|);
    if size > MAX_INT32 {
      return Err(TooLarge);
    }
    if limit > 0 && size > limit {
      return Err(TooLarge);
    }
    var out := new byte[size](_ => 0);
    PutU32(out, 0, |f.body|);
    assert out[..4] == U32(|f.body|);
    PutBytes(out, 4, [f.cmd, f.act, f.flags]);
    PutU16(out, 7, f.error);
    PutU32(out, 9, f.index);
    PutU32(out, 13, crc(f.body));
    assert out[..HEADER] == U32(|f.body|) + [f.cmd, f.act, f.flags] + U16(f.error) + U32(f.index) + U32(crc(f.body));
    PutBytes(out, HEADER, f.body);
    assert out[..] == out[..HEADER + |f.body|] == Wire(f, crc);
    return Ok(out[..]);
  }

  // ---- Properties ----

  /** The fields of an encoding, at their places, whatever follows it. */
  lemma Layout(f: Frame, crc: Checksum, suffix: seq<byte>)
    requires FrameSize(|f.body|) <= MAX_INT32
    ensures var d := Wire(f, crc) + suffix;
      && |d| >= FrameSize(|f.body|)
      && d[..4] == U32(|f.body|)
      && d[4] == f.cmd && d[5] == f.act && d[6] == f.flags
      && d[7..9] == U16(f.error) && d[9..13] == U32(f.index) && d[13..17] == U32(crc(f.body))
      && d[HEADER..FrameSize(|f.body|)] == f.body
  {
  }

  /** Refused exactly for an unknown internal act, a size of more than 31 bits, or one over
      the limit. */
  lemma EncodeRefuses(f: Frame, crc: Checksum, limit: int)
    ensures var size, e := HEADER + |f.body|, Encode(f, crc, limit);
      var unknown := f.cmd == 0 && f.act != 1 && f.act != 2;
      && (e == Err(UnknownInternalAct) <==> unknown)
      && (e == Err(TooLarge) <==> !unknown && (size > 0x7FFF_FFFF || (limit > 0 && size > limit)))
      && (e.Ok? <==> !unknown && size <= 0x7FFF_FFFF && (limit <= 0 || size <= limit))
  {
  }

  /** What decoding makes of any header: the announced length decides first, then whether
      the body is there, its checksum, and the internal act. */
  lemma DecodeDecides(length: uint32, cmd: byte, act: byte, flags: byte, error: uint16, index: uint32, sum: uint32,
      rest: seq<byte>, crc: Checksum, limit: int)
    ensures var data := U32(length) + [cmd, act, flags] + U16(error) + U32(index) + U32(sum) + rest;
      var size := HEADER + length;
      Decode(data, crc, limit) ==
        if size > 0x7FFF_FFFF || (limit > 0 && size > limit) then Bad(HEADER, TooLarge)
        else if |rest| < length then NeedMore
        else if crc(rest[..length]) != sum then Bad(size, BadChecksum)
        else if cmd == 0 && act != 1 && act != 2 then Bad(size, UnknownInternalAct)
        else Whole(Frame(cmd, act, flags, error, index, rest[..length]), size)
  {
    var data := U32(length) + [cmd, act, flags] + U16(error) + U32(index) + U32(sum) + rest;
    assert data[..4] == U32(length) && data[7..9] == U16(error);
    assert data[9..13] == U32(index) && data[13..17] == U32(sum);
    U32RoundTrip(length, U32(0));
    U32RoundTrip(index, U32(0));
    U32RoundTrip(sum, U32(0));
    U16RoundTrip(error, U16(0));
    if length <= |rest| {
      assert data[HEADER..HEADER + length] == rest[..length];
    }
  }

  lemma ShortNeedsMore(data: seq<byte>, crc: Checksum, limit: int)
    requires |data| < HEADER
    ensures Decode(data, crc, limit).NeedMore?
  {
  }

  /** Decoding an encoding, followed by anything, gives the frame and its exact length if
      the receiver's limit admits it, and refuses it as too large if not. */
  lemma DecodeOfEncode(f: Frame, crc: Checksum, limit: int, suffix: seq<byte>, receiverLimit: int)
    requires Encode(f, crc, limit).Ok?
    ensures var e := Encode(f, crc, limit).value;
      Decode(e + suffix, crc, receiverLimit) ==
        if receiverLimit > 0 && |e| > receiverLimit then Bad(HEADER, TooLarge) else Whole(f, |e|)
  {
    Layout(f, crc, suffix);
    U32RoundTrip(|f.body|, U32(0));
    U32RoundTrip(f.index, U32(0));
    U32RoundTrip(crc(f.body), U32(0));
    U16RoundTrip(f.error, U16(f.error));
  }

  /** What decodes re-encodes to the very bytes consumed. */
  lemma EncodeOfDecode(data: seq<byte>, crc: Checksum, limit: int)
    requires Decode(data, crc, limit).Whole?
    ensures var d := Decode(data, crc, limit);
      HEADER <= d.consumed <= |data| && Encode(d.frame, crc, limit) == Ok(data[..d.consumed])
  {
    var d := Decode(data, crc, limit);
    U32RoundTrip(0, data[..4]);
    U32RoundTrip(0, data[9..13]);
    U32RoundTrip(0, data[13..17]);
    U16RoundTrip(0, data[7..9]);
    assert data[..d.consumed] == data[..4] + [data[4], data[5], data[6]] + data[7..9] + data[9..13]
          + data[13..17] + data[HEADER..d.consumed];
  }

  /** Only "need more" can change when more bytes arrive. */
  lemma DecodeIsStable(data: seq<byte>, more: seq<byte>, crc: Checksum, limit: int)
    requires !Decode(data, crc, limit).NeedMore?
    ensures Decode(data + more, crc, limit) == Decode(data, crc, limit)
  {
    var d := data + more;
    assert d[..4] == data[..4] && d[7..9] == data[7..9] && d[9..13] == data[9..13] && d[13..17] == data[13..17];
    var length := FromU32(data[..4]);
    if FrameSize(length) <= |data| {
      assert d[HEADER..FrameSize(length)] == data[HEADER..FrameSize(length)];
    }
  }

  /** A partial frame is shorter than the limit, and than a header if the limit is smaller. */
  lemma PartialIsShort(data: seq<byte>, crc: Checksum, limit: int)
    requires limit > 0 && Decode(data, crc, limit).NeedMore?
    ensures |data| < Max(HEADER, limit)
  {
  }

  /** No encoding is the beginning of another one. */
  lemma EncodingsPrefixFree(f: Frame, g: Frame, crc: Checksum)
    requires Encode(f, crc, 0).Ok? && Encode(g, crc, 0).Ok?
    requires Encode(f, crc, 0).value <= Encode(g, crc, 0).value
    ensures f == g
  {
    var a, b := Encode(f, crc, 0).value, Encode(g, crc, 0).value;
    DecodeOfEncode(f, crc, 0, b[|a|..], 0);
    DecodeOfEncode(g, crc, 0, [], 0);
    assert a + b[|a|..] == b == b + [];
  }
}
