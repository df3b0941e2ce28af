/** The codec pipeline: body transforms applied in order, undone in reverse order, with one
    flag bit each saying which were applied. */
module Pipeline {
  import opened Wrappers
  import opened Bytes
  import Bits

  /** A byte of flags as the set of its bits: union is "or", intersection is "and". */
  type Flags = s: set<nat> | forall k :: k in s ==> k < 8

  /** The byte holding the flags from bit k upwards. */
  function ByteFrom(bits: Flags, k: nat): nat
    requires k <= 8
    decreases 8 - k
  {
    if k == 8 then 0 else (if k in bits then 1 else 0) + 2 * ByteFrom(bits, k + 1)
  }

  lemma {:induction false} ByteBound(bits: Flags, k: nat)
    requires k <= 8
    ensures ByteFrom(bits, k) < Bits.Pow2(8 - k)
    decreases 8 - k
  {
    if k < 8 {
      ByteBound(bits, k + 1);
    }
  }

  function ByteOf(bits: Flags): byte {
    ByteBound(bits, 0);
    assert Bits.Pow2(4) == 16 && Bits.Pow2(8) == 0x100;
    ByteFrom(bits, 0)
  }

  function BitsOf(b: byte): Flags { set k: nat | k < 8 && Bits.Bit(b, k) }

  lemma {:induction false} BitOfByte(bits: Flags, from: nat, k: nat)
    requires from + k < 8
    ensures Bits.Bit(ByteFrom(bits, from), k) <==> from + k in bits
    decreases k
  {
    var bit, rest := if from in bits then 1 else 0, ByteFrom(bits, from + 1);
    Bits.Split(bit, rest);
    if k > 0 {
      BitOfByte(bits, from + 1, k - 1);
    }
  }

  lemma BitsRoundTrip(bits: Flags)
    ensures BitsOf(ByteOf(bits)) == bits
  {
    forall k: nat | k < 8
      ensures k in BitsOf(ByteOf(bits)) <==> k in bits
    {
      BitOfByte(bits, 0, k);
    }
  }

  /** Bit k of the flags byte stands for flag k. */
  lemma FlagBits(bits: Flags, k: nat)
    requires k < 8
    ensures Bits.Bit(ByteOf(bits), k) <==> k in bits
  {
    BitOfByte(bits, 0, k);
  }

  datatype Error = InvalidFlag | DuplicateFlag | UnknownFlags | DecodedTooLarge | Failed(code: int)

  /** A transform as its two functions; encoding also says whether it did anything. */
  datatype Transform = Transform(
    flag: Flags,
    encode: seq<byte> -> Result<(seq<byte>, bool), Error>,
    decode: seq<byte> -> Result<seq<byte>, Error>)

  // ---- Building ----

  /** All flags are single bits, and no two are the same. */
  predicate Valid(ts: seq<Transform>) {
    && (forall i :: 0 <= i < |ts| ==> |ts[i].flag| == 1)
    && (forall i, j :: 0 <= i < j < |ts| ==> ts[i].flag != ts[j].flag)
  }

  function Known(ts: seq<Transform>): Flags {
    if ts == [] then {} else Known(ts[..|ts| - 1]) + ts[|ts| - 1].flag
  }

  function Present(ts: seq<Option<Transform>>): seq<Transform>
    requires forall i :: 0 <= i < |ts| ==> ts[i].Some?
  {
    seq(|ts|, i requires 0 <= i < |ts| => ts[i].value)
  }

  lemma SingleBits(a: Flags, b: Flags)
    requires |a| == 1 && |b| == 1
    ensures a * b == {} <==> a != b
  {
    var x, y :| x in a && y in b;
    assert |a - {x}| == 0 && |b - {y}| == 0;
    assert a == {x} && b == {y};
  }

  /** A flag is apart from the known ones exactly when none of them equals it. */
  lemma {:induction false} KnownApart(ts: seq<Transform>, f: Flags)
    requires |f| == 1 && forall i :: 0 <= i < |ts| ==> |ts[i].flag| == 1
    ensures f * Known(ts) == {} <==> forall i :: 0 <= i < |ts| ==> ts[i].flag != f
    decreases |ts|
  {
    if ts != [] {
      var init, last := ts[..|ts| - 1], ts[|ts| - 1];
      KnownApart(init, f);
      SingleBits(f, last.flag);
      assert forall i :: 0 <= i < |init| ==> ts[i] == init[i];
    }
  }

  predicate Fine(ts: seq<Option<Transform>>) {
    (forall i :: 0 <= i < |ts| ==> ts[i].Some?) && Valid(Present(ts))
  }

  /** No two of the transforms that are present have the same flag. */
  predicate Distinct(ts: seq<Option<Transform>>) {
    forall i, j :: 0 <= i < j < |ts| && ts[i].Some? && ts[j].Some? ==> ts[i].value.flag != ts[j].value.flag
  }

  /** What is wrong with the next transform, given the ones before it. */
  function Problem(before: seq<Transform>, t: Option<Transform>): Option<Error> {
    if t.None? || |t.value.flag| != 1 then Some(InvalidFlag)
    else if exists i :: 0 <= i < |before| && before[i].flag == t.value.flag then Some(DuplicateFlag)
    else None
  }

  lemma StaysWrong(ts: seq<Option<Transform>>, i: nat)
    requires i < |ts| && Fine(ts[..i]) && Problem(Present(ts[..i]), ts[i]).Some?
    ensures !Fine(ts)
  {
    if forall k :: 0 <= k < |ts| ==> ts[k].Some? {
      var all, before := Present(ts), Present(ts[..i]);
      assert forall k :: 0 <= k < i ==> all[k] == before[k];
      assert all[i] == ts[i].value;
    }
  }

  lemma NextFine(ts: seq<Option<Transform>>, i: nat)
    requires i < |ts| && Fine(ts[..i]) && Problem(Present(ts[..i]), ts[i]).None?
    ensures Fine(ts[..i + 1]) && Known(Present(ts[..i + 1])) == Known(Present(ts[..i])) + ts[i].value.flag
  {
    var before, after := Present(ts[..i]), Present(ts[..i + 1]);
    assert after == before + [ts[i].value] && after[..i] == before;
  }

  /** Builds the pipeline's known flags, or reports the first transform with a problem. */
  method New(ts: seq<Option<Transform>>) returns (r: Result<Flags, Error>)
    ensures r.Ok? <==> Fine(ts)
    ensures r.Ok? ==> r.value == Known(Present(ts))
    ensures r.Err? ==> exists i :: 0 <= i < |ts| && Fine(ts[..i]) && Problem(Present(ts[..i]), ts[i]) == Some(r.error)
    ensures r == Err(InvalidFlag) ==> exists i :: 0 <= i < |ts| && (ts[i].None? || |ts[i].value.flag| != 1)
    ensures r.Err? && r.error != InvalidFlag ==> r == Err(DuplicateFlag) && !Distinct(ts)
  {
    var known: Flags := {};
    for i := 0 to |ts|
      invariant Fine(ts[..i]) && known == Known(Present(ts[..i]))
    {
      if ts[i].None? || |ts[i].value.flag| != 1 {
        StaysWrong(ts, i);
        return Err(InvalidFlag);
      }
      KnownApart(Present(ts[..i]), ts[i].value.flag);
      if ts[i].value.flag * known != {} {
        StaysWrong(ts, i);
        return Err(DuplicateFlag);
      }
      NextFine(ts, i);
      known := known + ts[i].value.flag;
    }
    assert ts[..|ts|] == ts;
    return Ok(known);
  }

  // ---- Encoding and decoding ----

  function Encode(ts: seq<Transform>, data: seq<byte>): Result<(seq<byte>, Flags), Error> {
    if ts == [] then Ok((data, {}))
    else
      var last := ts[|ts| - 1];
      match Encode(ts[..|ts| - 1], data)
      case Err(e) => Err(e)
      case Ok((d, flags)) =>
        match last.encode(d)
        case Err(e) => Err(e)
        case Ok((d', applied)) => Ok((d', if applied then flags + last.flag else flags))
  }

  function Undo(ts: seq<Transform>, data: seq<byte>, flags: Flags): Result<seq<byte>, Error> {
    if ts == [] then Ok(data)
    else
      var last := ts[|ts| - 1];
      if flags * last.flag == {} then Undo(ts[..|ts| - 1], data, flags)
      else
        match last.decode(data)
        case Err(e) => Err(e)
        case Ok(d) => Undo(ts[..|ts| - 1], d, flags)
  }

  function Decode(ts: seq<Transform>, data: seq<byte>, flags: Flags): Result<seq<byte>, Error> {
    if flags - Known(ts) != {} then Err(UnknownFlags) else Undo(ts, data, flags)
  }

  lemma {:induction false} FirstFailure(ts: seq<Transform>, k: nat, data: seq<byte>)
    requires k <= |ts| && Encode(ts[..k], data).Err?
    ensures Encode(ts, data) == Encode(ts[..k], data)
    decreases |ts|
  {
    if k < |ts| {
      assert ts[..|ts| - 1][..k] == ts[..k];
      FirstFailure(ts[..|ts| - 1], k, data);
    } else {
      assert ts[..k] == ts;
    }
  }

  method EncodeLoop(ts: seq<Transform>, data: seq<byte>) returns (r: Result<(seq<byte>, Flags), Error>)
    ensures r == Encode(ts, data)
  {
    var encoded, flags: Flags := data, {};
    for i := 0 to |ts|
      invariant Encode(ts[..i], data) == Ok((encoded, flags))
    {
      assert ts[..i + 1][..i] == ts[..i];
      var step := ts[i].encode(encoded);
      if step.Err? {
        FirstFailure(ts, i + 1, data);
        return Err(step.error);
      }
      encoded := step.value.0;
      if step.value.1 {
        flags := flags + ts[i].flag;
      }
    }
    assert ts[..|ts|] == ts;
    return Ok((encoded, flags));
  }

  method DecodeLoop(ts: seq<Transform>, known: Flags, data: seq<byte>, flags: Flags)
      returns (r: Result<seq<byte>, Error>)
    requires known == Known(ts)
    ensures r == Decode(ts, data, flags)
  {
    if flags - known != {} {
      return Err(UnknownFlags);
    }
    var decoded, i := data, |ts|;
    assert ts[..|ts|] == ts;
    while i > 0
      invariant 0 <= i <= |ts|
      invariant Undo(ts[..i], decoded, flags) == Undo(ts, data, flags)
    {
      i := i - 1;
      assert ts[..i + 1][..i] == ts[..i];
      if flags * ts[i].flag == {} {
        continue;
      }
      var step := ts[i].decode(decoded);
      if step.Err? {
        return Err(step.error);
      }
      decoded := step.value;
    }
    return Ok(decoded);
  }

  // ---- What the loops compute, stage by stage ----

  /** The data before each transform and after the last one. */
  predicate Stages(ts: seq<Transform>, data: seq<byte>, ds: seq<seq<byte>>) {
    && |ds| == |ts| + 1 && ds[0] == data
    && forall i :: 0 <= i < |ts| ==> ts[i].encode(ds[i]).Ok? && ts[i].encode(ds[i]).value.0 == ds[i + 1]
  }

  predicate Applied(ts: seq<Transform>, ds: seq<seq<byte>>, i: nat)
    requires i < |ts| && i < |ds|
  {
    ts[i].encode(ds[i]).Ok? && ts[i].encode(ds[i]).value.1
  }

  /** An encoding that succeeds went through every transform in order, and its flags are
      those of the transforms that did something. */
  lemma {:induction false} EncodeStages(ts: seq<Transform>, data: seq<byte>) returns (ds: seq<seq<byte>>)
    requires Encode(ts, data).Ok?
    ensures Stages(ts, data, ds) && Encode(ts, data).value.0 == ds[|ts|]
    ensures forall k :: k in Encode(ts, data).value.1 <==>
              exists i :: 0 <= i < |ts| && Applied(ts, ds, i) && k in ts[i].flag
    decreases |ts|
  {
    if ts == [] {
      ds := [data];
    } else {
      var init, n := ts[..|ts| - 1], |ts| - 1;
      var before := EncodeStages(init, data);
      ds := before + [Encode(ts, data).value.0];
      assert forall i :: 0 <= i < n ==> init[i] == ts[i] && ds[i] == before[i];
      assert forall i :: 0 <= i < n ==> (Applied(ts, ds, i) <==> Applied(init, before, i));
      assert ds[n] == before[n];
    }
  }

  /** One that fails does so with the error of the first transform that refuses. */
  lemma {:induction false} EncodeFails(ts: seq<Transform>, data: seq<byte>) returns (k: nat)
    requires Encode(ts, data).Err?
    ensures k < |ts| && Encode(ts[..k], data).Ok?
    ensures ts[k].encode(Encode(ts[..k], data).value.0) == Err(Encode(ts, data).error)
    decreases |ts|
  {
    var init := ts[..|ts| - 1];
    if Encode(init, data).Ok? {
      k := |ts| - 1;
    } else {
      k := EncodeFails(init, data);
      assert init[..k] == ts[..k];
    }
  }

  /** Flags that no transform has are refused, and no others are. */
  lemma UnknownRefused(ts: seq<Transform>, data: seq<byte>, flags: Flags)
    ensures (exists k :: k in flags && forall i :: 0 <= i < |ts| ==> k !in ts[i].flag) ==>
              Decode(ts, data, flags) == Err(UnknownFlags)
    ensures (forall k :: k in flags ==> exists i :: 0 <= i < |ts| && k in ts[i].flag) ==>
              Decode(ts, data, flags) == Undo(ts, data, flags)
  {
    KnownFlags(ts);
    assert forall k :: k in flags - Known(ts) <==> k in flags && forall i :: 0 <= i < |ts| ==> k !in ts[i].flag;
    if exists k :: k in flags && forall i :: 0 <= i < |ts| ==> k !in ts[i].flag {
      var k :| k in flags && forall i :: 0 <= i < |ts| ==> k !in ts[i].flag;
      assert k in flags - Known(ts);
    }
  }

  lemma {:induction false} KnownFlags(ts: seq<Transform>)
    ensures forall k :: k in Known(ts) <==> exists i :: 0 <= i < |ts| && k in ts[i].flag
    decreases |ts|
  {
    if ts != [] {
      KnownFlags(ts[..|ts| - 1]);
      assert forall i :: 0 <= i < |ts| - 1 ==> ts[..|ts| - 1][i] == ts[i];
    }
  }

  /** A transform with its flag set that refuses the data makes the decoding fail with its
      error; one without its flag is not asked. */
  lemma UndoLastOnly(init: seq<Transform>, last: Transform, data: seq<byte>, flags: Flags)
    ensures flags * last.flag != {} && last.decode(data).Err? ==>
              Undo(init + [last], data, flags) == Err(last.decode(data).error)
    ensures flags * last.flag == {} ==> Undo(init + [last], data, flags) == Undo(init, data, flags)
  {
    assert (init + [last])[..|init|] == init;
  }

  // ---- The round trip ----

  /** Undoing an applied encoding gives the data back or fails; an encoding that was not
      applied left the data alone. */
  ghost predicate Faithful(t: Transform) {
    forall d :: t.encode(d).Ok? ==>
      var (out, applied) := t.encode(d).value;
      if applied then t.decode(out).Ok? ==> t.decode(out).value == d else out == d
  }

  /** Undoing an applied encoding never fails. */
  ghost predicate Exact(t: Transform) {
    && Faithful(t)
    && forall d :: t.encode(d).Ok? && t.encode(d).value.1 ==> t.decode(t.encode(d).value.0).Ok?
  }

  lemma {:induction false} UndoIgnores(ts: seq<Transform>, data: seq<byte>, flags: Flags, extra: Flags)
    requires extra !! Known(ts)
    ensures Undo(ts, data, flags + extra) == Undo(ts, data, flags)
    decreases |ts|
  {
    if ts != [] {
      var init, last := ts[..|ts| - 1], ts[|ts| - 1];
      assert (flags + extra) * last.flag == flags * last.flag;
      if flags * last.flag == {} {
        UndoIgnores(init, data, flags, extra);
      } else if last.decode(data).Ok? {
        UndoIgnores(init, last.decode(data).value, flags, extra);
      }
    }
  }

  lemma {:induction false} FlagsKnown(ts: seq<Transform>, data: seq<byte>)
    requires Encode(ts, data).Ok?
    ensures Encode(ts, data).value.1 <= Known(ts)
    decreases |ts|
  {
    if ts != [] {
      FlagsKnown(ts[..|ts| - 1], data);
    }
  }

  lemma {:induction false} UndoOfEncode(ts: seq<Transform>, data: seq<byte>)
    requires Valid(ts) && (forall i :: 0 <= i < |ts| ==> Faithful(ts[i])) && Encode(ts, data).Ok?
    ensures var (out, flags) := Encode(ts, data).value; var r := Undo(ts, out, flags);
      (r.Ok? ==> r.value == data) && ((forall i :: 0 <= i < |ts| ==> Exact(ts[i])) ==> r.Ok?)
    decreases |ts|
  {
    if ts != [] {
      var init, last := ts[..|ts| - 1], ts[|ts| - 1];
      assert forall i :: 0 <= i < |init| ==> init[i] == ts[i];
      UndoOfEncode(init, data);
      assert last.flag * Known(init) == {} by {
        KnownApart(init, last.flag);
      }
      FlagsKnown(init, data);
      UndoLast(init, last, data);
    }
  }

  /** One more transform: undoing it first leaves the encoding before it. */
  lemma UndoLast(init: seq<Transform>, last: Transform, data: seq<byte>)
    requires Encode(init, data).Ok? && Encode(init, data).value.1 <= Known(init)
    requires last.flag * Known(init) == {} && |last.flag| == 1 && Faithful(last)
    requires last.encode(Encode(init, data).value.0).Ok?
    ensures var (d, flags) := Encode(init, data).value;
      var (out, applied) := last.encode(d).value;
      var all := if applied then flags + last.flag else flags;
      var r := if all * last.flag == {} then Undo(init, out, all)
        else match last.decode(out) case Err(e) => Err(e) case Ok(x) => Undo(init, x, all);
      r == (if applied && last.decode(out).Err? then Err(last.decode(out).error) else Undo(init, d, flags))
  {
    var (d, flags) := Encode(init, data).value;
    Apart(last.flag, Known(init), flags);
    UndoIgnores(init, d, flags, last.flag);
    var (out, applied) := last.encode(d).value;
    assert applied && last.decode(out).Ok? ==> last.decode(out).value == d;
    assert !applied ==> out == d;
  }

  lemma Apart(flag: Flags, known: Flags, flags: Flags)
    requires flag * known == {} && flags <= known && |flag| == 1
    ensures flags * flag == {} && (flags + flag) * flag != {} && flag !! known
  {
    var x :| x in flag;
    assert x in (flags + flag) * flag;
    forall y | y in flag
      ensures y !in known
    {
      assert y in known ==> y in flag * known;
    }
  }

  /** A pipeline of faithful transforms gives back what was encoded, or a transform's own
      error; never unknown flags. If no transform refuses its own output, it does give it back. */
  lemma DecodeOfEncode(ts: seq<Transform>, data: seq<byte>)
    requires Valid(ts) && (forall i :: 0 <= i < |ts| ==> Faithful(ts[i])) && Encode(ts, data).Ok?
    ensures var (out, flags) := Encode(ts, data).value; var r := Decode(ts, out, flags);
      && flags <= Known(ts)
      && (r.Ok? ==> r.value == data)
      && ((forall i :: 0 <= i < |ts| ==> Exact(ts[i])) ==> r == Ok(data))
  {
    FlagsKnown(ts, data);
    UndoOfEncode(ts, data);
  }

  // ---- Why flags must differ ----

  function Push(b: byte, flag: Flags): Transform {
    Transform(flag,
      (d: seq<byte>) => Ok((d + [b], true)),
      (d: seq<byte>) => if d != [] && d[|d| - 1] == b then Ok(d[..|d| - 1]) else Err(Failed(0)))
  }

  function Skip(flag: Flags): Transform {
    Transform(flag, (d: seq<byte>) => Ok((d, false)), (d: seq<byte>) => Err(Failed(1)))
  }

  lemma KnownPair(ts: seq<Transform>)
    requires |ts| == 2
    ensures Known(ts) == ts[0].flag + ts[1].flag
  {
    var first := ts[..1];
    assert first[..0] == [] && Known(first[..0]) == {};
    assert Known(first) == ts[0].flag;
  }

  /** Two exact transforms sharing a flag: the second did nothing, but decoding runs it. */
  lemma SharedFlagBreaks(flag: Flags, data: seq<byte>)
    requires |flag| == 1
    ensures var ts := [Push(0, flag), Skip(flag)];
      && Exact(ts[0]) && Exact(ts[1]) && Encode(ts, data).Ok?
      && var (out, flags) := Encode(ts, data).value; Decode(ts, out, flags).Err?
  {
    var ts := [Push(0, flag), Skip(flag)];
    assert ts[..1] == [Push(0, flag)] && ts[..1][..0] == [];
    assert Encode(ts[..1], data) == Ok((data + [0], flag));
    assert Encode(ts, data) == Ok((data + [0], flag));
    KnownPair(ts);
    assert flag * flag == flag;
  }

  // ---- Compression ----

  /** The compressor with its own codec as parameters. A limit of zero is no limit. */
  function Gzip(pack: seq<byte> -> seq<byte>, unpack: seq<byte> -> Result<seq<byte>, Error>,
        minSize: nat, maxDecoded: nat): Transform {
    Transform({0},
      (d: seq<byte>) => if |d| < minSize then Ok((d, false)) else Ok((pack(d), true)),
      (d: seq<byte>) =>
        match unpack(d)
        case Err(e) => Err(e)
        case Ok(out) => if maxDecoded > 0 && |out| > maxDecoded then Err(DecodedTooLarge) else Ok(out))
  }

  /** If unpacking undoes packing, the compressor is faithful, and it refuses its own output
      exactly when the size limit is positive and the data longer than both sizes allow. */
  lemma GzipFaithful(pack: seq<byte> -> seq<byte>, unpack: seq<byte> -> Result<seq<byte>, Error>,
      minSize: nat, maxDecoded: nat)
    requires forall d :: unpack(pack(d)) == Ok(d)
    ensures var t := Gzip(pack, unpack, minSize, maxDecoded);
      && Faithful(t)
      && (forall d :: t.encode(d) == Ok(if |d| < minSize then (d, false) else (pack(d), true)))
      && forall d :: t.encode(d).Ok? && (t.encode(d).value.1 ==>
           t.decode(t.encode(d).value.0) == if 0 < maxDecoded < |d| then Err(DecodedTooLarge) else Ok(d))
  {
  }

  /** So the compressor can refuse its own output whenever it has a size limit, however large. */
  lemma GzipExact(pack: seq<byte> -> seq<byte>, unpack: seq<byte> -> Result<seq<byte>, Error>,
      minSize: nat, maxDecoded: nat)
    requires forall d :: unpack(pack(d)) == Ok(d)
    ensures Exact(Gzip(pack, unpack, minSize, maxDecoded)) <==> maxDecoded == 0
  {
    var t := Gzip(pack, unpack, minSize, maxDecoded);
    GzipFaithful(pack, unpack, minSize, maxDecoded);
    if maxDecoded > 0 {
      var d: seq<byte> := seq(maxDecoded + minSize + 1, _ => 0);
      assert t.encode(d).value.1 && t.decode(t.encode(d).value.0) == Err(DecodedTooLarge);
    }
  }
}
