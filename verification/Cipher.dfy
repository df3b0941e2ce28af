/** The byte cipher of a connection. Key agreement is a parameter of the modules that use it. */
module Cipher {
  import opened Wrappers
  import opened Bytes
  import opened Bits

  const KEY_SIZE: nat := 32

  datatype Error = InvalidKey

  type Key = k: seq<byte> | |k| == KEY_SIZE witness seq(KEY_SIZE, _ => 0)

  function XorByte(a: byte, b: byte): (x: byte)
    ensures Xor(x, b, 8) == a
  {
    assert Pow2(2) == 4 && Pow2(4) == 16 && Pow2(6) == 64 && Pow2(8) == 0x100;
    XorTwice(a, b, 8);
    Xor(a, b, 8)
  }

  /** Addition and subtraction of bytes, wrapping around. */
  function Add(p: byte, a: byte): byte { (p + a) % 0x100 }

  function Subtract(c: byte, a: byte): byte { (c as int - a + 0x100) % 0x100 }

  lemma Wrapped(x: nat)
    requires x < 0x200
    ensures x % 0x100 == if x < 0x100 then x else x - 0x100
  {
  }

  lemma SubtractAdd(x: byte, a: byte)
    ensures Subtract(Add(x, a), a) == x && Add(Subtract(x, a), a) == x
  {
    Wrapped(x + a);
    Wrapped(x - a + 0x100);
    Wrapped(Add(x, a) - a + 0x100);
    Wrapped(Subtract(x, a) + a);
  }

  /** The two key bytes used at position i. */
  function AddKey(key: Key, i: nat): byte { key[i % KEY_SIZE] }

  function XorKey(key: Key, i: nat): byte { key[(i + 13) % KEY_SIZE] }

  function Mask(key: Key, i: nat, p: byte): byte {
    XorByte(Add(p, AddKey(key, i)), XorKey(key, i))
  }

  function Unmask(key: Key, i: nat, c: byte): byte {
    Subtract(XorByte(c, XorKey(key, i)), AddKey(key, i))
  }

  function Encrypted(key: Key, data: seq<byte>): (out: seq<byte>)
    ensures |out| == |data|
  {
    seq(|data|, i requires 0 <= i < |data| => Mask(key, i, data[i]))
  }

  function Decrypted(key: Key, data: seq<byte>): (out: seq<byte>)
    ensures |out| == |data|
  {
    seq(|data|, i requires 0 <= i < |data| => Unmask(key, i, data[i]))
  }

  /** A key of the wrong length, as before the handshake, is refused in both directions. */
  method Crypt(sharedKey: seq<byte>, input: seq<byte>, decrypt: bool) returns (r: Result<seq<byte>, Error>)
    ensures |sharedKey| != KEY_SIZE ==> r == Err(InvalidKey)
    ensures |sharedKey| == KEY_SIZE ==>
      r == Ok(if decrypt then Decrypted(sharedKey, input) else Encrypted(sharedKey, input))
  {
    if |sharedKey| != KEY_SIZE {
      return Err(InvalidKey);
    }
    var output := new byte[|input|](_ => 0);
    for i := 0 to |input|
      invariant forall k :: 0 <= k < i ==>
        output[k] == if decrypt then Unmask(sharedKey, k, input[k]) else Mask(sharedKey, k, input[k])
    {
      var value := input[i];
      var a, b := AddKey(sharedKey, i), XorKey(sharedKey, i);
      if decrypt {
        value := Subtract(XorByte(value, b), a);
      } else {
        value := XorByte(Add(value, a), b);
      }
      output[i] := value;
    }
    assert output[..] == if decrypt then Decrypted(sharedKey, input) else Encrypted(sharedKey, input);
    return Ok(output[..]);
  }

  lemma KeyPositions(key: Key, q: nat, a: nat)
    requires a < KEY_SIZE
    ensures AddKey(key, q * 32 + a) == key[a]
    ensures XorKey(key, q * 32 + a) == key[if a < 19 then a + 13 else a - 19]
  {
    if a < 19 {
      assert q * 32 + a + 13 == 32 * q + (a + 13);
    } else {
      assert q * 32 + a + 13 == 32 * (q + 1) + (a - 19);
    }
  }

  /** The bits of one byte are those of the other, flipped where the mask has a bit. */
  ghost predicate Flipped(out: nat, x: nat, mask: nat) {
    forall k: nat :: Bit(out, k) <==> k < 8 && Bit(x, k) != Bit(mask, k)
  }

  lemma XorByteBits(a: byte, b: byte)
    ensures Flipped(XorByte(a, b), a, b)
  {
    forall k: nat
      ensures Bit(XorByte(a, b), k) <==> k < 8 && Bit(a, k) != Bit(b, k)
    {
      XorBits(a, b, 8, k);
    }
  }

  /** Block by block of 32 bytes: to byte a of a block key byte a is added, wrapping around,
      and of the sum those bits are flipped that are set in the key byte 13 places further
      round. */
  lemma BlockByte(key: Key, data: seq<byte>, q: nat, a: nat)
    requires a < KEY_SIZE && q * 32 + a < |data|
    ensures var sum: int := data[q * 32 + a] as int + key[a] as int;
      Flipped(Encrypted(key, data)[q * 32 + a], if sum < 0x100 then sum else sum - 0x100,
              key[if a < 19 then a + 13 else a - 19])
  {
    KeyPositions(key, q, a);
    var i := q * 32 + a;
    assert Encrypted(key, data)[i] == XorByte(Add(data[i], AddKey(key, i)), XorKey(key, i));
    XorByteBits(Add(data[q * 32 + a], key[a]), key[if a < 19 then a + 13 else a - 19]);
  }

  lemma XorByteZero(a: byte)
    ensures XorByte(a, 0) == a
  {
    assert Pow2(2) == 4 && Pow2(4) == 16 && Pow2(6) == 64 && Pow2(8) == 0x100;
    XorZero(a, 8);
  }

  lemma MaskZero(key: Key, i: nat, x: byte)
    requires AddKey(key, i) == 0 && XorKey(key, i) == 0
    ensures Mask(key, i, x) == x
  {
    assert Add(x, 0) == x;
    XorByteZero(x);
  }

  /** A key of zeros leaves the data as it is. */
  lemma ZeroKey(key: Key, data: seq<byte>)
    requires forall i: nat :: AddKey(key, i) == 0 && XorKey(key, i) == 0
    ensures Encrypted(key, data) == data
  {
    forall i: nat | i < |data|
      ensures Mask(key, i, data[i]) == data[i]
    {
      MaskZero(key, i, data[i]);
    }
  }

  lemma MaskRoundTrip(key: Key, i: nat, x: byte)
    ensures Unmask(key, i, Mask(key, i, x)) == x && Mask(key, i, Unmask(key, i, x)) == x
  {
    var a, b := AddKey(key, i), XorKey(key, i);
    SubtractAdd(x, a);
    SubtractAdd(XorByte(x, b), a);
  }

  /** Under one key each direction undoes the other, so encryption is a bijection on the
      byte strings of each length. */
  lemma RoundTrip(key: Key, data: seq<byte>)
    ensures Decrypted(key, Encrypted(key, data)) == data
    ensures Encrypted(key, Decrypted(key, data)) == data
  {
    forall i: nat | i < |data|
      ensures Unmask(key, i, Mask(key, i, data[i])) == data[i] == Mask(key, i, Unmask(key, i, data[i]))
    {
      MaskRoundTrip(key, i, data[i]);
    }
  }
}
