/**
  Byte strings and the key derivations of the indexer.

  Entity ids are byte strings. Event-log entities are keyed by the transaction
  hash followed by the log index as a four-byte int (`Bytes.concatI32`); a
  Token is keyed by the contract address followed by the token id as a
  four-byte int; a PrevTokenAccount by the owner address followed by the token
  key (`Bytes.concat`). `ByteArray.fromI32` writes the two's-complement value
  least significant byte first.
 */
module IdentityCodec {

  newtype byte = x: int | 0 <= x < 256

  type Bytes = seq<byte>

  const I32Min: int := -0x8000_0000
  const I32Max: int := 0x7FFF_FFFF

  /** A value that `BigInt.toI32` converts without aborting. */
  predicate InI32(x: int) {
    I32Min <= x <= I32Max
  }

  /** `ByteArray.fromI32(x)`: the four bytes of x's two's complement, little-endian. */
  function I32Bytes(x: int): (r: Bytes)
    requires InI32(x)
    ensures |r| == 4
  {
    var u := if x < 0 then x + 0x1_0000_0000 else x;
    var q1 := u / 256;
    var q2 := q1 / 256;
    [(u % 256) as byte, (q1 % 256) as byte, (q2 % 256) as byte, (q2 / 256) as byte]
  }

  /** Reads four little-endian bytes back as a signed 32-bit value. */
  function I32FromBytes(b: Bytes): (x: int)
    requires |b| == 4
    ensures InI32(x)
  {
    var u := b[0] as int + 256 * (b[1] as int + 256 * (b[2] as int + 256 * b[3] as int));
    if u <= I32Max then u else u - 0x1_0000_0000
  }

  /** `Bytes.concatI32`: the byte string followed by the four bytes of x. */
  function ConcatI32(b: Bytes, x: int): (r: Bytes)
    requires InI32(x)
    ensures |r| == |b| + 4
  {
    b + I32Bytes(x)
  }

  /** Every 32-bit value survives the trip through its four bytes. */
  lemma I32RoundTrip(x: int)
    requires InI32(x)
    ensures I32FromBytes(I32Bytes(x)) == x
  {
    var u := if x < 0 then x + 0x1_0000_0000 else x;
    var q1 := u / 256;
    var q2 := q1 / 256;
    assert u == u % 256 + 256 * (q1 % 256 + 256 * (q2 % 256 + 256 * (q2 / 256)));
  }

  /** Different 32-bit values give different four-byte suffixes. */
  lemma I32BytesInjective(x: int, y: int)
    requires InI32(x) && InI32(y)
    requires I32Bytes(x) == I32Bytes(y)
    ensures x == y
  {
    I32RoundTrip(x);
    I32RoundTrip(y);
  }

  /** The prefix and the value can both be read back from a concatI32 key. */
  lemma ConcatI32Split(b: Bytes, x: int)
    requires InI32(x)
    ensures ConcatI32(b, x)[..|b|] == b
    ensures I32FromBytes(ConcatI32(b, x)[|b|..]) == x
  {
    var k := ConcatI32(b, x);
    assert k[|b|..] == I32Bytes(x);
    I32RoundTrip(x);
  }

  /**
    Over prefixes of one width (transaction hashes, contract addresses),
    concatI32 keys are equal only for equal prefixes and equal values.
   */
  lemma ConcatI32Injective(a: Bytes, x: int, b: Bytes, y: int)
    requires InI32(x) && InI32(y)
    requires |a| == |b|
    requires ConcatI32(a, x) == ConcatI32(b, y)
    ensures a == b && x == y
  {
    ConcatI32Split(a, x);
    ConcatI32Split(b, y);
  }

  /** Over first parts of one width (addresses), `Bytes.concat` keys are injective. */
  lemma ConcatInjective(a: Bytes, s: Bytes, b: Bytes, t: Bytes)
    requires |a| == |b|
    requires a + s == b + t
    ensures a == b && s == t
  {
    assert a == (a + s)[..|a|];
    assert b == (b + t)[..|b|];
    assert s == (a + s)[|a|..];
    assert t == (b + t)[|b|..];
  }
}
