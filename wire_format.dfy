/**
 * The pieces of the protobuf binary wire format that the generator fixes at
 * generation time: wire types, base-128 varints and field keys
 * ("Base 128 Varints" and "Message Structure" in the protobuf encoding guide).
 */
module WireFormat {
  import opened Wrappers

  type byte = x: int | 0 <= x < 256
  /** C#'s `uint`. */
  type uint32 = x: int | 0 <= x < 0x1_0000_0000

  /** The wire types the generator emits. */
  datatype WireType = Varint | Fixed64 | LengthDelimited | Fixed32

  /** The standard numbering of the wire types. */
  function WireNumber(w: WireType): (n: nat)
    ensures n < 8
  {
    match w
    case Varint => 0
    case Fixed64 => 1
    case LengthDelimited => 2
    case Fixed32 => 5
  }

  /**
   * The bytes of `v` as a base-128 varint: seven bits per byte, least
   * significant group first, the high bit set on every byte but the last.
   */
  function VarintBytes(v: nat): (bs: seq<byte>)
    ensures 1 <= |bs|
    ensures bs[|bs| - 1] < 128
    ensures forall i :: 0 <= i < |bs| - 1 ==> bs[i] >= 128
    decreases v
  {
    if v < 128 then [v] else [v % 128 + 128] + VarintBytes(v / 128)
  }

  /**
   * Reference decoder: reads one varint from the front of `bs` and gives its
   * value and the number of bytes it took, or None when `bs` ends first.
   */
  function ReadVarint(bs: seq<byte>): Option<(nat, nat)>
    decreases |bs|
  {
    if |bs| == 0 then None
    else if bs[0] < 128 then Some((bs[0], 1))
    else match ReadVarint(bs[1..])
      case None => None
      case Some(r) => Some((bs[0] - 128 + 128 * r.0, r.1 + 1))
  }

  /** Decoding an encoded varint gives the value back and stops exactly at its end. */
  lemma {:induction false} VarintRoundTrip(v: nat, rest: seq<byte>)
    ensures ReadVarint(VarintBytes(v) + rest) == Some((v, |VarintBytes(v)|))
    decreases v
  {
    if v >= 128 {
      VarintRoundTrip(v / 128, rest);
      assert (VarintBytes(v) + rest)[1..] == VarintBytes(v / 128) + rest;
    }
  }

  function Pow128(k: nat): (p: nat)
    ensures p >= 1
  {
    if k == 0 then 1 else 128 * Pow128(k - 1)
  }

  /** A value below 128^k takes at most k bytes. */
  lemma {:induction false} VarintLength(v: nat, k: nat)
    requires 1 <= k && v < Pow128(k)
    ensures |VarintBytes(v)| <= k
    decreases k
  {
    if v >= 128 {
      assert k >= 2;
      assert v / 128 < Pow128(k - 1);
      VarintLength(v / 128, k - 1);
    }
  }

  /** A `uint` takes one to five varint bytes; a 64-bit value at most ten. */
  lemma VarintLengthBounds(v: nat)
    ensures v < 0x1_0000_0000 ==> |VarintBytes(v)| <= 5
    ensures v < 0x1_0000_0000_0000_0000 ==> |VarintBytes(v)| <= 10
  {
    assert Pow128(5) == 0x8_0000_0000;
    assert Pow128(10) == 0x40_0000_0000_0000_0000;
    if v < 0x1_0000_0000 { VarintLength(v, 5); }
    if v < 0x1_0000_0000_0000_0000 { VarintLength(v, 10); }
  }

  /**
   * The key `((uint)id << 3) | (uint)wire` computed in 32-bit unsigned
   * arithmetic: the shift keeps the low 29 bits of `id` (two's complement
   * for a negative id) and leaves the three low bits free, so `|` adds.
   */
  function Key(id: int, wire: WireType): uint32
  {
    8 * (id % 0x2000_0000) + WireNumber(wire)
  }

  function KeyBytes(id: int, wire: WireType): seq<byte>
  {
    VarintBytes(Key(id, wire))
  }

  /**
   * For every legal field number (1 to 2^29 - 1) the key bytes read back
   * as one varint whose value splits into the field number and the wire type.
   */
  lemma KeyRoundTrip(id: int, wire: WireType, rest: seq<byte>)
    requires 0 < id < 0x2000_0000
    ensures 1 <= |KeyBytes(id, wire)| <= 5
    ensures ReadVarint(KeyBytes(id, wire) + rest) == Some((Key(id, wire), |KeyBytes(id, wire)|))
    ensures Key(id, wire) / 8 == id && Key(id, wire) % 8 == WireNumber(wire)
  {
    VarintRoundTrip(Key(id, wire), rest);
    VarintLengthBounds(Key(id, wire));
    assert id % 0x2000_0000 == id;
    SplitKey(id, WireNumber(wire));
  }

  lemma SplitKey(q: int, r: int)
    requires 0 <= r < 8
    ensures (8 * q + r) / 8 == q && (8 * q + r) % 8 == r
  {
  }
}
