/** Bytes, the fixed-width big-endian integers of the wire format, and the result of reading
    a value off the front of a byte string. */
module Bytes {

  type byte = b: int | 0 <= b < 256

  const U32_LIMIT: nat := 0x1_0000_0000
  const U64_LIMIT: nat := 0x1_0000_0000_0000_0000

  /** Outcome of a reader: the value and the bytes after it, or an I/O or format error. */
  datatype Parse<+T> = Parsed(value: T, rest: seq<byte>) | Failed {
    predicate IsFailure() {
      Failed?
    }

    function PropagateFailure<U>(): Parse<U>
      requires Failed?
    {
      Failed
    }

    function Extract(): (T, seq<byte>)
      requires Parsed?
    {
      (value, rest)
    }
  }

  /** Number of values a big-endian field of `width` bytes can hold. */
  function Limit(width: nat): (r: nat)
    ensures r > 0
  {
    if width == 0 then 1 else 256 * Limit(width - 1)
  }

  function ToBytes(v: nat, width: nat): (s: seq<byte>)
    requires v < Limit(width)
    ensures |s| == width
  {
    if width == 0 then [] else ToBytes(v / 256, width - 1) + [v % 256]
  }

  function FromBytes(s: seq<byte>): (v: nat)
    ensures v < Limit(|s|)
  {
    if s == [] then 0 else 256 * FromBytes(s[..|s| - 1]) + s[|s| - 1]
  }

  lemma {:induction false} FromToBytes(v: nat, width: nat)
    requires v < Limit(width)
    ensures FromBytes(ToBytes(v, width)) == v
  {
    if width > 0 {
      FromToBytes(v / 256, width - 1);
      assert ToBytes(v, width)[..width - 1] == ToBytes(v / 256, width - 1);
    }
  }

  lemma {:induction false} ToFromBytes(s: seq<byte>)
    ensures ToBytes(FromBytes(s), |s|) == s
  {
    if s != [] {
      ToFromBytes(s[..|s| - 1]);
      assert s == s[..|s| - 1] + [s[|s| - 1]];
    }
  }

  lemma Limits()
    ensures Limit(4) == U32_LIMIT && Limit(8) == U64_LIMIT
  {
    assert Limit(4) == 256 * Limit(3) == 65536 * Limit(2);
    assert Limit(8) == 256 * Limit(7) == 65536 * Limit(6) == 16777216 * Limit(5);
  }

  function U64(v: nat): (s: seq<byte>)
    requires v < U64_LIMIT
    ensures |s| == 8
  {
    Limits();
    ToBytes(v, 8)
  }

  function U32(v: nat): (s: seq<byte>)
    requires v < U32_LIMIT
    ensures |s| == 4
  {
    Limits();
    ToBytes(v, 4)
  }

  function ReadByte(data: seq<byte>): Parse<byte> {
    if data == [] then Failed else Parsed(data[0], data[1..])
  }

  function ReadU64(data: seq<byte>): (r: Parse<nat>)
    ensures r.Parsed? ==> r.value < U64_LIMIT
  {
    Limits();
    if |data| < 8 then Failed else Parsed(FromBytes(data[..8]), data[8..])
  }

  /** io.ReadFull of `n` bytes. A length the input cannot satisfy is an error, whatever its size. */
  function ReadFull(data: seq<byte>, n: nat): Parse<seq<byte>> {
    if |data| < n then Failed else Parsed(data[..n], data[n..])
  }

  lemma ReadU64Written(v: nat, rest: seq<byte>)
    requires v < U64_LIMIT
    ensures ReadU64(U64(v) + rest) == Parsed(v, rest)
  {
    Limits();
    FromToBytes(v, 8);
    assert (U64(v) + rest)[..8] == U64(v);
    assert (U64(v) + rest)[8..] == rest;
  }

  lemma U64OfRead(data: seq<byte>)
    requires |data| >= 8
    ensures ReadU64(data).Parsed? && U64(ReadU64(data).value) + ReadU64(data).rest == data
  {
    ToFromBytes(data[..8]);
  }

  lemma ReadFullWritten(s: seq<byte>, rest: seq<byte>)
    ensures ReadFull(s + rest, |s|) == Parsed(s, rest)
  {
    assert (s + rest)[..|s|] == s;
    assert (s + rest)[|s|..] == rest;
  }

  // ----- Concatenation -----

  function Concat(parts: seq<seq<byte>>): seq<byte> {
    if parts == [] then [] else parts[0] + Concat(parts[1..])
  }

  lemma {:induction false} ConcatSnoc(parts: seq<seq<byte>>, p: seq<byte>)
    ensures Concat(parts + [p]) == Concat(parts) + p
  {
    if parts == [] {
      assert Concat([p]) == p + Concat([p][1..]);
    } else {
      ConcatSnoc(parts[1..], p);
      assert (parts + [p])[1..] == parts[1..] + [p];
    }
  }

  lemma {:induction false} ConcatSplit(parts: seq<seq<byte>>, i: nat)
    requires i <= |parts|
    ensures Concat(parts) == Concat(parts[..i]) + Concat(parts[i..])
  {
    if i == 0 {
      assert parts[0..] == parts;
    } else {
      ConcatSplit(parts[1..], i - 1);
      assert parts[1..][..i - 1] == parts[..i][1..];
      assert parts[1..][i - 1..] == parts[i..];
    }
  }
}
