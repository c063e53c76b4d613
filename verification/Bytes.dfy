/** Bytes and big-endian integers, shared by the codecs. */
module Bytes {
  type Byte = n: int | 0 <= n < 256

  // binary.BigEndian.Uint16 of two bytes.
  function U16(hi: Byte, lo: Byte): (v: nat)
    ensures v < 0x1_0000
  {
    (hi as int) * 256 + lo as int
  }

  // The big-endian value of a byte string.
  function Value(b: seq<Byte>): (v: nat) {
    if b == [] then 0 else Value(b[..|b| - 1]) * 256 + b[|b| - 1]
  }

  function Pow256(n: nat): (p: nat)
    ensures p >= 1
  {
    if n == 0 then 1 else Pow256(n - 1) * 256
  }

  // The n-byte big-endian form of the low n bytes of v, as PutUint16/32/64 write it.
  function Put(v: nat, n: nat): (b: seq<Byte>)
    ensures |b| == n
  {
    if n == 0 then [] else Put(v / 256, n - 1) + [v % 256]
  }

  lemma {:induction false} ValueBound(b: seq<Byte>)
    ensures Value(b) < Pow256(|b|)
    decreases |b|
  {
    if b != [] {
      ValueBound(b[..|b| - 1]);
    }
  }

  // Writing then reading gives back the value when it fits.
  lemma {:induction false} ValueOfPut(v: nat, n: nat)
    requires v < Pow256(n)
    ensures Value(Put(v, n)) == v
  {
    if n > 0 {
      ValueOfPut(v / 256, n - 1);
      assert Put(v, n)[..n - 1] == Put(v / 256, n - 1);
    }
  }

  // Reading then writing gives back the bytes.
  lemma {:induction false} PutOfValue(b: seq<Byte>)
    ensures Put(Value(b), |b|) == b
    decreases |b|
  {
    if b != [] {
      PutOfValue(b[..|b| - 1]);
      assert b == b[..|b| - 1] + [b[|b| - 1]];
    }
  }

  // Where the parts of a record are found again.
  lemma Slices(a: seq<Byte>, b: seq<Byte>, c: seq<Byte>, d: seq<Byte>, e: seq<Byte>, data: seq<Byte>)
    requires data == a + b + c + d + e
    ensures data[|a|..|a| + |b|] == b && data[|a|..] == b + (c + d + e)
    ensures data[|a| + |b|..|a| + |b| + |c|] == c && data[|a| + |b|..] == c + (d + e)
    ensures data[|a| + |b| + |c|..|a| + |b| + |c| + |d|] == d
  {
    assert data[|a|..] == b + (c + d + e);
    assert data[|a| + |b|..] == c + (d + e);
  }
}
