/**
 * Fixed-width big-endian byte encoding of natural numbers, as Rust's
 * `u128::to_be_bytes` produces it: the most significant byte first.
 */
module BigEndian {
  import opened Base

  function Pow256(n: nat): (r: nat)
    ensures r >= 1
  {
    if n == 0 then 1 else 256 * Pow256(n - 1)
  }

  /** 256^16 is 2^128, the bound of a `u128`. */
  lemma Pow256Sixteen()
    ensures Pow256(16) == 0x1_0000_0000_0000_0000_0000_0000_0000_0000
  {
    assert Pow256(4) == 0x1_0000_0000;
    assert Pow256(8) == 0x1_0000_0000_0000_0000;
    assert Pow256(12) == 0x1_0000_0000_0000_0000_0000_0000;
  }

  /** The `n` bytes of `v`, most significant first. */
  function ToBytes(v: nat, n: nat): (r: seq<byte>)
    requires v < Pow256(n)
    ensures |r| == n
  {
    if n == 0 then [] else ToBytes(v / 256, n - 1) + [v % 256]
  }

  /** The number that a byte string denotes when read most significant byte first. */
  function FromBytes(bs: seq<byte>): (v: nat)
    ensures v < Pow256(|bs|)
  {
    if bs == [] then 0 else FromBytes(bs[..|bs| - 1]) * 256 + bs[|bs| - 1]
  }

  /** Decoding an encoding gives back the number. */
  lemma {:induction false} FromToBytes(v: nat, n: nat)
    requires v < Pow256(n)
    ensures FromBytes(ToBytes(v, n)) == v
  {
    if n > 0 {
      var r := ToBytes(v, n);
      assert r[..n - 1] == ToBytes(v / 256, n - 1);
      FromToBytes(v / 256, n - 1);
    }
  }

  /** Encoding a decoded byte string, at its own width, gives back the bytes. */
  lemma {:induction false} ToFromBytes(bs: seq<byte>)
    ensures ToBytes(FromBytes(bs), |bs|) == bs
  {
    if bs != [] {
      var n := |bs|;
      var prefix := bs[..n - 1];
      ToFromBytes(prefix);
      assert FromBytes(bs) / 256 == FromBytes(prefix);
      assert FromBytes(bs) % 256 == bs[n - 1];
      assert prefix + [bs[n - 1]] == bs;
    }
  }

  /** The first byte is the most significant one: it weighs 256 to the power of the bytes after it. */
  lemma {:induction false} LeadingByteMostSignificant(b: byte, rest: seq<byte>)
    ensures FromBytes([b] + rest) == b * Pow256(|rest|) + FromBytes(rest)
  {
    if rest != [] {
      var n := |rest|;
      var all := [b] + rest;
      assert all[..|all| - 1] == [b] + rest[..n - 1];
      LeadingByteMostSignificant(b, rest[..n - 1]);
      calc {
        FromBytes(all);
        FromBytes([b] + rest[..n - 1]) * 256 + rest[n - 1];
        (b * Pow256(n - 1) + FromBytes(rest[..n - 1])) * 256 + rest[n - 1];
        { assert b * Pow256(n - 1) * 256 == b * Pow256(n); }
        b * Pow256(n) + FromBytes(rest);
      }
    }
  }
}
