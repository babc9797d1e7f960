/** Byte strings, and the two ways the programs read them as numbers. */
module Bytes {

  newtype byte = x: int | 0 <= x < 256

  type bytes = seq<byte>

  /** Every function the witness builder and the script interpreter call a hash: 32 bytes for any input.
      Nothing else is assumed of it. */
  type HashFunction = f: bytes -> bytes | forall m: bytes :: |f(m)| == 32 witness (m: bytes) => Zeros(32)

  /** How many values a uint32 has, and so how many nonces there are. */
  const NONCES := 0x1_0000_0000

  datatype Result<+T, +E> = Success(value: T) | Failure(error: E)

  datatype Option<+T> = None | Some(value: T)

  function Zeros(n: nat): (r: bytes)
    ensures |r| == n && forall i :: 0 <= i < n ==> r[i] == 0
  {
    seq(n, _ => 0)
  }

  function Pow2(n: nat): (r: nat)
    ensures r > 0
  {
    if n == 0 then 1 else 2 * Pow2(n - 1)
  }

  lemma SmallPowers()
    ensures Pow2(0) == 1 && Pow2(1) == 2 && Pow2(2) == 4 && Pow2(3) == 8 && Pow2(4) == 16
    ensures Pow2(5) == 32 && Pow2(6) == 64 && Pow2(7) == 128 && Pow2(8) == 256
  {
  }

  lemma {:induction false} Pow2Add(m: nat, n: nat)
    ensures Pow2(m + n) == Pow2(m) * Pow2(n)
    decreases n
  {
    if n == 0 {
    } else {
      Pow2Add(m, n - 1);
      assert Pow2(m + n) == 2 * (Pow2(m) * Pow2(n - 1)) == Pow2(m) * (2 * Pow2(n - 1));
    }
  }

  lemma MulMonotone(k: nat, x: int, y: int)
    requires x <= y
    ensures k * x <= k * y
  {
  }

  /** Quotient and remainder are unique. */
  lemma QuotientIs(n: nat, m: nat, q: nat, r: nat)
    requires r < m && n == m * q + r
    ensures n / m == q && n % m == r
  {
    var a, x := n / m, n % m;
    assert m * (a - q) == r - x;
    if a > q {
      MulMonotone(m, 1, a - q);
    } else if a < q {
      MulMonotone(m, 1, q - a);
    }
  }

  /** The value of a byte string whose first byte is the least significant. */
  function LittleEndian(b: bytes): nat {
    if b == [] then 0 else b[0] as int + 256 * LittleEndian(b[1..])
  }

  /** The value of a byte string whose last byte is the least significant. */
  function BigEndian(b: bytes): nat {
    if b == [] then 0 else 256 * BigEndian(b[..|b| - 1]) + b[|b| - 1] as int
  }

  lemma {:induction false} LittleEndianBound(b: bytes)
    ensures LittleEndian(b) < Pow2(8 * |b|)
  {
    if b == [] {
    } else {
      LittleEndianBound(b[1..]);
      Pow2Add(8, 8 * |b[1..]|);
      assert Pow2(8) == 256;
    }
  }

  lemma Regroup(x: nat, y: nat, p: nat, z: nat)
    ensures x + 256 * (y + p * z) == x + 256 * y + 256 * p * z
  {
  }

  lemma {:induction false} LittleEndianAppend(a: bytes, b: bytes)
    ensures LittleEndian(a + b) == LittleEndian(a) + Pow2(8 * |a|) * LittleEndian(b)
  {
    if a == [] {
      assert a + b == b;
    } else {
      assert (a + b)[1..] == a[1..] + b;
      LittleEndianAppend(a[1..], b);
      Pow2Add(8, 8 * |a[1..]|);
      assert Pow2(8) == 256;
      Regroup(a[0] as int, LittleEndian(a[1..]), Pow2(8 * |a[1..]|), LittleEndian(b));
    }
  }

  lemma {:induction false} LittleEndianZeros(n: nat)
    ensures LittleEndian(Zeros(n)) == 0
  {
    if n > 0 {
      assert Zeros(n)[1..] == Zeros(n - 1);
      LittleEndianZeros(n - 1);
    }
  }
}
