/** Script numbers: little-endian magnitude, sign in the top bit of the last byte. */
module ScriptNum {
  import opened Bytes

  function Magnitude(b: bytes): nat
    requires b != []
  {
    if |b| == 1 then b[0] as int % 128 else b[0] as int + 256 * Magnitude(b[1..])
  }

  predicate Negative(b: bytes) {
    b != [] && b[|b| - 1] >= 128
  }

  function Decode(b: bytes): int {
    if b == [] then 0 else
    var m: int := Magnitude(b);
    if Negative(b) then -m else m
  }

  /** No shorter string decodes to the same number. */
  predicate Minimal(b: bytes) {
    b == [] || b[|b| - 1] % 128 != 0 || (|b| > 1 && b[|b| - 2] >= 128)
  }

  function EncodeMagnitude(m: nat, sign: byte): (r: bytes)
    requires m > 0 && (sign == 0 || sign == 128)
    ensures r != [] && Magnitude(r) == m && Negative(r) == (sign == 128) && Minimal(r)
    ensures m < 0x80 ==> |r| == 1
    ensures m < 0x8000 ==> |r| <= 2
    ensures m < 0x80_0000 ==> |r| <= 3
    ensures m < 0x8000_0000 ==> |r| <= 4
  {
    if m < 128 then
      [m as byte + sign]
    else if m < 256 then
      assert [m as byte, sign][1..] == [sign];
      [m as byte, sign]
    else
      var q := EncodeMagnitude(m / 256, sign);
      var r := [(m % 256) as byte] + q;
      assert r[1..] == q;
      r
  }

  /** What an arithmetic opcode pushes. */
  function Encode(n: int): (r: bytes)
    ensures Decode(r) == n && Minimal(r)
    ensures -0x8000_0000 < n < 0x8000_0000 ==> |r| <= 4
    ensures 0 <= n < 0x8000 ==> |r| <= 2
  {
    if n == 0 then [] else if n > 0 then EncodeMagnitude(n, 0) else EncodeMagnitude(-n, 128)
  }

  lemma {:induction false} MagnitudeRoundTrip(b: bytes)
    requires b != [] && Minimal(b)
    ensures Magnitude(b) > 0
    ensures EncodeMagnitude(Magnitude(b), if Negative(b) then 128 else 0) == b
  {
    if |b| == 1 {
    } else if |b| == 2 && b[1] % 128 == 0 {
      assert b == [b[0], b[1]];
    } else {
      MagnitudeRoundTrip(b[1..]);
      assert b == [b[0]] + b[1..];
      var m := Magnitude(b[1..]);
      assert (b[0] as int + 256 * m) / 256 == m && (b[0] as int + 256 * m) % 256 == b[0] as int;
    }
  }

  /** Encode and Decode are inverse to each other on minimal strings. */
  lemma MinimalRoundTrip(b: bytes)
    requires Minimal(b)
    ensures Encode(Decode(b)) == b
  {
    if b != [] {
      MagnitudeRoundTrip(b);
    }
  }

  /** Four bytes hold 31 bits and a sign. */
  lemma DecodeBound(b: bytes)
    requires |b| <= 4
    ensures -0x8000_0000 < Decode(b) < 0x8000_0000
  {
    if b != [] {
      MagnitudeBound(b);
    }
  }

  lemma {:induction false} MagnitudeBound(b: bytes)
    requires b != []
    ensures |b| == 1 ==> Magnitude(b) < 0x80
    ensures |b| <= 2 ==> Magnitude(b) < 0x8000
    ensures |b| <= 3 ==> Magnitude(b) < 0x80_0000
    ensures |b| <= 4 ==> Magnitude(b) < 0x8000_0000
  {
    if |b| > 1 {
      MagnitudeBound(b[1..]);
    }
  }

  /** A script number is a little-endian number whose top bit is the sign. */
  lemma {:induction false} MagnitudeIsLittleEndian(b: bytes)
    requires b != []
    ensures LittleEndian(b) == Magnitude(b) + if Negative(b) then Pow2(8 * |b| - 1) else 0
  {
    if |b| == 1 {
      assert b[1..] == [];
      SmallPowers();
    } else {
      MagnitudeIsLittleEndian(b[1..]);
      assert 8 * |b| - 1 == (8 * |b[1..]| - 1) + 8;
      Pow2Add(8 * |b[1..]| - 1, 8);
      assert Pow2(8) == 256;
    }
  }
}
