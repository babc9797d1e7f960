/** Where the numbers of SHA-256 come from (FIPS 180-4, sections 4.2.2 and 5.3.3). */
module Constants {
  import opened Sha256
  import opened WordOps

  const PRIMES_FIRST: seq<nat> := [2, 3, 5, 7, 11, 13, 17, 19, 23, 29, 31, 37, 41, 43, 47, 53]
  const PRIMES_SECOND: seq<nat> := [59, 61, 67, 71, 73, 79, 83, 89, 97, 101, 103, 107, 109, 113, 127, 131]
  const PRIMES_THIRD: seq<nat> := [137, 139, 149, 151, 157, 163, 167, 173, 179, 181, 191, 193, 197, 199, 211, 223]
  const PRIMES_LAST: seq<nat> := [227, 229, 233, 239, 241, 251, 257, 263, 269, 271, 277, 281, 283, 293, 307, 311]

  /** The first 64 primes. */
  const PRIMES: seq<nat> := PRIMES_FIRST + PRIMES_SECOND + PRIMES_THIRD + PRIMES_LAST

  function Cube(x: nat): nat {
    x * x * x
  }

  function IntegerCubeRoot(p: nat): (n: nat)
    requires 1 <= p < 343
    ensures Cube(n) <= p < Cube(n + 1)
  {
    if p < 8 then 1 else if p < 27 then 2 else if p < 64 then 3
    else if p < 125 then 4 else if p < 216 then 5 else 6
  }

  function IntegerSquareRoot(p: nat): (n: nat)
    requires 1 <= p < 25
    ensures n * n <= p < (n + 1) * (n + 1)
  {
    if p < 4 then 1 else if p < 9 then 2 else if p < 16 then 3 else 4
  }

  /** k is the first 32 bits of the fractional part of the cube root of p. */
  predicate CubeRootBits(p: nat, k: nat)
    requires 1 <= p < 343
  {
    var r := IntegerCubeRoot(p) * 0x1_0000_0000 + k;
    k < 0x1_0000_0000 && Cube(r) <= p * 0x1_0000_0000_0000_0000_0000_0000 < Cube(r + 1)
  }

  /** The same of the square root. */
  predicate SquareRootBits(p: nat, k: nat)
    requires 1 <= p < 25
  {
    var r := IntegerSquareRoot(p) * 0x1_0000_0000 + k;
    k < 0x1_0000_0000 && r * r <= p * 0x1_0000_0000_0000_0000 < (r + 1) * (r + 1)
  }

  lemma RootsFrom0()
    ensures CubeRootBits(2, 0x428a2f98) && CubeRootBits(3, 0x71374491)
    ensures CubeRootBits(5, 0xb5c0fbcf) && CubeRootBits(7, 0xe9b5dba5)
    ensures CubeRootBits(11, 0x3956c25b) && CubeRootBits(13, 0x59f111f1)
    ensures CubeRootBits(17, 0x923f82a4) && CubeRootBits(19, 0xab1c5ed5)
  {
  }

  lemma RootsFrom8()
    ensures CubeRootBits(23, 0xd807aa98) && CubeRootBits(29, 0x12835b01)
    ensures CubeRootBits(31, 0x243185be) && CubeRootBits(37, 0x550c7dc3)
    ensures CubeRootBits(41, 0x72be5d74) && CubeRootBits(43, 0x80deb1fe)
    ensures CubeRootBits(47, 0x9bdc06a7) && CubeRootBits(53, 0xc19bf174)
  {
  }

  lemma RootsFrom16()
    ensures CubeRootBits(59, 0xe49b69c1) && CubeRootBits(61, 0xefbe4786)
    ensures CubeRootBits(67, 0x0fc19dc6) && CubeRootBits(71, 0x240ca1cc)
    ensures CubeRootBits(73, 0x2de92c6f) && CubeRootBits(79, 0x4a7484aa)
    ensures CubeRootBits(83, 0x5cb0a9dc) && CubeRootBits(89, 0x76f988da)
  {
  }

  lemma RootsFrom24()
    ensures CubeRootBits(97, 0x983e5152) && CubeRootBits(101, 0xa831c66d)
    ensures CubeRootBits(103, 0xb00327c8) && CubeRootBits(107, 0xbf597fc7)
    ensures CubeRootBits(109, 0xc6e00bf3) && CubeRootBits(113, 0xd5a79147)
    ensures CubeRootBits(127, 0x06ca6351) && CubeRootBits(131, 0x14292967)
  {
  }

  lemma RootsFrom32()
    ensures CubeRootBits(137, 0x27b70a85) && CubeRootBits(139, 0x2e1b2138)
    ensures CubeRootBits(149, 0x4d2c6dfc) && CubeRootBits(151, 0x53380d13)
    ensures CubeRootBits(157, 0x650a7354) && CubeRootBits(163, 0x766a0abb)
    ensures CubeRootBits(167, 0x81c2c92e) && CubeRootBits(173, 0x92722c85)
  {
  }

  lemma RootsFrom40()
    ensures CubeRootBits(179, 0xa2bfe8a1) && CubeRootBits(181, 0xa81a664b)
    ensures CubeRootBits(191, 0xc24b8b70) && CubeRootBits(193, 0xc76c51a3)
    ensures CubeRootBits(197, 0xd192e819) && CubeRootBits(199, 0xd6990624)
    ensures CubeRootBits(211, 0xf40e3585) && CubeRootBits(223, 0x106aa070)
  {
  }

  lemma RootsFrom48()
    ensures CubeRootBits(227, 0x19a4c116) && CubeRootBits(229, 0x1e376c08)
    ensures CubeRootBits(233, 0x2748774c) && CubeRootBits(239, 0x34b0bcb5)
    ensures CubeRootBits(241, 0x391c0cb3) && CubeRootBits(251, 0x4ed8aa4a)
    ensures CubeRootBits(257, 0x5b9cca4f) && CubeRootBits(263, 0x682e6ff3)
  {
  }

  lemma RootsFrom56()
    ensures CubeRootBits(269, 0x748f82ee) && CubeRootBits(271, 0x78a5636f)
    ensures CubeRootBits(277, 0x84c87814) && CubeRootBits(281, 0x8cc70208)
    ensures CubeRootBits(283, 0x90befffa) && CubeRootBits(293, 0xa4506ceb)
    ensures CubeRootBits(307, 0xbef9a3f7) && CubeRootBits(311, 0xc67178f2)
  {
  }

  function Number(w: Word): nat {
    w as nat
  }

  lemma ValuesFrom0()
    ensures Number(0x428a2f98) == 0x428a2f98 && Number(0x71374491) == 0x71374491
    ensures Number(0xb5c0fbcf) == 0xb5c0fbcf && Number(0xe9b5dba5) == 0xe9b5dba5
    ensures Number(0x3956c25b) == 0x3956c25b && Number(0x59f111f1) == 0x59f111f1
    ensures Number(0x923f82a4) == 0x923f82a4 && Number(0xab1c5ed5) == 0xab1c5ed5
    ensures Number(0xd807aa98) == 0xd807aa98 && Number(0x12835b01) == 0x12835b01
    ensures Number(0x243185be) == 0x243185be && Number(0x550c7dc3) == 0x550c7dc3
    ensures Number(0x72be5d74) == 0x72be5d74 && Number(0x80deb1fe) == 0x80deb1fe
    ensures Number(0x9bdc06a7) == 0x9bdc06a7 && Number(0xc19bf174) == 0xc19bf174
  {
  }

  lemma TableFrom0()
    ensures |K| == 64
    ensures K[0] == 0x428a2f98 && K[1] == 0x71374491 && K[2] == 0xb5c0fbcf && K[3] == 0xe9b5dba5
    ensures K[4] == 0x3956c25b && K[5] == 0x59f111f1 && K[6] == 0x923f82a4 && K[7] == 0xab1c5ed5
    ensures K[8] == 0xd807aa98 && K[9] == 0x12835b01 && K[10] == 0x243185be && K[11] == 0x550c7dc3
    ensures K[12] == 0x72be5d74 && K[13] == 0x80deb1fe && K[14] == 0x9bdc06a7 && K[15] == 0xc19bf174
  {
  }

  lemma ValuesFrom16()
    ensures Number(0xe49b69c1) == 0xe49b69c1 && Number(0xefbe4786) == 0xefbe4786
    ensures Number(0x0fc19dc6) == 0x0fc19dc6 && Number(0x240ca1cc) == 0x240ca1cc
    ensures Number(0x2de92c6f) == 0x2de92c6f && Number(0x4a7484aa) == 0x4a7484aa
    ensures Number(0x5cb0a9dc) == 0x5cb0a9dc && Number(0x76f988da) == 0x76f988da
    ensures Number(0x983e5152) == 0x983e5152 && Number(0xa831c66d) == 0xa831c66d
    ensures Number(0xb00327c8) == 0xb00327c8 && Number(0xbf597fc7) == 0xbf597fc7
    ensures Number(0xc6e00bf3) == 0xc6e00bf3 && Number(0xd5a79147) == 0xd5a79147
    ensures Number(0x06ca6351) == 0x06ca6351 && Number(0x14292967) == 0x14292967
  {
  }

  lemma TableFrom16()
    ensures |K| == 64
    ensures K[16] == 0xe49b69c1 && K[17] == 0xefbe4786 && K[18] == 0x0fc19dc6 && K[19] == 0x240ca1cc
    ensures K[20] == 0x2de92c6f && K[21] == 0x4a7484aa && K[22] == 0x5cb0a9dc && K[23] == 0x76f988da
    ensures K[24] == 0x983e5152 && K[25] == 0xa831c66d && K[26] == 0xb00327c8 && K[27] == 0xbf597fc7
    ensures K[28] == 0xc6e00bf3 && K[29] == 0xd5a79147 && K[30] == 0x06ca6351 && K[31] == 0x14292967
  {
  }

  lemma ValuesFrom32()
    ensures Number(0x27b70a85) == 0x27b70a85 && Number(0x2e1b2138) == 0x2e1b2138
    ensures Number(0x4d2c6dfc) == 0x4d2c6dfc && Number(0x53380d13) == 0x53380d13
    ensures Number(0x650a7354) == 0x650a7354 && Number(0x766a0abb) == 0x766a0abb
    ensures Number(0x81c2c92e) == 0x81c2c92e && Number(0x92722c85) == 0x92722c85
    ensures Number(0xa2bfe8a1) == 0xa2bfe8a1 && Number(0xa81a664b) == 0xa81a664b
    ensures Number(0xc24b8b70) == 0xc24b8b70 && Number(0xc76c51a3) == 0xc76c51a3
    ensures Number(0xd192e819) == 0xd192e819 && Number(0xd6990624) == 0xd6990624
    ensures Number(0xf40e3585) == 0xf40e3585 && Number(0x106aa070) == 0x106aa070
  {
  }

  lemma TableFrom32()
    ensures |K| == 64
    ensures K[32] == 0x27b70a85 && K[33] == 0x2e1b2138 && K[34] == 0x4d2c6dfc && K[35] == 0x53380d13
    ensures K[36] == 0x650a7354 && K[37] == 0x766a0abb && K[38] == 0x81c2c92e && K[39] == 0x92722c85
    ensures K[40] == 0xa2bfe8a1 && K[41] == 0xa81a664b && K[42] == 0xc24b8b70 && K[43] == 0xc76c51a3
    ensures K[44] == 0xd192e819 && K[45] == 0xd6990624 && K[46] == 0xf40e3585 && K[47] == 0x106aa070
  {
  }

  lemma ValuesFrom48()
    ensures Number(0x19a4c116) == 0x19a4c116 && Number(0x1e376c08) == 0x1e376c08
    ensures Number(0x2748774c) == 0x2748774c && Number(0x34b0bcb5) == 0x34b0bcb5
    ensures Number(0x391c0cb3) == 0x391c0cb3 && Number(0x4ed8aa4a) == 0x4ed8aa4a
    ensures Number(0x5b9cca4f) == 0x5b9cca4f && Number(0x682e6ff3) == 0x682e6ff3
    ensures Number(0x748f82ee) == 0x748f82ee && Number(0x78a5636f) == 0x78a5636f
    ensures Number(0x84c87814) == 0x84c87814 && Number(0x8cc70208) == 0x8cc70208
    ensures Number(0x90befffa) == 0x90befffa && Number(0xa4506ceb) == 0xa4506ceb
    ensures Number(0xbef9a3f7) == 0xbef9a3f7 && Number(0xc67178f2) == 0xc67178f2
  {
  }

  lemma TableFrom48()
    ensures |K| == 64
    ensures K[48] == 0x19a4c116 && K[49] == 0x1e376c08 && K[50] == 0x2748774c && K[51] == 0x34b0bcb5
    ensures K[52] == 0x391c0cb3 && K[53] == 0x4ed8aa4a && K[54] == 0x5b9cca4f && K[55] == 0x682e6ff3
    ensures K[56] == 0x748f82ee && K[57] == 0x78a5636f && K[58] == 0x84c87814 && K[59] == 0x8cc70208
    ensures K[60] == 0x90befffa && K[61] == 0xa4506ceb && K[62] == 0xbef9a3f7 && K[63] == 0xc67178f2
  {
  }

  lemma ConstantsFrom0(i: nat)
    requires 0 <= i < 16
    ensures |K| == 64 == |PRIMES| && 1 <= PRIMES[i] < 343 && CubeRootBits(PRIMES[i], Number(K[i]))
  {
    hide CubeRootBits, K, Number;
    ValuesFrom0(); TableFrom0();
    RootsFrom0(); RootsFrom8();
    match i
    case 0 => case 1 => case 2 => case 3 => case 4 => case 5 => case 6 => case 7 =>
    case 8 => case 9 => case 10 => case 11 => case 12 => case 13 => case 14 => case 15 =>
  }

  lemma ConstantsFrom16(i: nat)
    requires 16 <= i < 32
    ensures |K| == 64 == |PRIMES| && 1 <= PRIMES[i] < 343 && CubeRootBits(PRIMES[i], Number(K[i]))
  {
    hide CubeRootBits, K, Number;
    ValuesFrom16(); TableFrom16();
    RootsFrom16(); RootsFrom24();
    match i
    case 16 => case 17 => case 18 => case 19 => case 20 => case 21 => case 22 => case 23 =>
    case 24 => case 25 => case 26 => case 27 => case 28 => case 29 => case 30 => case 31 =>
  }

  lemma ConstantsFrom32(i: nat)
    requires 32 <= i < 48
    ensures |K| == 64 == |PRIMES| && 1 <= PRIMES[i] < 343 && CubeRootBits(PRIMES[i], Number(K[i]))
  {
    hide CubeRootBits, K, Number;
    ValuesFrom32(); TableFrom32();
    RootsFrom32(); RootsFrom40();
    match i
    case 32 => case 33 => case 34 => case 35 => case 36 => case 37 => case 38 => case 39 =>
    case 40 => case 41 => case 42 => case 43 => case 44 => case 45 => case 46 => case 47 =>
  }

  lemma ConstantsFrom48(i: nat)
    requires 48 <= i < 64
    ensures |K| == 64 == |PRIMES| && 1 <= PRIMES[i] < 343 && CubeRootBits(PRIMES[i], Number(K[i]))
  {
    hide CubeRootBits, K, Number;
    ValuesFrom48(); TableFrom48();
    RootsFrom48(); RootsFrom56();
    match i
    case 48 => case 49 => case 50 => case 51 => case 52 => case 53 => case 54 => case 55 =>
    case 56 => case 57 => case 58 => case 59 => case 60 => case 61 => case 62 => case 63 =>
  }

  /** The round constants are the first 32 bits of the fractional parts of the cube roots of the first 64 primes. */
  lemma RoundConstantsAreCubeRoots(i: nat)
    requires i < 64
    ensures |K| == 64 == |PRIMES| && 1 <= PRIMES[i] < 343 && CubeRootBits(PRIMES[i], Number(K[i]))
  {
    if i < 16 {
      ConstantsFrom0(i);
    } else if i < 32 {
      ConstantsFrom16(i);
    } else if i < 48 {
      ConstantsFrom32(i);
    } else {
      ConstantsFrom48(i);
    }
  }

  /** The initial words are the first 32 bits of the fractional parts of the square roots of the first 8 primes. */
  lemma InitialWordsAreSquareRoots()
    ensures SquareRootBits(2, Number(INITIAL.a)) && SquareRootBits(3, Number(INITIAL.b))
    ensures SquareRootBits(5, Number(INITIAL.c)) && SquareRootBits(7, Number(INITIAL.d))
    ensures SquareRootBits(11, Number(INITIAL.e)) && SquareRootBits(13, Number(INITIAL.f))
    ensures SquareRootBits(17, Number(INITIAL.g)) && SquareRootBits(19, Number(INITIAL.h))
  {
  }
}
