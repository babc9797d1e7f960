/** Choosing a faucet coin and building its witness (powcoins/claim.go), against the scripts that judge it. */
module Claim {
  import opened Bytes
  import opened ScriptNum
  import opened Script
  import opened FaucetScripts
  import opened FaucetRun
  import opened FaucetTheorems
  import opened Grind
  import Esplora

  type Utxo = Esplora.Utxo

  datatype Candidate = Candidate(utxo: Utxo, difficulty: int, confirmations: int, csv: int)

  /** What the selection needs of a faucet. */
  predicate Sensible(f: FaucetScript) {
    f.delay >= 1 && f.minDiff <= f.maxDiff
  }

  function Confirmations(u: Utxo, tip: int): int {
    tip - u.blockHeight + 1
  }

  predicate Confirmed(u: Utxo, tip: int) {
    0 < u.blockHeight <= tip
  }

  function Difficulty(u: Utxo, tip: int): int
    requires Sensible(u.script) && Confirmed(u, tip)
  {
    var eased := u.script.maxDiff - Confirmations(u, tip) / u.script.delay;
    if u.script.minDiff > eased then u.script.minDiff else eased
  }

  function Lock(f: FaucetScript, d: int): int {
    (f.maxDiff - d) * f.delay
  }

  /** The difficulty chosen is the least in the faucet's range at which the spend can be mined in the block after the
      tip: the relative lock, counted in blocks from the coin's own block as BIP 68 does, has run out there. */
  lemma BestLegalDifficulty(u: Utxo, tip: int)
    requires Sensible(u.script) && Confirmed(u, tip)
    ensures var d := Difficulty(u, tip);
            && u.script.minDiff <= d <= u.script.maxDiff
            && 0 <= Lock(u.script, d) && u.blockHeight + Lock(u.script, d) <= tip + 1
            && forall e :: u.script.minDiff <= e <= u.script.maxDiff && u.blockHeight + Lock(u.script, e) <= tip + 1 ==>
                 d <= e
  {
    var f, conf, d := u.script, Confirmations(u, tip), Difficulty(u, tip);
    var q := conf / f.delay;
    Quotient(conf, f.delay);
    Monotone(f.maxDiff - d, q, f.delay);
    Monotone(0, f.maxDiff - d, f.delay);
    forall e | f.minDiff <= e <= f.maxDiff && u.blockHeight + Lock(f, e) <= tip + 1
      ensures d <= e
    {
      if e < d {
        Monotone(q + 1, f.maxDiff - e, f.delay);
      }
    }
  }

  lemma Monotone(x: int, y: int, k: nat)
    requires x <= y
    ensures x * k <= y * k
  {
  }

  lemma Quotient(n: nat, k: nat)
    requires k > 0
    ensures n / k >= 0 && n / k * k <= n < (n / k + 1) * k
  {
    assert n == k * (n / k) + n % k;
    assert (n / k + 1) * k == n / k * k + k;
  }

  /** Why a coin is a candidate. The transaction must also be payable: a well-formed identifier, no dust. */
  predicate Eligible(u: Utxo, tip: int, low: int, high: int, payable: (Utxo, int) -> bool)
    requires Sensible(u.script)
  {
    Confirmed(u, tip) && low <= Difficulty(u, tip) <= high && payable(u, Lock(u.script, Difficulty(u, tip)))
  }

  function CandidateFor(u: Utxo, tip: int): Candidate
    requires Sensible(u.script) && Confirmed(u, tip)
  {
    Candidate(u, Difficulty(u, tip), Confirmations(u, tip), Lock(u.script, Difficulty(u, tip)))
  }

  function Candidates(utxos: seq<Utxo>, tip: int, low: int, high: int, payable: (Utxo, int) -> bool): seq<Candidate>
    requires forall u :: u in utxos ==> Sensible(u.script)
  {
    if utxos == [] then [] else
    var u := utxos[|utxos| - 1];
    Candidates(utxos[..|utxos| - 1], tip, low, high, payable) +
    if Eligible(u, tip, low, high, payable) then [CandidateFor(u, tip)] else []
  }

  const MAX_INT := 0x7fff_ffff_ffff_ffff

  /** The loop of BuildClaim over the scanned coins, before they are scored. */
  method SelectCandidates(utxos: seq<Utxo>, tip: int, low: int, high: int, payable: (Utxo, int) -> bool)
    returns (candidates: seq<Candidate>, easiest: int, hardest: int)
    requires forall u :: u in utxos ==> Sensible(u.script)
    ensures candidates == Candidates(utxos, tip, low, high, payable)
    ensures forall u :: u in utxos && Confirmed(u, tip) ==> easiest <= Difficulty(u, tip) <= hardest
    ensures easiest == 0x7fff_ffff_ffff_ffff ||
            exists u :: u in utxos && Confirmed(u, tip) && easiest == Difficulty(u, tip)
    ensures easiest <= 0x7fff_ffff_ffff_ffff && 0 <= hardest
    ensures hardest == 0 || exists u :: u in utxos && Confirmed(u, tip) && hardest == Difficulty(u, tip)
  {
    candidates := [];
    easiest := MAX_INT;
    hardest := 0;
    for i := 0 to |utxos|
      invariant candidates == Candidates(utxos[..i], tip, low, high, payable)
      invariant forall u :: u in utxos[..i] && Confirmed(u, tip) ==> easiest <= Difficulty(u, tip) <= hardest
      invariant easiest == MAX_INT || exists u :: u in utxos && Confirmed(u, tip) && easiest == Difficulty(u, tip)
      invariant easiest <= MAX_INT && 0 <= hardest
      invariant hardest == 0 || exists u :: u in utxos && Confirmed(u, tip) && hardest == Difficulty(u, tip)
    {
      var utxo := utxos[i];
      assert utxos[..i + 1][..i] == utxos[..i] && utxos[..i + 1][i] == utxo;
      assert utxos[..i + 1] == utxos[..i] + [utxo];
      if utxo.blockHeight <= 0 || utxo.blockHeight > tip {
        continue;
      }
      var conf := tip - utxo.blockHeight + 1;
      var eased := utxo.script.maxDiff - conf / utxo.script.delay;
      var diff := if utxo.script.minDiff > eased then utxo.script.minDiff else eased;
      easiest := if diff < easiest then diff else easiest;
      hardest := if diff > hardest then diff else hardest;
      if diff < low || diff > high {
        continue;
      }
      var csv := (utxo.script.maxDiff - diff) * utxo.script.delay;
      BestLegalDifficulty(utxo, tip);
      assert conf >= csv;
      if !payable(utxo, csv) {
        continue;
      }
      candidates := candidates + [Candidate(utxo, diff, conf, csv)];
    }
    assert utxos[..|utxos|] == utxos;
  }

  /** What is said of a coin, and when, is worth offering it. */
  predicate Offers(c: Candidate, tip: int, low: int, high: int, payable: (Utxo, int) -> bool)
    requires Sensible(c.utxo.script)
  {
    && 0 < c.utxo.blockHeight <= tip && c.confirmations == tip + 1 - c.utxo.blockHeight
    && c.difficulty == Difficulty(c.utxo, tip) && low <= c.difficulty <= high
    && c.csv == Lock(c.utxo.script, c.difficulty) && payable(c.utxo, c.csv)
  }

  lemma OffersExactly(c: Candidate, tip: int, low: int, high: int, payable: (Utxo, int) -> bool)
    requires Sensible(c.utxo.script)
    ensures Offers(c, tip, low, high, payable) <==>
            Eligible(c.utxo, tip, low, high, payable) && c == CandidateFor(c.utxo, tip)
  {
    hide Difficulty, Lock;
  }

  /** Where the eligible coins stand. */
  function Positions(utxos: seq<Utxo>, tip: int, low: int, high: int, payable: (Utxo, int) -> bool): (r: seq<nat>)
    requires forall u :: u in utxos ==> Sensible(u.script)
    ensures forall i :: 0 <= i < |r| ==> r[i] < |utxos| && Eligible(utxos[r[i]], tip, low, high, payable)
    ensures forall i, j :: 0 <= i < j < |r| ==> r[i] < r[j]
    ensures forall j: nat :: j < |utxos| && Eligible(utxos[j], tip, low, high, payable) ==> j in r
  {
    if utxos == [] then [] else
    var n := |utxos| - 1;
    Positions(utxos[..n], tip, low, high, payable) + if Eligible(utxos[n], tip, low, high, payable) then [n] else []
  }

  lemma {:induction false} CandidatesAt(utxos: seq<Utxo>, tip: int, low: int, high: int,
                                        payable: (Utxo, int) -> bool)
    requires forall u :: u in utxos ==> Sensible(u.script)
    ensures var cs, r := Candidates(utxos, tip, low, high, payable), Positions(utxos, tip, low, high, payable);
            |cs| == |r| && forall i :: 0 <= i < |r| ==> cs[i] == CandidateFor(utxos[r[i]], tip)
  {
    hide Eligible, CandidateFor, Sensible;
    if utxos != [] {
      CandidatesAt(utxos[..|utxos| - 1], tip, low, high, payable);
    }
  }

  /** The candidates are the coins worth offering, each once, in the order of the scan: they stand at increasing
      positions of it, and no other position has a coin to offer. */
  lemma CandidatesExactly(utxos: seq<Utxo>, tip: int, low: int, high: int, payable: (Utxo, int) -> bool)
    returns (positions: seq<nat>)
    requires forall u :: u in utxos ==> Sensible(u.script)
    ensures |positions| == |Candidates(utxos, tip, low, high, payable)|
    ensures forall i, j :: 0 <= i < j < |positions| ==> positions[i] < positions[j]
    ensures forall i :: 0 <= i < |positions| ==>
              var c := Candidates(utxos, tip, low, high, payable)[i];
              positions[i] < |utxos| && c.utxo == utxos[positions[i]] && Offers(c, tip, low, high, payable)
    ensures forall j: nat, c: Candidate :: j < |utxos| && c.utxo == utxos[j] && Offers(c, tip, low, high, payable) ==>
              j in positions
  {
    hide Sensible, Offers, Candidates, Positions;
    positions := Positions(utxos, tip, low, high, payable);
    CandidatesAt(utxos, tip, low, high, payable);
    forall i | 0 <= i < |positions|
      ensures Offers(Candidates(utxos, tip, low, high, payable)[i], tip, low, high, payable)
    {
      OffersExactly(Candidates(utxos, tip, low, high, payable)[i], tip, low, high, payable);
    }
    forall j: nat, c: Candidate | j < |utxos| && c.utxo == utxos[j] && Offers(c, tip, low, high, payable)
      ensures j in positions
    {
      OffersExactly(c, tip, low, high, payable);
    }
  }

  /** The spending transaction, as far as the scripts can see it. */
  datatype ClaimTx = ClaimTx(version: nat, sequence: nat)

  /** The lock becomes a uint32. */
  function UnsignedClaimTx(csv: int): (tx: ClaimTx)
    ensures tx.sequence < 0x1_0000_0000 && exists q :: csv - tx.sequence == q * 0x1_0000_0000
    ensures 0 <= csv < 0x1_0000_0000 ==> tx.sequence == csv
  {
    assert csv - csv % 0x1_0000_0000 == (csv / 0x1_0000_0000) * 0x1_0000_0000;
    ClaimTx(2, csv % 0x1_0000_0000)
  }

  /** The stack that the witness of a spend makes, the difficulty on top. */
  function WitnessStack(signature: bytes, key: bytes, p: Pieces, d: nat): Stack
    requires d < 256
  {
    Stacked(Spend(signature, key, p.prefix, p.suffix, p.hB, p.hA, [d as byte]), Empty)
  }

  predicate SpendsWith(env: Env, tx: ClaimTx) {
    env.txVersion == tx.version && env.sequence == tx.sequence
  }

  lemma SmallDifficulty(env: Env, d: nat)
    requires 16 <= d < 128
    ensures Readable(env, [d as byte], 4) && Decode([d as byte]) == d
  {
  }

  /** Completeness. A header that was ground to difficulty d gives a witness that passes everything in the script
      before the signature check, under the lock that the claim puts on its transaction; so the spend is accepted
      exactly when the signature is good. */
  lemma GroundHeaderUnlocks(env: Env, f: FaucetScript, signature: bytes, key: bytes, d: nat, nonce: nat)
    requires Implements(f) && |signature| == 64 && |key| == 32 && 16 <= d < 80 && nonce < NONCES
    requires SpendsWith(env, UnsignedClaimTx(Lock(f, d)))
    requires ValidPow(env.hash256(WithNonce(FakeHeader(signature, d), nonce)), d)
    ensures var split := SplitPowWitness(env.hash256, WithNonce(FakeHeader(signature, d), nonce), d);
            && split.Success?
            && (Accepts(env, f.script, WitnessStack(signature, key, split.value, d)) <==> env.checkSig(signature, key))
  {
    hide Accepts, Implements, FakeHeader, WithNonce, ValidPow, Encode, SplitPowWitness, SequenceAllows, Decode, Pow2,
      ScriptHeader, RelativeLock;
    var header := WithNonce(FakeHeader(signature, d), nonce);
    ValidPowIsTarget(env.hash256(header), d);
    SplitHash(env.hash256, header, d);
    var p := SplitPowWitness(env.hash256, header, d).value;
    PiecesRebuildHeader(env.hash256, signature, d, nonce);
    SmallDifficulty(env, d);
    FaucetLocks(f, d);
    AcceptsExactly(env, f, WitnessStack(signature, key, p, d));
  }

  lemma HeaderFromPieces(prefix: bytes, signature: bytes, suffix: bytes)
    requires |prefix| == 3 && |suffix| == 11
    ensures ScriptHeader(prefix, signature, suffix) == [0x03] + prefix + signature + [0x0b] + suffix
  {
    hide Encode;
    SizeBytes();
    assert [0x03] + prefix + signature + [0x0b] + suffix == [0x03] + prefix + (signature + ([0x0b] + suffix));
  }

  lemma SizeBytes()
    ensures Encode(3) == [0x03] && Encode(11) == [0x0b]
  {
  }

  /** What the script makes of the pieces is the header that was ground. */
  lemma PiecesRebuildHeader(H: HashFunction, signature: bytes, d: nat, nonce: nat)
    requires |signature| == 64 && d < 256 && nonce < NONCES
    ensures var header := WithNonce(FakeHeader(signature, d), nonce);
            var split := SplitPowWitness(H, header, d);
            split.Success? ==> ScriptHeader(split.value.prefix, signature, split.value.suffix) == header
  {
    hide FakeHeader, WithNonce, SplitPowWitness, ScriptHeader;
    var split := SplitPowWitness(H, WithNonce(FakeHeader(signature, d), nonce), d);
    SplitHeader(H, signature, d, nonce);
    if split.Success? {
      HeaderFromPieces(split.value.prefix, signature, split.value.suffix);
    }
  }

  lemma BlocksAllowed(blocks: nat)
    requires 0 < blocks <= 640
    ensures SequenceAllows(2, UnsignedClaimTx(blocks).sequence, blocks)
  {
  }

  /** The lock of the claim is the very number that the script computes, and it sets none of the flags. */
  lemma FaucetLocks(f: FaucetScript, d: nat)
    requires Implements(f) && 16 <= d < 80
    ensures f.delay > 0 && 0 < Lock(f, d) == RelativeLock(f.delay, d) <= 640
    ensures UnsignedClaimTx(Lock(f, d)).version == 2 && UnsignedClaimTx(Lock(f, d)).sequence == f.delay * (80 - d)
    ensures SequenceAllows(2, UnsignedClaimTx(Lock(f, d)).sequence, RelativeLock(f.delay, d))
  {
    hide SequenceAllows, ComputesDelay, Parse;
    LockBound(f.delay, d);
    assert f.delay * (80 - d) >= 1;
    BlocksAllowed(Lock(f, d));
  }

  /** Soundness. Whatever stack a faucet script accepts, the difficulty on it is in range, the relative lock in
      force is in blocks and at least the faucet's, the double hash of the header that the script rebuilds is below
      the target, and the key has signed. */
  lemma AcceptedSpend(env: Env, f: FaucetScript, stack: Stack)
    requires Implements(f) && Accepts(env, f.script, stack)
    ensures SevenItems(stack)
    ensures var w := SpendOf(stack);
            var d := Decode(w.difficulty);
            var hash := env.hash256(ScriptHeader(w.prefix, w.sig, w.suffix));
            && 16 <= d < 80
            && env.txVersion >= 2 && env.sequence / 0x8000_0000 % 2 == 0 && env.sequence / 0x40_0000 % 2 == 0
            && env.sequence % 0x1_0000 >= RelativeLock(f.delay, d)
            && LittleEndian(hash) < Pow2(256 - d) && ValidPow(hash, d)
            && |w.sig| == 64 && |w.key| == 32 && env.checkSig(w.sig, w.key)
  {
    hide Accepts, Implements, Encode, Decode, Pow2, LittleEndian, RelativeLock, ScriptHeader, Readable, ValidPow,
      SequenceAllows, SevenItems, SpendOf, Zeros;
    AcceptsExactly(env, f, stack);
    var w := SpendOf(stack);
    var d := Decode(w.difficulty);
    FaucetLocks(f, d);
    LockInForce(env, RelativeLock(f.delay, d));
    RebuiltHashValid(w.hB, w.hA, d);
    ValidPowIsTarget(w.hB + (w.hA + Zeros(d / 8)), d);
  }

  lemma LockInForce(env: Env, lock: nat)
    requires lock <= 640 && SequenceAllows(env.txVersion, env.sequence, lock)
    ensures env.txVersion >= 2 && env.sequence / 0x8000_0000 % 2 == 0 && env.sequence / 0x40_0000 % 2 == 0
    ensures env.sequence % 0x1_0000 >= lock
  {
  }

  lemma RebuiltHashValid(hB: bytes, hA: bytes, d: nat)
    requires |hA| == 1 && d < 256 && |hB + (hA + Zeros(d / 8))| == 32 && hA[0] as int < Pow2(8 - d % 8)
    ensures ValidPow(hB + (hA + Zeros(d / 8)), d)
  {
    hide Pow2;
    var hash := hB + (hA + Zeros(d / 8));
    assert |hB| == 31 - d / 8;
    assert hash[32 - d / 8..] == Zeros(d / 8);
    assert hash[31 - d / 8] == hA[0];
  }

  /** A coin younger than the delay of its faucet is offered at the top difficulty ... */
  lemma TopDifficultyExactly(u: Utxo, tip: int)
    requires Implements(u.script) && u.script.minDiff < 80 && Confirmed(u, tip)
    ensures Sensible(u.script) && Difficulty(u, tip) <= 80
    ensures Difficulty(u, tip) < 80 <==> u.blockHeight + u.script.delay <= tip + 1
  {
    hide ComputesDelay, Parse;
    var conf, k := Confirmations(u, tip), u.script.delay;
    Quotient(conf, k);
    if conf / k == 0 {
      assert conf < (0 + 1) * k;
    } else {
      Monotone(1, conf / k, k);
    }
  }

  /** ... at which the script accepts no witness, whatever was ground. */
  lemma TopDifficultyRejected(env: Env, f: FaucetScript, signature: bytes, key: bytes, p: Pieces)
    requires Implements(f)
    ensures !Accepts(env, f.script, WitnessStack(signature, key, p, 80))
  {
    hide Accepts, Implements;
    var stack := WitnessStack(signature, key, p, 80);
    SmallDifficulty(env, 80);
    AcceptsExactly(env, f, stack);
  }

  /** Some witness of difficulty d is accepted in a transaction with that lock. */
  ghost predicate Unlockable(f: FaucetScript, d: int, csv: int) {
    exists env: Env, stack: Stack ::
      SpendsWith(env, UnsignedClaimTx(csv)) && SevenItems(stack) && Decode(SpendOf(stack).difficulty) == d &&
      Accepts(env, f.script, stack)
  }

  lemma FaucetParameters(f: FaucetScript)
    requires IsFaucet(f)
    ensures Implements(f) && f.minDiff == 16 && f.maxDiff == 80 && f.delay >= 1
  {
    hide Code, Implements;
    FaucetsImplement(f);
  }

  function Example(d: nat): Spend
    requires d < 80
  {
    Spend(Zeros(64), Zeros(32), [], [], Zeros(31 - d / 8), [0], [d as byte])
  }

  lemma ExampleProves(env: Env, d: nat)
    requires 16 <= d < 80 && (forall m: bytes :: env.hash256(m) == Zeros(32)) && env.checkSig(Zeros(64), Zeros(32))
    ensures Proves(env, d, Example(d))
  {
    hide Encode;
    assert Zeros(32) == Zeros(31 - d / 8) + ([0] + Zeros(d / 8));
  }

  lemma ExampleStack(d: nat)
    requires d < 80
    ensures SevenItems(Stacked(Example(d), Empty)) && Below(Stacked(Example(d), Empty)).Empty?
    ensures SpendOf(Stacked(Example(d), Empty)) == Example(d)
  {
    hide Example;
  }

  lemma ExampleAccepted(env: Env, f: FaucetScript, d: nat)
    requires Implements(f) && 16 <= d < 80 && SpendsWith(env, UnsignedClaimTx(Lock(f, d)))
    requires (forall m: bytes :: env.hash256(m) == Zeros(32)) && env.checkSig(Zeros(64), Zeros(32))
    ensures Accepts(env, f.script, Stacked(Example(d), Empty))
    ensures Decode(Example(d).difficulty) == d
  {
    hide Accepts, Implements, SequenceAllows, Decode, RelativeLock, Lock, UnsignedClaimTx, Proves, Readable, SpendOf,
      SevenItems, Below, Stacked;
    FaucetLocks(f, d);
    SmallDifficulty(env, d);
    ExampleProves(env, d);
    ExampleStack(d);
    AcceptsExactly(env, f, Stacked(Example(d), Empty));
  }

  /** In a world where every hash is zero and every signature good, zeros will do. */
  lemma ExampleSpend(f: FaucetScript, d: nat)
    requires Implements(f) && 16 <= d < 80
    ensures Unlockable(f, d, Lock(f, d))
  {
    hide Accepts, Implements, Decode, Lock, UnsignedClaimTx, SpendOf, SevenItems, Below, Stacked, Example;
    var tx := UnsignedClaimTx(Lock(f, d));
    var env := Env((m: bytes) => Zeros(32), (s: bytes, k: bytes) => true, tx.version, tx.sequence, false);
    ExampleAccepted(env, f, d);
    ExampleStack(d);
  }

  /** The range of a faucet's difficulties is what its script can accept, without its upper end. */
  lemma RangeExactly(f: FaucetScript, d: int)
    requires IsFaucet(f)
    ensures Unlockable(f, d, Lock(f, d)) <==> f.minDiff <= d < f.maxDiff
  {
    FaucetParameters(f);
    hide IsFaucet, SPECS, Accepts, Implements, Decode, Lock, UnsignedClaimTx, SpendsWith, SpendOf, SevenItems;
    if f.minDiff <= d < f.maxDiff {
      ExampleSpend(f, d);
    } else if Unlockable(f, d, Lock(f, d)) {
      var env: Env, stack: Stack :|
        SpendsWith(env, UnsignedClaimTx(Lock(f, d))) && SevenItems(stack) && Decode(SpendOf(stack).difficulty) == d &&
        Accepts(env, f.script, stack);
      AcceptedSpend(env, f, stack);
    }
  }

  /** The selection offers what the script can accept: a candidate of a faucet can be spent at its difficulty and with
      its lock exactly when the coin is as old, in the block after the tip, as the delay of its faucet. */
  lemma CandidateUnlockableExactly(c: Candidate, tip: int, low: int, high: int, payable: (Utxo, int) -> bool)
    requires IsFaucet(c.utxo.script)
    ensures Sensible(c.utxo.script)
    ensures Offers(c, tip, low, high, payable) ==>
      && 16 <= c.difficulty <= 80
      && (Unlockable(c.utxo.script, c.difficulty, c.csv) <==> c.utxo.blockHeight + c.utxo.script.delay <= tip + 1)
      && (c.utxo.blockHeight + c.utxo.script.delay <= tip + 1 ==> c.difficulty < 80)
  {
    FaucetParameters(c.utxo.script);
    hide IsFaucet, SPECS, Implements, Lock, Difficulty, Unlockable;
    if Offers(c, tip, low, high, payable) {
      BestLegalDifficulty(c.utxo, tip);
      TopDifficultyExactly(c.utxo, tip);
      RangeExactly(c.utxo.script, c.difficulty);
    }
  }

  /** Who grinds: the sequential search, or a solver that answers with a nonce or an error. */
  datatype Grinder = Sequential(cancelled: nat -> bool) | External(answer: Option<nat>)

  datatype ClaimError = NotGround | NotSplit

  /** The end of BuildClaim: a header for the signature, ground and cut into the witness. */
  method BuildWitness(H: HashFunction, signature: bytes, key: bytes, d: nat, grinder: Grinder)
    returns (r: Result<Stack, ClaimError>, ghost nonce: nat)
    requires |signature| == 64 && d <= 80
    requires grinder.External? && grinder.answer.Some? ==> grinder.answer.value < NONCES
    ensures r.Success? ==>
      && nonce < NONCES && ValidPow(Hash(H, WithNonce(FakeHeader(signature, d), nonce)), d)
      && SplitPowWitness(H, WithNonce(FakeHeader(signature, d), nonce), d).Success?
      && r.value == WitnessStack(signature, key,
                                 SplitPowWitness(H, WithNonce(FakeHeader(signature, d), nonce), d).value, d)
    ensures grinder.Sequential? ==> r != Failure(NotSplit)
    ensures grinder.Sequential? && (forall k :: !grinder.cancelled(k)) ==>
      (r.Success? <==> exists n: nat :: n < NONCES && Hits(H, FakeHeader(signature, d), d, n))
    ensures grinder.External? ==>
      r.Success? == (grinder.answer.Some? && Hits(H, FakeHeader(signature, d), d, grinder.answer.value))
    ensures grinder.External? && r.Failure? ==> r.error == if grinder.answer.None? then NotGround else NotSplit
  {
    nonce := 0;
    var work := BuildFakeHeader(signature, d);
    var header := work[..];
    var ground: bytes;
    match grinder {
      case Sequential(cancelled) =>
        var g := GrindHeader(H, header, d, cancelled);
        if forall k :: !cancelled(k) {
          UncancelledSearch(H, header, d, cancelled, g);
        }
        if g.Failure? {
          return Failure(NotGround), 0;
        }
        ground := g.value.header;
        nonce := g.value.nonce;
      case External(answer) =>
        if answer.None? {
          return Failure(NotGround), 0;
        }
        ground := WithNonce(header, answer.value);
        nonce := answer.value;
    }
    var split := SplitPowWitness(H, ground, d);
    if split.Failure? {
      return Failure(NotSplit), nonce;
    }
    r := Success(WitnessStack(signature, key, split.value, d));
  }

  /** A whole claim: for a faucet, a difficulty its script allows, and the transaction with the lock of that difficulty,
      the witness that is built is accepted exactly when the signature is good; and it is built whenever the grinder
      finds what there is to find. */
  method BuildSpend(env: Env, f: FaucetScript, signature: bytes, key: bytes, d: nat, grinder: Grinder)
    returns (r: Result<Stack, ClaimError>)
    requires Implements(f) && |signature| == 64 && |key| == 32 && 16 <= d < 80
    requires SpendsWith(env, UnsignedClaimTx(Lock(f, d)))
    requires grinder.External? && grinder.answer.Some? ==> grinder.answer.value < NONCES
    ensures r.Success? ==> (Accepts(env, f.script, r.value) <==> env.checkSig(signature, key))
    ensures grinder.Sequential? && (forall k :: !grinder.cancelled(k)) ==>
      (r.Success? <==> exists n: nat :: n < NONCES && Hits(env.hash256, FakeHeader(signature, d), d, n))
    ensures grinder.External? ==>
      r.Success? == (grinder.answer.Some? && Hits(env.hash256, FakeHeader(signature, d), d, grinder.answer.value))
  {
    hide Accepts, Implements, FakeHeader, WithNonce, ValidPow, SplitPowWitness, WitnessStack, UnsignedClaimTx;
    ghost var nonce;
    r, nonce := BuildWitness(env.hash256, signature, key, d, grinder);
    if r.Success? {
      GroundHeaderUnlocks(env, f, signature, key, d, nonce);
    }
  }
}
