# powcoins-go, verified

The program claims coins of a Signet faucet. A coin is locked by a Taproot script that asks for proof of work: the
spender shows the pieces of a fake 80-byte block header whose double SHA-256 is small enough, and the easier the work,
the longer the coin must have been confirmed. This project models the parts of the program that have to fit together
for a claim to succeed, and proves that they do, or exactly when they do.

`dafny verify dfyconfig.toml` checks everything.

## What is modelled

* **The script machine and the three scripts** (`ScriptNum`, `Script`, `OpcodeRules`, `FaucetScripts`, `FaucetRun`,
  `FaucetTheorems`). The three programs are their bytes, as sequences of bytes that are parsed into opcodes. The machine
  has a main stack, an alternate stack, conditions, script numbers and byte strings, after the Specification sections of
  BIP 342, BIP 347 (OP_CAT), BIP 112 and BIP 68. The hash is any function to 32 bytes, and the signature check is an
  oracle. The main theorem, `AcceptsExactly`, is an equivalence over every initial stack of every height.
* **The witness builder** (`Grind`, `Claim`): fake header, difficulty test, sequential search, splitting, choice of
  coin, difficulty and relative lock, witness order. `GroundHeaderUnlocks` (what the Go code builds passes everything in
  the script up to the signature) and `AcceptedSpend` (whatever the script accepts was worth the work, and old enough)
  are its two halves; `CandidateUnlockableExactly` ties the choice of a coin to what its script accepts.
* **The search kernels** (`WordOps`, `Sha256`, `Constants`, `KnownAnswer`, `Kernel`, `MidstateProof`, `Difficulty`,
  `CheckNonce`, `WebGpu`): FIPS 180-4 with real words, bytes and padding; the ring schedule in place; the midstate with
  its hand-written padding words; the mask test on words; the code that the WebGPU backend generates, as statements that
  are run one after the other. `CheckNonceIsVerify` and `ShaderIsVerify` say that a kernel answers as `Verify` does. So
  that the standard is not only compared with itself, the word functions are described bit by bit, the constants are
  shown to be roots of the first primes, and the digest of "abc" is worked out.
* **The parallel search** (`Race`, `Batches`, `Search`, `Solvers`): threads that race on one cell, in every
  interleaving; the loop over batches; the sequential solver; and that they agree.
* **History scan and relay** (`Esplora`, `Relay`, `Dialogue`): the paged scan of funded outputs less spent ones, and
  the conversation with a peer, three loops that together keep to one table of answers (`ConversationExactly`).

Methods follow the loops and the updates of the source and are proved against functions and predicates; lemmas say what
those mean.

## What the proofs found

* The solver package measures difficulty as zero bits at the end of the hash (`shasolve/hal.go:101-122`), the claim path
  and the script compare the hash, read little-endian, with 2^(256-d) (`powcoins/grind.go:64-77`). README.md of the
  repository says that both follow the same rule. They agree on every hash exactly when d is a multiple of 8
  (`Solvers.TestsAgreeExactly`), and otherwise neither implies the other (`Solvers.NeitherImpliesOther`). A claim that
  is ground by an external solver can therefore fail in `splitPowWitness` after the work is done: that it cannot,
  whatever the header and the hash function, holds exactly for multiples of 8 (`Solvers.SplitSafeExactly`).
* The selection can offer difficulty 80, which the scripts refuse: exactly for coins that are younger, in the block
  after the tip, than the faucet's delay (`Claim.TopDifficultyExactly`, `Claim.TopDifficultyRejected`). Every other
  candidate can be spent at the difficulty and with the lock it is offered with (`Claim.CandidateUnlockableExactly`).
* An empty cell at the end of a batch means that the batch had nothing to report, in every run, exactly if the backend
  is CUDA or there was nothing to report anyway (`Race.EmptyMeansNoneExactly`). The weak compare-and-swap of the
  Metal and WebGPU kernels can lose every solution of any batch (`Race.WeakSwapCanMiss`). What is reported is still
  always valid.
* The sentinel 0xffffffff is also a nonce; the parallel search cannot report it. Under a strong swap it differs from the
  sequential search exactly when the range reaches the sentinel, the sentinel is valid and nothing before it is
  (`Search.SearchesAgree`). A job without a limit always reaches it (`Batches.Budget`).
* A short history scan may report a spent coin if one transaction pays two of the faucets. For faucets with different
  addresses and scripts, as the repository's three have, it is safe on all histories that a well-behaved server may have
  exactly if it reads no page at all or there are no two faucets (`Esplora.ShortScanSafeExactly`).
* The scan only takes a coin for spent if the server tells the script of the output that an input spends. A report that
  covers the histories is right exactly if every spend of a faucet coin can be seen in this way
  (`Esplora.CoveredScanExactly`); the code passes silently over inputs for which nothing is told
  (`powcoins/esplora.go:122-124`), and then it reports the coin (`Esplora.SilentSpendMisleads`).

## Model

| member | source | states |
|---|---|---|
| ScriptNum.Encode | powcoins/scripts.go:46-48 | the number an arithmetic opcode pushes decodes to itself, is minimal, and is short when the number is small |
| ScriptNum.MinimalRoundTrip | powcoins/scripts.go:46-48 | encoding undoes decoding on every minimal string |
| ScriptNum.MagnitudeIsLittleEndian | powcoins/scripts.go:46-48 | the magnitude of a script number is its little-endian value without the top bit of its last byte, which is the sign |
| Script.IsTrueExactly | powcoins/scripts.go:46-48 | a string is true if and only if it is not zero as a script number |
| Script.MinimalPushExactly | powcoins/scripts.go:46-48 | a push is minimal if and only if its bytes are not a number from -1 to 16, for which there are opcodes |
| Script.SequenceAllowsExactly | powcoins/scripts.go:46-48 | in terms of the 32-bit numbers of BIP 112: what an operand asks of version and sequence |
| Script.CheckSigSound | powcoins/scripts.go:46-48 | under a 32-byte key a signature check leaves 1 only if the signature is good, 0 only if it is empty, and touches nothing else |
| Script.LockOperands | powcoins/scripts.go:46-48 | a relative lock is read from at most five bytes, in which every 32-bit number fits |
| Script.AcceptsMeans | powcoins/scripts.go:46-48 | a stack is accepted if and only if its items fit, the bytes are a program, and that runs to a single item that is not zero |
| Script.ConditionsFollowVector | powcoins/scripts.go:46-48 | the two numbers kept for nested conditionals follow a vector of branch conditions through IF, ELSE and ENDIF |
| Script.ParseAppend | powcoins/scripts.go:46-48 | parsing a concatenation is parsing its parts, for any two byte programs |
| Script.RunAppend | powcoins/scripts.go:46-48 | running one program after another is running the two in turn, aborts included |
| Script.RunUnder | powcoins/scripts.go:46-48 | a successful run does not depend on, and does not change, items further down the stack |
| Script.RunHeight | powcoins/scripts.go:46-48 | a run adds at most two items an opcode to the two stacks |
| FaucetScripts.CodeParses | powcoins/scripts.go:46-48 | the bytes of a script parse to the common program around its delay part |
| FaucetScripts.DelaysParse | powcoins/scripts.go:46-48 | the bytes of the three delay parts parse to the doubling and adding programs |
| FaucetRun.PowerRuns | powcoins/scripts.go:46-48 | the seven nested conditionals turn the remaining bits r into 2^(8-r), for every r |
| FaucetRun.AsNumberRuns | powcoins/scripts.go:46-48 | appending 0x01 and subtracting 256 reads any byte as an unsigned number |
| FaucetRun.CheckLowRuns | powcoins/scripts.go:46-48 | any string is accepted as a difficulty exactly if it is a readable number of at least 16, and becomes d-16 |
| FaucetTheorems.ZerosRuns | powcoins/scripts.go:46-48 | the ladder leaves d/8 zero bytes on the alternate stack and d%8 on the main stack |
| FaucetTheorems.ByteRuns | powcoins/scripts.go:46-48 | hA passes exactly if it is one byte, below 2^(8-d%8) |
| FaucetTheorems.ProofRuns | powcoins/scripts.go:46-48 | the last part succeeds exactly if key and signature have their sizes, the header with the two size bytes hashes to hB, hA and the zeros, and the signature is good |
| FaucetTheorems.DelaysCompute | powcoins/scripts.go:46-48 | the three delay parts leave 10, 4 and 1 times (80-d) |
| FaucetTheorems.WholeRuns | powcoins/scripts.go:46-48 | the run on the seven items of a spend, on top of any stack: it leaves true above the rest if the spend satisfies the faucet, and aborts otherwise |
| FaucetScripts.BuildFaucetScripts | powcoins/scripts.go:56-101 | the loop makes three faucets, of delays 10, 4 and 1 in this order, each with difficulties from 16 to 80 and with the address and output script that are derived from its program |
| FaucetTheorems.FaucetsImplement | powcoins/scripts.go:37-49 | each of the three byte programs is the common program with a delay part that computes the delay stated beside it |
| FaucetTheorems.AcceptsExactly | powcoins/scripts.go:46-48 | a script accepts a stack if and only if the stack is the seven items of a spend whose difficulty, lock, pieces, hash and signature satisfy the faucet; for every stack |
| FaucetTheorems.ItemLimitOutOfReach | powcoins/scripts.go:46-48 | at no point of a run on seven items do the stacks exceed 1000 items |
| Grind.Uint32BytesValue | powcoins/grind.go:35 | the four bytes written for a nonce have its value, little-endian |
| Grind.PutUint32 | powcoins/grind.go:35 | bytes 76 to 79 are overwritten in place with the nonce, least significant byte first, and nothing else changes |
| Grind.ValidPowHash | powcoins/grind.go:64-77 | the loop with its early exits decides that the last d/8 bytes are zero and the next is below 2^(8-d%8) |
| Grind.ValidPowIsTarget | powcoins/grind.go:64-77 | the test holds if and only if the little-endian value of the hash is below 2^(256-d) |
| Grind.BuildFakeHeader | powcoins/grind.go:79-89 | the buffer that is filled is the 80 bytes of the fake header, for a signature of any length |
| Grind.FakeHeaderFields | powcoins/grind.go:79-89 | the header has version 3, the signature, cut off or filled up with zeros, in place of the two hashes, time 11 and nonce 0 |
| Grind.FakeHeaderTarget | powcoins/grind.go:79-89 | the compact target in bytes 72 to 75 is 2^(256-d), whatever nonce is written |
| Grind.GrindHeader | powcoins/grind.go:22-62 | the search returns the least valid nonce with its header, hash and tries = nonce+1; or exhausts after 2^32 tries with no valid nonce; or stops at the first poll after a miss that finds the context done, and none before it did; and rejects a wrong length or difficulty |
| Grind.UncancelledSearch | powcoins/grind.go:34-61 | uncancelled, the search succeeds if and only if a valid nonce exists, and otherwise fails after exactly 2^32 tries |
| Grind.SplitHash | powcoins/grind.go:91-108 | splitting succeeds exactly when the hash is below the target, fails with the error for that when it is not, and otherwise hB, hA and d/8 zero bytes make the hash again, with hA below 2^(8-d%8) |
| Grind.SplitHeader | powcoins/grind.go:91-108 | the header ground from a fake one is 0x03, prefix, signature, 0x0b, suffix |
| Claim.BestLegalDifficulty | powcoins/claim.go:142-152 | in heights: the difficulty chosen is the least in the range of the faucet whose lock, counted from the coin's block as BIP 68 does, has run out in the block after the tip |
| Claim.SelectCandidates | powcoins/claim.go:135-169 | the loop collects exactly the candidates, in order, and easiest and hardest bound the difficulties of all confirmed coins and are attained |
| Claim.CandidatesExactly | powcoins/claim.go:138-169 | the candidates are exactly the confirmed, payable coins in the wanted range, each with tip + 1 - height confirmations, its best legal difficulty and the lock of that; one for each such position of the scan, in its order |
| Claim.FaucetLocks | powcoins/claim.go:149 | the transaction has version 2 and sequence delay*(80-d), which is the number the script computes, and satisfies it |
| Claim.PiecesRebuildHeader | powcoins/claim.go:223-237 | the header that the script rebuilds from the witness is the header that was ground |
| Claim.GroundHeaderUnlocks | powcoins/claim.go:214-237 | completeness: for every signature, key, faucet and d from 16 to 79, a ground header splits, and its witness under the lock of the claim is accepted exactly when the signature is good |
| Claim.AcceptedSpend | powcoins/scripts.go:46-48 | soundness: for every accepted stack d is from 16 to 79, the lock in force is in blocks and at least delay*(80-d), the hash of the rebuilt header is below 2^(256-d) and passes validPowHash, and the key has signed |
| Claim.TopDifficultyExactly | powcoins/claim.go:142-152 | a coin is offered below difficulty 80 if and only if its height and the delay of its faucet do not exceed that of the next block |
| Claim.TopDifficultyRejected | powcoins/scripts.go:46-48 | no witness at difficulty 80 is accepted |
| Claim.RangeExactly | powcoins/scripts.go:46-48 | for every faucet, some witness of difficulty d is accepted in a transaction with the lock of d if and only if minDiff <= d < maxDiff |
| Claim.CandidateUnlockableExactly | powcoins/claim.go:138-169 | a candidate of any faucet has a difficulty from 16 to 80, and some witness of that difficulty is accepted under the lock offered if and only if the coin is as old as the delay in the block after the tip |
| Claim.BuildWitness | powcoins/claim.go:214-237 | the witness is that of a ground header for the signature; with the sequential search it is built exactly when a valid nonce exists, with an external solver exactly when the answer passes the test of the claim |
| Claim.BuildSpend | powcoins/claim.go:189-237 | for every faucet and d from 16 to 79 the witness that is built is accepted, under the lock put on the transaction, exactly when the signature is good; and it is built exactly when the grinder finds a valid nonce |
| WordOps.ChChooses | shasolve/webgpu.go:288 | each bit of ch is that of y or z, as the bit of x says |
| WordOps.MajAgrees12 | shasolve/webgpu.go:289 | where two arguments of maj agree it agrees with them (with MajAgrees13 and MajAgrees23) |
| WordOps.Xor3Third | shasolve/webgpu.go:290-293 | where two terms of a sigma function agree it has the bits of the other (with Xor3Second and Xor3First) |
| WordOps.RotrOne | shasolve/webgpu.go:287 | rotating by one place halves a word and puts its low bit at the top |
| WordOps.RotrNext | shasolve/webgpu.go:287 | rotating by n + 1 places is rotating by n and by one |
| WordOps.ShrNext | shasolve/webgpu.go:292-293 | shifting by n + 1 places is halving after a shift by n |
| WordOps.SigmaRotations | shasolve/webgpu.go:290-293 | the sigma functions rotate and shift by the amounts of FIPS 180-4 |
| Constants.RoundConstantsAreCubeRoots | shasolve/webgpu.go:295-312 | each of the 64 round constants is the first 32 bits of the fractional part of the cube root of its prime: with n the integer part of the root and c = n*2^32 + K[i], c^3 <= p*2^96 < (c+1)^3 |
| Constants.InitialWordsAreSquareRoots | shasolve/cuda_impl.c:125 | so are the initial words for the square roots of the first eight primes |
| KnownAnswer.Sha256OfAbc | shasolve/webgpu.go:264-285 | the hash function on which all of this rests takes "abc" to its published digest |
| Kernel.RingStep | shasolve/cuda_impl.c:124 | the word computed from the ring is the next schedule word, and storing it keeps the ring invariant |
| Kernel.NextW | shasolve/cuda_impl.c:124 | nextw returns schedule word i and advances the ring in place |
| Kernel.CompressRing | shasolve/cuda_impl.c:126-131 | the in-place ring compression is the compression function of FIPS 180-4, for every state and block, and leaves the last sixteen schedule words in the ring |
| Kernel.CompressPlain | shasolve/cuda_impl.c:78-83 | so is the plain form with 64 schedule words |
| Kernel.PowcoinMidstate | shasolve/webgpu.go:242-257 | the midstate is the state after the first 64 bytes, and the tail is words 16 to 18 |
| Kernel.NonceWordIsHeaderWord | shasolve/cuda_impl.c:138 | shifts and masks put the nonce where its bytes stand in the header, read big-endian |
| MidstateProof.WordRoundTrip | shasolve/webgpu.go:259-262 | words survive being written as bytes and read again |
| MidstateProof.TailBlockIsParsed | shasolve/cuda_impl.c:138-139 | the hand-written second block is the second block of the padded header |
| MidstateProof.DigestBlockIsParsed | shasolve/cuda_impl.c:140 | the hand-written block of the second hash is the padded digest |
| MidstateProof.FastDoubleHashCorrect | shasolve/cuda_impl.c:134-142 | from midstate and tail words, the kernels compute double SHA-256 of the header with its nonce |
| Difficulty.TrailingZeroBits | shasolve/hal.go:101-116 | the loop counts the zero bits at the end of the hash |
| Difficulty.TrailingZerosMeaning | shasolve/hal.go:101-116 | there are at least d of them if and only if the big-endian value is a multiple of 2^d |
| Difficulty.WordTest | shasolve/cuda_impl.c:132 | the mask test on a word counts the zero bits at the end of its four bytes |
| Difficulty.KernelTestExact | shasolve/cuda_impl.c:133 | the test on three words is the test on the bytes of the digest, up to 96 bits |
| Difficulty.BuildWebGPUDifficultyCheck | shasolve/webgpu.go:332-352 | the loop emits the comparisons of the recursive description |
| Difficulty.GeneratedTestExact | shasolve/webgpu.go:332-352 | the emitted condition holds of a hash exactly when the kernels' test does |
| CheckNonce.HeaderHash | shasolve/hal.go:93-99 | double SHA-256 of the header with the nonce in bytes 76 to 79 |
| CheckNonce.Verify | shasolve/hal.go:118-122 | accepts exactly the nonces whose hash has that many zero bits, and returns their number |
| CheckNonce.CheckNonce | shasolve/cuda_impl.c:134-142 | the optimised kernel's check tests the fast double hash |
| CheckNonce.CheckNoncePlain | shasolve/cuda_impl.c:87-95 | the plain kernel's check tests the same hash, computed from the header itself |
| CheckNonce.CheckNonceIsVerify | shasolve/cuda_impl.c:134-142 | for every header, nonce and difficulty up to 96 the kernels answer as Verify does |
| CheckNonce.PrepareAndCheck | shasolve/cuda_impl.c:378-380 | midstate on the host followed by the check on the device answers as Verify does |
| WebGpu.BuildWebGPUCompress | shasolve/webgpu.go:354-373 | the generator writes eight loads, 64 rounds and eight stores |
| WebGpu.ConstantsKeepValue | shasolve/webgpu.go:354-373 | what a generated program declares with let keeps its value to the end |
| WebGpu.RoundRuns | shasolve/webgpu.go:359-368 | the statements of one generated round do one round of the compression function, keep the ring invariant, and declare two new constants |
| WebGpu.GeneratedCompressCorrect | shasolve/webgpu.go:354-373 | code generation preserves meaning: on any arrays the generated program runs without a fault and leaves the state and the ring of the compression function |
| WebGpu.RingUnique | shasolve/webgpu.go:264-285 | the ring invariant determines the array, so the generated code and the loop leave the same w |
| WebGpu.ShaderHashIsFast | shasolve/webgpu.go:415-439 | two runs of the generated function in the shader compute the kernels' double hash, without a fault |
| WebGpu.ShaderIsVerify | shasolve/webgpu.go:415-439 | the shader generated for a header and difficulty never faults and answers as Verify does |
| Race.StepKeeps | shasolve/cuda_impl.c:143-149 | every step of every thread keeps the invariant: the cell holds the sentinel or a hit, threads that swap have a hit, and nothing is lost unless a swap fails on an empty cell |
| Race.WrittenOnce | shasolve/cuda_impl.c:143-149 | in every interleaving the cell, once written, keeps its nonce |
| Race.RaceOutcome | shasolve/cuda_impl.c:143-149 | after any complete run a nonce in the cell is a valid nonce of the batch, and with a strong swap the sentinel means that the batch has no valid nonce but the sentinel itself |
| Race.MissNeedsLostSwap | shasolve/metal_impl_darwin.m:46-49 | on any backend a hit is missed only if a swap failed on an empty cell |
| Race.EmptyEndExactly | shasolve/metal_impl_darwin.m:46-49 | for every backend, batch and set of valid nonces, some complete run ends with an empty cell if and only if the backend is not CUDA or the batch has no valid nonce but the sentinel |
| Race.EmptyMeansNoneExactly | shasolve/webgpu.go:441-450 | in every run an empty cell means that the batch had nothing to report, if and only if the backend is CUDA or it had nothing to report |
| Race.WeakSwapCanMiss | shasolve/webgpu.go:441-450 | so Metal and WebGPU can lose every solution of any batch |
| Race.SkipsExactly | shasolve/cuda_impl.c:143-149 | a thread may end without computing, because the cell is filled, if and only if the backend is not WebGPU and the cell is filled |
| Race.RunLength | shasolve/cuda_impl.c:143-149 | every run is finite, with at most three steps a thread |
| Race.CompleteRunExists | shasolve/cuda_impl.c:143-149 | every batch has a complete run, so no thread gets stuck, and one that leaves the cell empty where that is possible |
| Batches.BatchSize | shasolve/cuda_linux.go:28-34 | the batch size is the solver's own, or else the job's, or else the default, and never above the default, which is 16776960 |
| Batches.Budget | shasolve/cuda_linux.go:39-42 | an unstated limit reaches exactly to the last nonce |
| Batches.SolveInBatches | shasolve/cuda_impl.c:403-445 | the loop ends; its batches tile the examined part of the range from the start, only the last one short; what it finds is a hit of its last batch; if it finds nothing it reached the limit or the last nonce; under a strong swap no other batch, and no nonce before the limit, the last nonce or the batch with the hit, had anything to report; all this also where nonces wrap around; for ranges within the nonces tries is b*((found-s)/b+1) capped at the limit, or the limit; the WebGPU loop stops before the first batch at which its context is done |
| Search.SolveOnCpu | shasolve/cpu.go:19-39 | the sequential search returns the first valid nonce and the number tried, or that there is none up to the limit or the last nonce, or that the context was done, the first time it was |
| Search.SearchesAgree | shasolve/cpu.go:20-39 | under a strong swap the batches find a nonce exactly when the sequential search does, except when the range reaches the sentinel, which is valid, and nothing before it is; and the two are in the same batch |
| Search.SearchesAgreeBeyond | shasolve/cpu.go:20-39 | for any limit, under a strong swap the batches find something whenever the sequential search finds a nonce but the sentinel; what they find where it finds nothing is a nonce before the start, to which the last batch wrapped around |
| Search.FoundAfterFirst | shasolve/webgpu.go:163-225 | under any swap what the batches find is no smaller than the first hit |
| Solvers.EffectiveBatchSize | shasolve/metal_darwin.go:52-55 | all cases of the batch size: as above for CUDA and WebGPU, and without the cap for Metal |
| Solvers.KernelAcceptsVerified | shasolve/cuda_impl.c:134-142 | for every header and difficulty up to 80 the kernels accept exactly the nonces that Verify accepts |
| Solvers.DeviceAcceptsVerified | shasolve/webgpu.go:441-450 | the threads of every backend accept exactly the nonces that Verify accepts, those of WebGPU running the generated shader |
| Solvers.MakeResult | shasolve/hal.go:130-146 | the result of a nonce holds its header, the double SHA-256 of that, and the number of zero bits |
| Solvers.Solve | shasolve/cuda_linux.go:24-82 | for every backend the result holds a nonce that satisfies Verify; it fails on a difficulty above 80, or because the context was done when it was asked, for WebGPU before the first such batch; otherwise the outcome is that of the batch search for Verify, also where nonces wrap around |
| Solvers.SolveSequentially | shasolve/cpu.go:13-40 | the sequential solver refuses a difficulty above 80, and otherwise its outcome is that of the sequential search for Verify |
| Solvers.SolversAgree | shasolve/cuda_impl.c:403-445 | parallel and sequential search agree for Verify itself, and both nonces satisfy it |
| Solvers.SameForWholeBytes | powcoins/grind.go:64-77 | for a multiple of 8 the two difficulty tests agree on every hash |
| Solvers.NeitherImpliesOther | shasolve/hal.go:101-122 | for any other difficulty there is a hash that passes only the one and a hash that passes only the other |
| Solvers.TestsAgreeExactly | powcoins/claim.go:291-313 | the solver's test implies, or equals, the claim's on all hashes if and only if the difficulty is a multiple of 8 |
| Solvers.SplitSafeExactly | powcoins/grind.go:91-98 | a header that meets the solver's test is sure to be split, for every header and hash function, if and only if the difficulty is a multiple of 8 |
| Solvers.SolveClaim | powcoins/claim.go:296-302 | the job of a claim leaves start, limit and batch size to the solver, sequential or parallel with a batch size of its own; the result satisfies Verify; uncancelled, the outcome of every backend is that of the batch search over all 2^32 nonces, the sequential solver finds a nonce exactly if there is one, and CUDA exactly if there is one but the sentinel; cancelled, it stops |
| Solvers.ClaimWithSolver | powcoins/claim.go:291-313 | a claim ground by any solver yields a witness exactly when the found hash is below the target too, which is certain for multiples of 8; what the solver answers is what SolveClaim says |
| Esplora.AfterLastSeen | powcoins/esplora.go:102-105 | a page after the last transaction seen starts with the next one |
| Esplora.ScanInputs | powcoins/esplora.go:121-128 | the loop adds exactly the outpoints that the transaction takes from faucet scripts |
| Esplora.ScanOutputs | powcoins/esplora.go:132-146 | the loop adds exactly the faucet outputs of a confirmed transaction |
| Esplora.ScanAddress | powcoins/esplora.go:99-152 | paging collects exactly the first 25 * maxPages transactions of the history, each once |
| Esplora.Subtract | powcoins/esplora.go:155-161 | the report is the funded outputs that are not spent, without duplicates |
| Esplora.FaucetUtxos | powcoins/esplora.go:86-163 | the coins reported are, without duplicates, those that the transactions seen fund and none of them spends |
| Esplora.ScanGoesBy | powcoins/esplora.go:121-146 | what the scan takes for funded is a confirmed output with a faucet's script, with its own value and height and the last faucet of that script; what it takes for spent is an outpoint that some input spends whose prevout tells a faucet's script |
| Esplora.CoveredScanExactly | powcoins/esplora.go:99-161 | when the pages cover every history the report is exactly the confirmed faucet outputs that no input in the histories spends, if and only if every spend of such an output is seen, in an input that tells a faucet script |
| Esplora.CoveredScanIsExact | powcoins/esplora.go:99-161 | so it is when inputs tell the faucet scripts that they spend from |
| Esplora.SilentSpendMisleads | powcoins/esplora.go:122-124 | the hypothesis is needed: with all else in order, a listed spend that tells nothing makes every report hold a spent coin |
| Esplora.ShortScanIsSafe | powcoins/esplora.go:99-161 | however few pages are read no coin is reported that an input in the histories spends, if no transaction touches two faucets and the server is well-behaved: newest first, faithful, consistent, telling what is spent |
| Esplora.ReportExists | powcoins/esplora.go:155-161 | whatever was seen, there is a report of it |
| Esplora.TwoFaucetsMislead | powcoins/esplora.go:99-161 | for any two faucets and any number of pages there is a well-behaved history on which every report holds a spent coin |
| Esplora.ShortScanSafeExactly | powcoins/esplora.go:99-161 | for faucets with different addresses and scripts, no report on any well-behaved history holds a spent coin, if and only if no page is read or there are no two faucets |
| Relay.Connection.HandlePing | powcoins/relay.go:203-212 | the state and result after a ping are those of the specification |
| Relay.Connection.Handshake | powcoins/relay.go:89-116 | the loop ends in the state and with the result that the specification gives for the messages |
| Relay.Connection.ListenForPeerMessages | powcoins/relay.go:160-177 | so does the loop that listens after the transaction |
| Relay.Connection.RelayTx | powcoins/relay.go:85-158 | so does the whole conversation |
| Relay.Requested | powcoins/relay.go:144-156 | the loop over a getdata list finds the hash under either transaction type |
| Relay.TransactionOnRequest | powcoins/relay.go:89-157 | for all messages of a peer, the transaction is sent at most once, right after a getdata that names it, after its announcement, which follows both version and verack |
| Relay.PingsAnswered | powcoins/relay.go:203-212 | for all messages each ping that decodes is followed at once by one pong with its nonce, and there are no other pongs, unless the write of that pong failed and the conversation ended there |
| Relay.ConversationKeepsStream | powcoins/relay.go:91-157 | what was heard, followed by what is unread, is what the peer sent |
| Dialogue.ConversationExactly | powcoins/relay.go:85-177 | for every peer and any number of writes that succeed, the conversation is the one, and the only one, that follows the table: the version first, then after each message the answer that depends on what was heard before it (verack, pong, the transaction), the announcement after the message that completes the handshake; it ends with the first message that does not decode where it is looked into, with the request if nobody listens, at the end of the messages, or with the first write that fails; and this gives the whole log, the result and what is left |
| Dialogue.OneEnd | powcoins/relay.go:85-177 | the table leaves nothing open: two conversations that follow it with the same messages and writes are the same |
| Dialogue.DoneMeansSent | powcoins/relay.go:126-157 | success means that the transaction was sent, and without listening sending it means success |
| Dialogue.DoneExactly | powcoins/relay.go:89-177 | while writes succeed the caller is told of success if and only if the peer completes the handshake and then asks for the transaction before anything that does not decode, and, if it is listened to, the time runs out and no ping is malformed |
| Relay.SentExactlyWhenServed | powcoins/relay.go:89-157 | while writes succeed the transaction is sent if and only if the peer completes the handshake and then asks for it before anything that does not decode |

## Left out

- Elliptic curves, Taproot keys and addresses, and the making of signatures: library code. The signature check is an
  oracle on signature and key, and signatures are byte strings.
- The hex text of the scripts: the programs are written as bytes.
- Opcodes that the three scripts do not use, OP_SUCCESS, the signature budget of BIP 342, control blocks and script
  hashes.
- SHA-256 in the script part: the hash is any function to 32 bytes. The bound of 2^64 bits on messages in FIPS 180-4
  does not arise.
- Device and driver calls, buffers, shader compilation, dynamic loading, and the breaks of the loops when such a call
  fails: every call succeeds.
- The text of the generated shader: its statements and conditions are data, and the arithmetic helpers it calls are the
  functions they define.
- Batches.SolveInBatches: the formula for tries in terms of the nonce found is stated for ranges that end at or before the
  last nonce; past it the device wraps around inside the last batch.
- HTTP, JSON, sockets, deadlines, message framing and checksums, progress callbacks, hash rates and elapsed time. A peer
  is the sequence of its messages, a server is the history of each address.
- Scoring, sorting and confirming candidates, fees, dust and transaction identifiers: whether a coin can pay is a
  parameter of the selection.
- The 32-bit width of output indices, and the 64-bit width of heights and locks.
- Command line, benchmarks and the choice of a backend.
