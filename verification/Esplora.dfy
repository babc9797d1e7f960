/** The history scan that finds the faucet's unspent coins (powcoins/esplora.go). */
module Esplora {
  import opened Bytes
  import opened FaucetScripts

  const PAGE := 25

  datatype Outpoint = Outpoint(txid: string, vout: nat)

  /** prevout is what the server says about the output that is spent, if it says anything. */
  datatype Input = Input(spends: Outpoint, prevout: Option<string>)

  datatype Output = Output(scriptPubKey: string, value: int)

  datatype Tx = Tx(txid: string, confirmed: bool, blockHeight: int, vin: seq<Input>, vout: seq<Output>)

  datatype Utxo = Utxo(txid: string, vout: nat, value: int, blockHeight: int, script: FaucetScript) {
    function Op(): Outpoint {
      Outpoint(txid, vout)
    }
  }

  /** The faucets by their output script, a later one replacing an earlier one with the same script. */
  function BySpk(faucets: seq<FaucetScript>): map<string, FaucetScript> {
    if faucets == [] then map[] else
    BySpk(faucets[..|faucets| - 1])[faucets[|faucets| - 1].scriptPubKey := faucets[|faucets| - 1]]
  }

  // The server keeps the transactions of each address, newest first, and hands them out in pages.

  function First(txs: seq<Tx>, n: nat): seq<Tx> {
    if |txs| <= n then txs else txs[..n]
  }

  /** What follows a transaction in a history. */
  function After(history: seq<Tx>, lastSeen: string): seq<Tx> {
    if history == [] then []
    else if history[0].txid == lastSeen then history[1..]
    else After(history[1..], lastSeen)
  }

  function PageOf(history: seq<Tx>, lastSeen: string): seq<Tx> {
    First(if lastSeen == "" then history else After(history, lastSeen), PAGE)
  }

  ghost predicate WellNumbered(history: seq<Tx>) {
    && (forall i :: 0 <= i < |history| ==> history[i].txid != "")
    && (forall i, j :: 0 <= i < j < |history| ==> history[i].txid != history[j].txid)
  }

  lemma {:induction false} AfterLastSeen(history: seq<Tx>, n: nat)
    requires 0 < n <= |history| && WellNumbered(history)
    ensures After(history, history[n - 1].txid) == history[n..]
  {
    if n > 1 {
      var rest := history[1..];
      assert forall i, j :: 0 <= i < j < |rest| ==>
        rest[i].txid == history[i + 1].txid && rest[j].txid == history[j + 1].txid;
      assert history[0].txid != history[n - 1].txid;
      AfterLastSeen(rest, n - 1);
      assert rest[n - 1..] == history[n..];
    }
  }

  // What a transaction does to the coins of the faucets.

  predicate Takes(spk: map<string, FaucetScript>, input: Input, op: Outpoint) {
    input.spends == op && input.prevout.Some? && input.prevout.value in spk
  }

  predicate Spends(spk: map<string, FaucetScript>, tx: Tx, op: Outpoint) {
    exists i :: 0 <= i < |tx.vin| && Takes(spk, tx.vin[i], op)
  }

  predicate Funds(spk: map<string, FaucetScript>, tx: Tx, c: Utxo) {
    && tx.confirmed && c.txid == tx.txid && c.vout < |tx.vout|
    && var out := tx.vout[c.vout];
    && out.scriptPubKey in spk
    && c == Utxo(c.txid, c.vout, out.value, tx.blockHeight, spk[out.scriptPubKey])
  }

  /** What the scan has collected after some transactions. */
  ghost predicate Collected(spk: map<string, FaucetScript>, txs: seq<Tx>, funded: map<Outpoint, Utxo>,
                            spent: set<Outpoint>)
  {
    && (forall op :: op in spent <==> exists tx :: tx in txs && Spends(spk, tx, op))
    && (forall op :: op in funded ==> funded[op].Op() == op && exists tx :: tx in txs && Funds(spk, tx, funded[op]))
    && (forall tx, c :: tx in txs && Funds(spk, tx, c) ==> c.Op() in funded)
  }

  method ScanInputs(spk: map<string, FaucetScript>, tx: Tx, spent0: set<Outpoint>) returns (spent: set<Outpoint>)
    ensures forall op :: op in spent <==> op in spent0 || Spends(spk, tx, op)
  {
    spent := spent0;
    for i := 0 to |tx.vin|
      invariant forall op :: op in spent <==> op in spent0 || exists k :: 0 <= k < i && Takes(spk, tx.vin[k], op)
    {
      var input := tx.vin[i];
      if input.prevout.None? {
        continue;
      }
      if input.prevout.value in spk {
        spent := spent + {input.spends};
      }
    }
  }

  method ScanOutputs(spk: map<string, FaucetScript>, tx: Tx, funded0: map<Outpoint, Utxo>)
    returns (funded: map<Outpoint, Utxo>)
    requires tx.confirmed
    ensures forall op :: op in funded0 ==> op in funded
    ensures forall op :: op in funded ==>
      (op in funded0 && funded[op] == funded0[op]) || (funded[op].Op() == op && Funds(spk, tx, funded[op]))
    ensures forall c :: Funds(spk, tx, c) ==> c.Op() in funded
  {
    funded := funded0;
    for i := 0 to |tx.vout|
      invariant forall op :: op in funded0 ==> op in funded
      invariant forall op :: op in funded ==>
        (op in funded0 && funded[op] == funded0[op]) || (funded[op].Op() == op && Funds(spk, tx, funded[op]))
      invariant forall c :: Funds(spk, tx, c) && c.vout < i ==> c.Op() in funded
    {
      var out := tx.vout[i];
      if out.scriptPubKey !in spk {
        continue;
      }
      var op := Outpoint(tx.txid, i);
      var coin := Utxo(tx.txid, i, out.value, tx.blockHeight, spk[out.scriptPubKey]);
      assert Funds(spk, tx, coin);
      funded := funded[op := coin];
    }
  }

  lemma CollectSpent(spk: map<string, FaucetScript>, txs: seq<Tx>, tx: Tx, spent: set<Outpoint>, more: set<Outpoint>)
    requires forall op :: op in spent <==> exists t :: t in txs && Spends(spk, t, op)
    requires forall op :: op in more <==> op in spent || Spends(spk, tx, op)
    ensures forall op :: op in more <==> exists t :: t in txs + [tx] && Spends(spk, t, op)
  {
    hide Spends;
    assert tx in txs + [tx];
    assert forall t :: t in txs + [tx] <==> t in txs || t == tx;
  }

  lemma CollectFunded(spk: map<string, FaucetScript>, txs: seq<Tx>, tx: Tx, funded0: map<Outpoint, Utxo>,
                      funded: map<Outpoint, Utxo>)
    requires forall op :: op in funded0 ==>
               funded0[op].Op() == op && exists t :: t in txs && Funds(spk, t, funded0[op])
    requires forall t, c :: t in txs && Funds(spk, t, c) ==> c.Op() in funded0
    requires forall op :: op in funded0 ==> op in funded
    requires forall op :: op in funded ==>
      (op in funded0 && funded[op] == funded0[op]) || (funded[op].Op() == op && Funds(spk, tx, funded[op]))
    requires forall c :: Funds(spk, tx, c) ==> c.Op() in funded
    ensures forall op :: op in funded ==>
              funded[op].Op() == op && exists t :: t in txs + [tx] && Funds(spk, t, funded[op])
    ensures forall t, c :: t in txs + [tx] && Funds(spk, t, c) ==> c.Op() in funded
  {
    hide Funds;
    assert tx in txs + [tx];
    assert forall t :: t in txs + [tx] <==> t in txs || t == tx;
    forall op | op in funded
      ensures exists t :: t in txs + [tx] && Funds(spk, t, funded[op])
    {
      if op in funded0 && funded[op] == funded0[op] {
        var t :| t in txs && Funds(spk, t, funded0[op]);
        assert t in txs + [tx];
      }
    }
  }

  /** The body of the loop over transactions. */
  method ScanTx(spk: map<string, FaucetScript>, tx: Tx, funded0: map<Outpoint, Utxo>, spent0: set<Outpoint>,
                ghost txs: seq<Tx>)
    returns (funded: map<Outpoint, Utxo>, spent: set<Outpoint>)
    requires Collected(spk, txs, funded0, spent0)
    ensures Collected(spk, txs + [tx], funded, spent)
  {
    spent := ScanInputs(spk, tx, spent0);
    CollectSpent(spk, txs, tx, spent0, spent);
    funded := funded0;
    if tx.confirmed {
      funded := ScanOutputs(spk, tx, funded0);
    }
    CollectFunded(spk, txs, tx, funded0, funded);
  }

  /** How much of a history so many pages show. */
  function Shown(history: seq<Tx>, maxPages: nat): seq<Tx> {
    First(history, 25 * maxPages)
  }

  lemma NextPage(history: seq<Tx>, n: nat, lastSeen: string)
    requires WellNumbered(history) && n <= |history| && lastSeen == if n == 0 then "" else history[n - 1].txid
    ensures PageOf(history, lastSeen) == First(history[n..], PAGE)
  {
    if n > 0 {
      AfterLastSeen(history, n);
    }
  }

  lemma EnoughShown(history: seq<Tx>, n: nat, maxPages: nat)
    requires n == PAGE * maxPages <= |history| || n == |history| <= PAGE * maxPages
    ensures history[..n] == Shown(history, maxPages)
  {
  }

  /** The loop over the pages of one address. */
  method ScanAddress(spk: map<string, FaucetScript>, history: seq<Tx>, maxPages: nat,
                     funded0: map<Outpoint, Utxo>, spent0: set<Outpoint>, ghost before: seq<Tx>)
    returns (funded: map<Outpoint, Utxo>, spent: set<Outpoint>)
    requires WellNumbered(history) && Collected(spk, before, funded0, spent0)
    ensures Collected(spk, before + Shown(history, maxPages), funded, spent)
  {
    hide Collected, PageOf, Shown;
    funded, spent := funded0, spent0;
    var lastSeen := "";
    assert before + history[..0] == before;
    for page := 0 to maxPages
      invariant PAGE * page <= |history|
      invariant Collected(spk, before + history[..PAGE * page], funded, spent)
      invariant lastSeen == if page == 0 then "" else history[PAGE * page - 1].txid
    {
      var txs := PageOf(history, lastSeen);
      ghost var n := PAGE * page;
      NextPage(history, n, lastSeen);
      if |txs| == 0 {
        EnoughShown(history, n, maxPages);
        return;
      }
      for i := 0 to |txs|
        invariant Collected(spk, before + history[..n + i], funded, spent)
      {
        assert txs[i] == history[n + i];
        assert (before + history[..n + i]) + [txs[i]] == before + history[..n + i + 1];
        funded, spent := ScanTx(spk, txs[i], funded, spent, before + history[..n + i]);
      }
      if |txs| < PAGE {
        EnoughShown(history, n + |txs|, maxPages);
        return;
      }
      lastSeen := txs[|txs| - 1].txid;
    }
    EnoughShown(history, PAGE * maxPages, maxPages);
  }

  /** Everything that a scan sees. */
  function AllShown(faucets: seq<FaucetScript>, histories: string -> seq<Tx>, maxPages: nat): seq<Tx> {
    if faucets == [] then [] else
    AllShown(faucets[..|faucets| - 1], histories, maxPages) +
    Shown(histories(faucets[|faucets| - 1].address), maxPages)
  }

  ghost predicate NoDuplicates(coins: seq<Utxo>) {
    forall i, j :: 0 <= i < j < |coins| ==> coins[i].Op() != coins[j].Op()
  }

  /** What the coins reported are, in terms of the transactions that were seen. */
  ghost predicate Unspent(spk: map<string, FaucetScript>, txs: seq<Tx>, coins: seq<Utxo>) {
    && NoDuplicates(coins)
    && (forall c :: c in coins ==>
          (exists tx :: tx in txs && Funds(spk, tx, c)) && !exists tx :: tx in txs && Spends(spk, tx, c.Op()))
    && (forall tx, c :: tx in txs && Funds(spk, tx, c) && (!exists t :: t in txs && Spends(spk, t, c.Op())) ==>
          exists d :: d in coins && d.Op() == c.Op())
  }

  lemma CollectedNothing(spk: map<string, FaucetScript>)
    ensures Collected(spk, [], map[], {})
  {
  }

  lemma CollectedOutpoints(spk: map<string, FaucetScript>, txs: seq<Tx>, funded: map<Outpoint, Utxo>,
                           spent: set<Outpoint>)
    requires Collected(spk, txs, funded, spent)
    ensures forall op :: op in funded ==> funded[op].Op() == op
  {
  }

  method BuildBySpk(faucets: seq<FaucetScript>) returns (spk: map<string, FaucetScript>)
    ensures spk == BySpk(faucets)
  {
    spk := map[];
    for i := 0 to |faucets|
      invariant spk == BySpk(faucets[..i])
    {
      assert faucets[..i + 1][..i] == faucets[..i];
      spk := spk[faucets[i].scriptPubKey := faucets[i]];
    }
    assert faucets[..|faucets|] == faucets;
  }

  /** The last loop, over the funded outputs in some order. */
  method Subtract(funded: map<Outpoint, Utxo>, spent: set<Outpoint>) returns (utxos: seq<Utxo>)
    requires forall op :: op in funded ==> funded[op].Op() == op
    ensures NoDuplicates(utxos)
    ensures forall c :: c in utxos <==> c.Op() in funded && c == funded[c.Op()] && c.Op() !in spent
  {
    utxos := [];
    var left := funded.Keys;
    while left != {}
      invariant left <= funded.Keys
      invariant NoDuplicates(utxos)
      invariant forall c :: c in utxos <==>
        c.Op() in funded && c.Op() !in left && c == funded[c.Op()] && c.Op() !in spent
      decreases left
    {
      var op :| op in left;
      left := left - {op};
      if op in spent {
        continue;
      }
      utxos := utxos + [funded[op]];
    }
  }

  lemma SubtractIsUnspent(spk: map<string, FaucetScript>, txs: seq<Tx>, funded: map<Outpoint, Utxo>,
                          spent: set<Outpoint>, coins: seq<Utxo>)
    requires Collected(spk, txs, funded, spent) && NoDuplicates(coins)
    requires forall c :: c in coins <==> c.Op() in funded && c == funded[c.Op()] && c.Op() !in spent
    ensures Unspent(spk, txs, coins)
  {
    hide Spends, Funds;
    forall tx, c | tx in txs && Funds(spk, tx, c) && !exists t :: t in txs && Spends(spk, t, c.Op())
      ensures exists d :: d in coins && d.Op() == c.Op()
    {
      assert funded[c.Op()] in coins;
    }
  }

  method FaucetUtxos(faucets: seq<FaucetScript>, histories: string -> seq<Tx>, maxPages: nat) returns (utxos: seq<Utxo>)
    requires forall f :: f in faucets ==> WellNumbered(histories(f.address))
    ensures Unspent(BySpk(faucets), AllShown(faucets, histories, maxPages), utxos)
  {
    hide Collected, BySpk, Shown, Unspent;
    var spk := BuildBySpk(faucets);
    var funded: map<Outpoint, Utxo> := map[];
    var spent: set<Outpoint> := {};
    CollectedNothing(spk);
    for i := 0 to |faucets|
      invariant Collected(spk, AllShown(faucets[..i], histories, maxPages), funded, spent)
    {
      assert faucets[..i + 1][..i] == faucets[..i];
      funded, spent := ScanAddress(spk, histories(faucets[i].address), maxPages, funded, spent,
                                   AllShown(faucets[..i], histories, maxPages));
    }
    assert faucets[..|faucets|] == faucets;
    CollectedOutpoints(spk, AllShown(faucets, histories, maxPages), funded, spent);
    utxos := Subtract(funded, spent);
    SubtractIsUnspent(spk, AllShown(faucets, histories, maxPages), funded, spent, utxos);
  }

  // What the report means for the whole histories.

  predicate InHistory(faucets: seq<FaucetScript>, histories: string -> seq<Tx>, tx: Tx) {
    exists f :: f in faucets && tx in histories(f.address)
  }

  /** Every transaction tells the same wherever it is listed. */
  ghost predicate Consistent(faucets: seq<FaucetScript>, histories: string -> seq<Tx>) {
    forall t, u :: InHistory(faucets, histories, t) && InHistory(faucets, histories, u) && t.txid == u.txid ==> t == u
  }

  ghost predicate Covered(faucets: seq<FaucetScript>, histories: string -> seq<Tx>, maxPages: nat) {
    forall f :: f in faucets ==> |histories(f.address)| <= 25 * maxPages
  }

  lemma {:induction false} SeenIsShown(faucets: seq<FaucetScript>, histories: string -> seq<Tx>, maxPages: nat, tx: Tx)
    ensures tx in AllShown(faucets, histories, maxPages) <==>
            exists f :: f in faucets && tx in Shown(histories(f.address), maxPages)
  {
    hide Shown;
    if faucets != [] {
      var rest, last := faucets[..|faucets| - 1], faucets[|faucets| - 1];
      assert forall f :: f in faucets <==> f in rest || f == last;
      SeenIsShown(rest, histories, maxPages, tx);
    }
  }

  lemma SeenInHistory(faucets: seq<FaucetScript>, histories: string -> seq<Tx>, maxPages: nat, tx: Tx)
    requires tx in AllShown(faucets, histories, maxPages)
    ensures InHistory(faucets, histories, tx)
  {
    SeenIsShown(faucets, histories, maxPages, tx);
  }

  lemma CoveredSeesAll(faucets: seq<FaucetScript>, histories: string -> seq<Tx>, maxPages: nat, tx: Tx)
    requires Covered(faucets, histories, maxPages)
    ensures tx in AllShown(faucets, histories, maxPages) <==> InHistory(faucets, histories, tx)
  {
    SeenIsShown(faucets, histories, maxPages, tx);
  }

  lemma FundsSame(spk: map<string, FaucetScript>, t: Tx, c: Utxo, d: Utxo)
    requires Funds(spk, t, c) && Funds(spk, t, d) && c.Op() == d.Op()
    ensures c == d
  {
  }

  lemma FundsTxid(spk: map<string, FaucetScript>, t: Tx, c: Utxo)
    requires Funds(spk, t, c)
    ensures c.txid == t.txid
  {
  }

  /** Does the transaction spend the output? Whatever is said of it, an input that names it spends it. */
  predicate TakenBy(tx: Tx, op: Outpoint) {
    exists i :: 0 <= i < |tx.vin| && tx.vin[i].spends == op
  }

  /** The script is a faucet's: of the last faucet that has it, if several do. */
  predicate IsScriptOf(faucets: seq<FaucetScript>, script: string, f: FaucetScript) {
    exists i :: 0 <= i < |faucets| && faucets[i] == f && f.scriptPubKey == script &&
                forall j :: i < j < |faucets| ==> faucets[j].scriptPubKey != script
  }

  lemma {:induction false} BySpkLast(faucets: seq<FaucetScript>, script: string) returns (i: nat)
    requires script in BySpk(faucets)
    ensures i < |faucets| && faucets[i] == BySpk(faucets)[script] && faucets[i].scriptPubKey == script
    ensures forall j :: i < j < |faucets| ==> faucets[j].scriptPubKey != script
  {
    i := |faucets| - 1;
    if faucets[i].scriptPubKey != script {
      i := BySpkLast(faucets[..|faucets| - 1], script);
    }
  }

  lemma BySpkExactly(faucets: seq<FaucetScript>, script: string, f: FaucetScript)
    ensures script in BySpk(faucets) && BySpk(faucets)[script] == f <==> IsScriptOf(faucets, script, f)
  {
    hide BySpk;
    if IsScriptOf(faucets, script, f) {
      BySpkHas(faucets, f);
    }
    if script in BySpk(faucets) {
      var i := BySpkLast(faucets, script);
    }
  }

  /** A confirmed output with the script of a faucet, and what is to be said of it. */
  predicate IsFaucetCoin(faucets: seq<FaucetScript>, tx: Tx, c: Utxo) {
    && tx.confirmed && c.txid == tx.txid && c.vout < |tx.vout| && c.value == tx.vout[c.vout].value
    && c.blockHeight == tx.blockHeight && IsScriptOf(faucets, tx.vout[c.vout].scriptPubKey, c.script)
  }

  /** Some input that spends the output tells the script of a faucet. */
  predicate Tells(faucets: seq<FaucetScript>, tx: Tx, op: Outpoint) {
    exists i, f :: 0 <= i < |tx.vin| && f in faucets && tx.vin[i].spends == op &&
                   tx.vin[i].prevout == Some(f.scriptPubKey)
  }

  ghost predicate FundedIn(faucets: seq<FaucetScript>, histories: string -> seq<Tx>, c: Utxo) {
    exists tx :: InHistory(faucets, histories, tx) && IsFaucetCoin(faucets, tx, c)
  }

  ghost predicate SpentIn(faucets: seq<FaucetScript>, histories: string -> seq<Tx>, op: Outpoint) {
    exists tx :: InHistory(faucets, histories, tx) && TakenBy(tx, op)
  }

  /** Only then does the scan take it for spent. */
  ghost predicate SeenSpentIn(faucets: seq<FaucetScript>, histories: string -> seq<Tx>, op: Outpoint) {
    exists tx :: InHistory(faucets, histories, tx) && Tells(faucets, tx, op)
  }

  /** What the scan goes by, in terms of the faucets. */
  lemma ScanGoesBy(faucets: seq<FaucetScript>, tx: Tx, c: Utxo, op: Outpoint)
    ensures Funds(BySpk(faucets), tx, c) <==> IsFaucetCoin(faucets, tx, c)
    ensures Spends(BySpk(faucets), tx, op) <==> Tells(faucets, tx, op)
  {
    if c.vout < |tx.vout| {
      BySpkExactly(faucets, tx.vout[c.vout].scriptPubKey, c.script);
    }
    SpendsTells(faucets, tx, op);
  }

  lemma SpendsTells(faucets: seq<FaucetScript>, tx: Tx, op: Outpoint)
    ensures Spends(BySpk(faucets), tx, op) <==> Tells(faucets, tx, op)
  {
    hide BySpk;
    if Spends(BySpk(faucets), tx, op) {
      var i :| 0 <= i < |tx.vin| && Takes(BySpk(faucets), tx.vin[i], op);
      BySpkFrom(faucets, tx.vin[i].prevout.value);
    }
    if i, f :| 0 <= i < |tx.vin| && f in faucets && tx.vin[i].spends == op &&
               tx.vin[i].prevout == Some(f.scriptPubKey) {
      BySpkHas(faucets, f);
      assert Takes(BySpk(faucets), tx.vin[i], op);
    }
  }

  lemma HistoryGoesBy(faucets: seq<FaucetScript>, histories: string -> seq<Tx>)
    ensures forall c :: FundedIn(faucets, histories, c) <==>
                        exists tx :: InHistory(faucets, histories, tx) && Funds(BySpk(faucets), tx, c)
    ensures forall op :: SeenSpentIn(faucets, histories, op) <==>
                         exists tx :: InHistory(faucets, histories, tx) && Spends(BySpk(faucets), tx, op)
  {
    hide InHistory, BySpk, Funds, Spends, IsFaucetCoin, Tells;
    forall tx, c: Utxo
      ensures Funds(BySpk(faucets), tx, c) <==> IsFaucetCoin(faucets, tx, c)
    {
      ScanGoesBy(faucets, tx, c, c.Op());
    }
    forall tx, op
      ensures Spends(BySpk(faucets), tx, op) <==> Tells(faucets, tx, op)
    {
      SpendsTells(faucets, tx, op);
    }
  }

  lemma SpendsTakes(spk: map<string, FaucetScript>, tx: Tx, op: Outpoint)
    ensures Spends(spk, tx, op) ==> TakenBy(tx, op)
  {
  }

  lemma SeenSpentIsSpent(faucets: seq<FaucetScript>, histories: string -> seq<Tx>, op: Outpoint)
    ensures SeenSpentIn(faucets, histories, op) ==> SpentIn(faucets, histories, op)
  {
    HistoryGoesBy(faucets, histories);
    hide BySpk, InHistory, Spends, TakenBy, FundedIn, SeenSpentIn;
    if tx :| InHistory(faucets, histories, tx) && Spends(BySpk(faucets), tx, op) {
      SpendsTakes(BySpk(faucets), tx, op);
    }
  }

  /** A faucet coin that is spent is seen to be. */
  ghost predicate SpendsAreSeen(faucets: seq<FaucetScript>, histories: string -> seq<Tx>) {
    forall c :: FundedIn(faucets, histories, c) && SpentIn(faucets, histories, c.Op()) ==>
      SeenSpentIn(faucets, histories, c.Op())
  }

  /** When the pages cover the histories, what is reported is what is funded and not seen to be spent. */
  lemma CoveredReport(faucets: seq<FaucetScript>, histories: string -> seq<Tx>, maxPages: nat, coins: seq<Utxo>)
    requires Covered(faucets, histories, maxPages) && Consistent(faucets, histories)
    requires Unspent(BySpk(faucets), AllShown(faucets, histories, maxPages), coins)
    ensures forall c :: c in coins <==> FundedIn(faucets, histories, c) && !SeenSpentIn(faucets, histories, c.Op())
  {
    HistoryGoesBy(faucets, histories);
    hide AllShown, Spends, Funds, BySpk, Covered, FundedIn, SeenSpentIn;
    var spk := BySpk(faucets);
    forall tx
      ensures tx in AllShown(faucets, histories, maxPages) <==> InHistory(faucets, histories, tx)
    {
      CoveredSeesAll(faucets, histories, maxPages, tx);
    }
    forall c | FundedIn(faucets, histories, c) && !SeenSpentIn(faucets, histories, c.Op())
      ensures c in coins
    {
      var t :| InHistory(faucets, histories, t) && Funds(spk, t, c);
      var d :| d in coins && d.Op() == c.Op();
      var u :| u in AllShown(faucets, histories, maxPages) && Funds(spk, u, d);
      FundsTxid(spk, t, c);
      FundsTxid(spk, u, d);
      FundsSame(spk, t, c, d);
    }
  }

  /** When the pages cover the histories, the report is exactly the confirmed faucet outputs that nothing spends, if and
      only if the server lets every spend of a faucet coin be seen. */
  lemma CoveredScanExactly(faucets: seq<FaucetScript>, histories: string -> seq<Tx>, maxPages: nat, coins: seq<Utxo>)
    requires Covered(faucets, histories, maxPages) && Consistent(faucets, histories)
    requires Unspent(BySpk(faucets), AllShown(faucets, histories, maxPages), coins)
    ensures (forall c :: c in coins <==> FundedIn(faucets, histories, c) && !SpentIn(faucets, histories, c.Op())) <==>
            SpendsAreSeen(faucets, histories)
  {
    hide FundedIn, SpentIn, SeenSpentIn, AllShown, BySpk, Unspent, Covered, Consistent;
    CoveredReport(faucets, histories, maxPages, coins);
    forall c: Utxo
      ensures SeenSpentIn(faucets, histories, c.Op()) ==> SpentIn(faucets, histories, c.Op())
    {
      SeenSpentIsSpent(faucets, histories, c.Op());
    }
  }

  /** An input that spends a listed output of a faucet tells that faucet's script. */
  ghost predicate TruePrevouts(faucets: seq<FaucetScript>, histories: string -> seq<Tx>) {
    forall f, t, u, i :: f in faucets && InHistory(faucets, histories, t) && InHistory(faucets, histories, u) &&
                         0 <= i < |u.vin| ==>
      u.vin[i].spends.txid == t.txid && u.vin[i].spends.vout < |t.vout| &&
      t.vout[u.vin[i].spends.vout].scriptPubKey == f.scriptPubKey ==>
        u.vin[i].prevout == Some(f.scriptPubKey)
  }

  lemma {:induction false} BySpkFrom(faucets: seq<FaucetScript>, script: string)
    requires script in BySpk(faucets)
    ensures BySpk(faucets)[script] in faucets && BySpk(faucets)[script].scriptPubKey == script
  {
    if faucets[|faucets| - 1].scriptPubKey != script {
      BySpkFrom(faucets[..|faucets| - 1], script);
    }
  }

  lemma {:induction false} BySpkHas(faucets: seq<FaucetScript>, f: FaucetScript)
    requires f in faucets
    ensures f.scriptPubKey in BySpk(faucets)
  {
    var last := |faucets| - 1;
    if f != faucets[last] {
      assert f in faucets[..last];
      BySpkHas(faucets[..last], f);
    }
  }

  predicate Touches(tx: Tx, script: string) {
    || (exists i :: 0 <= i < |tx.vout| && tx.vout[i].scriptPubKey == script)
    || (exists i :: 0 <= i < |tx.vin| && tx.vin[i].prevout == Some(script))
  }

  /** An input that spends a faucet coin tells the script of the coin, which is a faucet's. */
  lemma TellsScript(faucets: seq<FaucetScript>, histories: string -> seq<Tx>, t: Tx, u: Tx, c: Utxo)
    requires TruePrevouts(faucets, histories) && InHistory(faucets, histories, t) && InHistory(faucets, histories, u)
    requires Funds(BySpk(faucets), t, c) && TakenBy(u, c.Op())
    ensures Spends(BySpk(faucets), u, c.Op())
    ensures Touches(u, t.vout[c.vout].scriptPubKey)
  {
    hide InHistory, BySpk;
    var script := t.vout[c.vout].scriptPubKey;
    BySpkFrom(faucets, script);
    var i :| 0 <= i < |u.vin| && u.vin[i].spends == c.Op();
    assert u.vin[i].prevout == Some(script);
    assert Takes(BySpk(faucets), u.vin[i], c.Op());
  }

  lemma TruePrevoutsSeen(faucets: seq<FaucetScript>, histories: string -> seq<Tx>)
    requires TruePrevouts(faucets, histories)
    ensures SpendsAreSeen(faucets, histories)
  {
    HistoryGoesBy(faucets, histories);
    hide TruePrevouts, InHistory, BySpk, Funds, Spends, TakenBy, FundedIn, SeenSpentIn;
    forall c | FundedIn(faucets, histories, c) && SpentIn(faucets, histories, c.Op())
      ensures SeenSpentIn(faucets, histories, c.Op())
    {
      var t :| InHistory(faucets, histories, t) && Funds(BySpk(faucets), t, c);
      var u :| InHistory(faucets, histories, u) && TakenBy(u, c.Op());
      TellsScript(faucets, histories, t, u, c);
    }
  }

  /** When the pages cover the histories and inputs tell what they spend, the report is exactly the confirmed faucet
      outputs that nothing spends. */
  lemma CoveredScanIsExact(faucets: seq<FaucetScript>, histories: string -> seq<Tx>, maxPages: nat, coins: seq<Utxo>)
    requires Covered(faucets, histories, maxPages)
    requires Consistent(faucets, histories) && TruePrevouts(faucets, histories)
    requires Unspent(BySpk(faucets), AllShown(faucets, histories, maxPages), coins)
    ensures NoDuplicates(coins)
    ensures forall c :: c in coins <==> FundedIn(faucets, histories, c) && !SpentIn(faucets, histories, c.Op())
  {
    hide FundedIn, SpentIn, AllShown, BySpk, Covered, Consistent, TruePrevouts, SpendsAreSeen;
    TruePrevoutsSeen(faucets, histories);
    CoveredScanExactly(faucets, histories, maxPages, coins);
  }

  // When the pages run short.

  /** The history of a faucet lists the transactions that touch its script. */
  ghost predicate Faithful(faucets: seq<FaucetScript>, histories: string -> seq<Tx>) {
    forall tx, f :: InHistory(faucets, histories, tx) && f in faucets ==>
      (Touches(tx, f.scriptPubKey) <==> tx in histories(f.address))
  }

  ghost predicate TouchesOne(faucets: seq<FaucetScript>, histories: string -> seq<Tx>) {
    forall tx, f, g :: InHistory(faucets, histories, tx) && f in faucets && g in faucets ==>
      Touches(tx, f.scriptPubKey) && Touches(tx, g.scriptPubKey) ==> f == g
  }

  /** A transaction that spends from another is listed before it. */
  ghost predicate NewestFirst(history: seq<Tx>) {
    forall i, j, k :: 0 <= i < |history| && 0 <= j < |history| && 0 <= k < |history[i].vin| ==>
      history[i].vin[k].spends.txid == history[j].txid ==> i < j
  }

  /** What a server that keeps its promises tells. */
  ghost predicate WellBehaved(faucets: seq<FaucetScript>, histories: string -> seq<Tx>) {
    && Consistent(faucets, histories) && Faithful(faucets, histories) && TruePrevouts(faucets, histories)
    && forall f :: f in faucets ==> NewestFirst(histories(f.address)) && WellNumbered(histories(f.address))
  }

  /** A transaction that spends a coin comes before the one that made it, in the same history. */
  lemma SpendIsListedFirst(faucets: seq<FaucetScript>, histories: string -> seq<Tx>, f: FaucetScript, t: Tx, u: Tx,
                           c: Utxo)
    requires Faithful(faucets, histories) && TouchesOne(faucets, histories) && TruePrevouts(faucets, histories)
    requires f in faucets && t in histories(f.address) && InHistory(faucets, histories, u)
    requires NewestFirst(histories(f.address))
    requires Funds(BySpk(faucets), t, c) && TakenBy(u, c.Op())
    ensures Spends(BySpk(faucets), u, c.Op())
    ensures var h := histories(f.address);
            forall j :: 0 <= j < |h| && h[j] == t ==> u in h[..j]
  {
    var script := t.vout[c.vout].scriptPubKey;
    BySpkFrom(faucets, script);
    var g := BySpk(faucets)[script];
    assert InHistory(faucets, histories, t);
    assert Touches(t, g.scriptPubKey) && Touches(t, f.scriptPubKey);
    TellsScript(faucets, histories, t, u, c);
    var h := histories(f.address);
    var k :| 0 <= k < |u.vin| && u.vin[k].spends == c.Op();
    var i :| 0 <= i < |h| && h[i] == u;
    forall j | 0 <= j < |h| && h[j] == t
      ensures u in h[..j]
    {
      assert i < j;
      assert h[..j][i] == u;
    }
  }

  /** However few pages are read, no spent coin is reported, if no transaction touches two faucets. */
  lemma ShortScanIsSafe(faucets: seq<FaucetScript>, histories: string -> seq<Tx>, maxPages: nat, coins: seq<Utxo>)
    requires WellBehaved(faucets, histories) && TouchesOne(faucets, histories)
    requires Unspent(BySpk(faucets), AllShown(faucets, histories, maxPages), coins)
    ensures forall c :: c in coins ==> FundedIn(faucets, histories, c) && !SpentIn(faucets, histories, c.Op())
  {
    HistoryGoesBy(faucets, histories);
    hide AllShown, Spends, TakenBy, Funds, BySpk, Consistent, Faithful, TouchesOne, TruePrevouts, NewestFirst,
      WellNumbered, FundedIn;
    var spk, seen := BySpk(faucets), AllShown(faucets, histories, maxPages);
    forall c | c in coins
      ensures FundedIn(faucets, histories, c) && !SpentIn(faucets, histories, c.Op())
    {
      var t :| t in seen && Funds(spk, t, c);
      SeenIsShown(faucets, histories, maxPages, t);
      var f :| f in faucets && t in Shown(histories(f.address), maxPages);
      var h := histories(f.address);
      var j :| 0 <= j < |Shown(h, maxPages)| && h[j] == t;
      assert InHistory(faucets, histories, t);
      forall u | InHistory(faucets, histories, u)
        ensures !TakenBy(u, c.Op())
      {
        if TakenBy(u, c.Op()) {
          SpendIsListedFirst(faucets, histories, f, t, u, c);
          assert u in Shown(h, maxPages);
          SeenIsShown(faucets, histories, maxPages, u);
          assert false;
        }
      }
    }
  }

  // Every scan has a report.

  lemma {:induction false} Listing(s: set<Utxo>) returns (l: seq<Utxo>)
    ensures forall x :: x in l <==> x in s
    ensures forall i, j :: 0 <= i < j < |l| ==> l[i] != l[j]
  {
    if s == {} {
      l := [];
    } else {
      var x :| x in s;
      var rest := Listing(s - {x});
      l := [x] + rest;
    }
  }

  predicate FundsAt(spk: map<string, FaucetScript>, tx: Tx, i: nat) {
    tx.confirmed && i < |tx.vout| && tx.vout[i].scriptPubKey in spk
  }

  function CoinAt(spk: map<string, FaucetScript>, tx: Tx, i: nat): Utxo
    requires FundsAt(spk, tx, i)
  {
    Utxo(tx.txid, i, tx.vout[i].value, tx.blockHeight, spk[tx.vout[i].scriptPubKey])
  }

  lemma FundsIsCoinAt(spk: map<string, FaucetScript>, tx: Tx, c: Utxo)
    ensures Funds(spk, tx, c) <==> FundsAt(spk, tx, c.vout) && c == CoinAt(spk, tx, c.vout)
  {
  }

  lemma ReportExists(spk: map<string, FaucetScript>, txs: seq<Tx>) returns (coins: seq<Utxo>)
    requires forall t, u :: t in txs && u in txs && t.txid == u.txid ==> t == u
    ensures Unspent(spk, txs, coins)
  {
    var funded := set tx, i | tx in txs && 0 <= i < |tx.vout| && FundsAt(spk, tx, i) :: CoinAt(spk, tx, i);
    hide Spends, Funds, FundsAt, CoinAt;
    var unspent := set c | c in funded && !exists tx :: tx in txs && Spends(spk, tx, c.Op());
    forall c
      ensures c in funded <==> exists tx :: tx in txs && Funds(spk, tx, c)
    {
      FundedSet(spk, txs, funded, c);
    }
    coins := Listing(unspent);
    forall i, j | 0 <= i < j < |coins|
      ensures coins[i].Op() != coins[j].Op()
    {
      var c, d := coins[i], coins[j];
      assert c in unspent && d in unspent && c != d;
      var t :| t in txs && Funds(spk, t, c);
      var u :| u in txs && Funds(spk, u, d);
      FundsTxid(spk, t, c);
      FundsTxid(spk, u, d);
      if c.Op() == d.Op() {
        FundsSame(spk, t, c, d);
      }
    }
  }

  lemma FundedSet(spk: map<string, FaucetScript>, txs: seq<Tx>, funded: set<Utxo>, c: Utxo)
    requires funded == set tx, i | tx in txs && 0 <= i < |tx.vout| && FundsAt(spk, tx, i) :: CoinAt(spk, tx, i)
    ensures c in funded <==> exists tx :: tx in txs && Funds(spk, tx, c)
  {
    forall tx | tx in txs
      ensures Funds(spk, tx, c) <==> FundsAt(spk, tx, c.vout) && c == CoinAt(spk, tx, c.vout)
    {
      FundsIsCoinAt(spk, tx, c);
    }
  }

  // When a short scan is safe whatever happened. Two faucets are enough for a history that misleads it: the history of
  // the one shows a transaction that pays both, while the spend of its second output is on a page of the other that is
  // not read.

  /** An input that has nothing to do with any faucet: it spends an output with script e. */
  function Unrelated(e: string, n: nat): Input {
    Input(Outpoint("s", n), Some(e))
  }

  /** Only such inputs. */
  predicate FromElsewhere(tx: Tx) {
    forall i :: 0 <= i < |tx.vin| ==> tx.vin[i].spends.txid == "s"
  }

  predicate NoFaucets(faucets: seq<FaucetScript>, e: string) {
    forall f :: f in faucets ==> f.scriptPubKey != e
  }

  /** There is always a script that is no faucet's: a longer one. */
  function Elsewhere(faucets: seq<FaucetScript>): (e: string)
    ensures e != "" && forall f :: f in faucets ==> |f.scriptPubKey| < |e|
    ensures NoFaucets(faucets, e)
  {
    if faucets == [] then "x" else Elsewhere(faucets[..|faucets| - 1]) + faucets[|faucets| - 1].scriptPubKey
  }

  function FundingBoth(f: FaucetScript, g: FaucetScript, e: string): Tx {
    Tx("t", true, 1, [Unrelated(e, 0)], [Output(f.scriptPubKey, 1), Output(g.scriptPubKey, 1)])
  }

  function SpendingSecond(g: FaucetScript): Tx {
    Tx("u", true, 1, [Input(Outpoint("t", 1), Some(g.scriptPubKey))], [Output(g.scriptPubKey, 1)])
  }

  function Other(g: FaucetScript, e: string, n: nat): (tx: Tx)
    ensures |tx.txid| == n + 2 && FromElsewhere(tx)
  {
    Tx(seq(n + 2, _ => 'x'), true, 1, [Unrelated(e, n + 1)], [Output(g.scriptPubKey, 1)])
  }

  function Others(g: FaucetScript, e: string, n: nat): (txs: seq<Tx>)
    ensures |txs| == n && forall i :: 0 <= i < n ==> txs[i] == Other(g, e, i)
  {
    if n == 0 then [] else Others(g, e, n - 1) + [Other(g, e, n - 1)]
  }

  function HistoryOf(f: FaucetScript, g: FaucetScript, e: string, n: nat, address: string): seq<Tx> {
    if address == f.address then [FundingBoth(f, g, e)]
    else if address == g.address then Others(g, e, n) + [SpendingSecond(g), FundingBoth(f, g, e)]
    else []
  }

  function Misleading(f: FaucetScript, g: FaucetScript, e: string, n: nat): string -> seq<Tx> {
    (address: string) => HistoryOf(f, g, e, n, address)
  }

  predicate Listed(f: FaucetScript, g: FaucetScript, e: string, n: nat, tx: Tx) {
    tx == FundingBoth(f, g, e) || tx == SpendingSecond(g) || tx in Others(g, e, n)
  }

  /** No two faucets share an address or a script. */
  predicate AllDifferent(faucets: seq<FaucetScript>) {
    forall i, j :: 0 <= i < |faucets| && 0 <= j < |faucets| && i != j ==>
      faucets[i].address != faucets[j].address && faucets[i].scriptPubKey != faucets[j].scriptPubKey
  }

  lemma Different(faucets: seq<FaucetScript>, f: FaucetScript, g: FaucetScript)
    requires AllDifferent(faucets) && f in faucets && g in faucets && f != g
    ensures f.address != g.address && f.scriptPubKey != g.scriptPubKey
  {
  }

  lemma ListedIn(f: FaucetScript, g: FaucetScript, e: string, n: nat, h: FaucetScript, tx: Tx)
    requires f.address != g.address
    ensures tx in HistoryOf(f, g, e, n, h.address) <==>
            if h.address == f.address then tx == FundingBoth(f, g, e)
            else h.address == g.address && Listed(f, g, e, n, tx)
  {
    hide Others, FundingBoth, SpendingSecond;
    var last := [SpendingSecond(g), FundingBoth(f, g, e)];
    assert last[0] == SpendingSecond(g) && last[1] == FundingBoth(f, g, e);
    assert tx in Others(g, e, n) + last <==> tx in Others(g, e, n) || tx in last;
  }

  lemma ListedInSome(faucets: seq<FaucetScript>, f: FaucetScript, g: FaucetScript, e: string, n: nat, tx: Tx)
    requires AllDifferent(faucets) && f in faucets && g in faucets && f != g
    ensures InHistory(faucets, Misleading(f, g, e, n), tx) <==> Listed(f, g, e, n, tx)
  {
    hide Listed, HistoryOf;
    Different(faucets, f, g);
    FundingIsListed(f, g, e, n);
    forall h | h in faucets
      ensures tx in Misleading(f, g, e, n)(h.address) ==> Listed(f, g, e, n, tx)
    {
      ListedIn(f, g, e, n, h, tx);
    }
    ListedIn(f, g, e, n, g, tx);
    assert Misleading(f, g, e, n)(g.address) == HistoryOf(f, g, e, n, g.address);
  }

  lemma FundingIsListed(f: FaucetScript, g: FaucetScript, e: string, n: nat)
    ensures Listed(f, g, e, n, FundingBoth(f, g, e)) && Listed(f, g, e, n, SpendingSecond(g))
  {
  }

  /** The three kinds of transactions, apart. */
  lemma Kinds(f: FaucetScript, g: FaucetScript, e: string, n: nat, tx: Tx)
    requires Listed(f, g, e, n, tx)
    ensures tx.txid == "t" <==> tx == FundingBoth(f, g, e)
    ensures tx.txid == "u" <==> tx == SpendingSecond(g)
    ensures tx != FundingBoth(f, g, e) && tx != SpendingSecond(g) ==>
              |tx.txid| >= 2 && |tx.txid| - 2 < n && tx == Other(g, e, |tx.txid| - 2)
    ensures tx != SpendingSecond(g) ==> FromElsewhere(tx)
  {
    hide Others, Other;
    assert "t"[0] == 't' && "u"[0] == 'u' && "s"[0] == 's';
  }

  lemma MisleadingConsistent(faucets: seq<FaucetScript>, f: FaucetScript, g: FaucetScript, e: string, n: nat)
    requires AllDifferent(faucets) && f in faucets && g in faucets && f != g
    ensures Consistent(faucets, Misleading(f, g, e, n))
  {
    hide InHistory, Misleading, Listed, Other, FundingBoth, SpendingSecond;
    forall t, u | InHistory(faucets, Misleading(f, g, e, n), t) && InHistory(faucets, Misleading(f, g, e, n), u) &&
                  t.txid == u.txid
      ensures t == u
    {
      ListedInSome(faucets, f, g, e, n, t);
      ListedInSome(faucets, f, g, e, n, u);
      Kinds(f, g, e, n, t);
      Kinds(f, g, e, n, u);
    }
  }

  lemma WhatTouches(f: FaucetScript, g: FaucetScript, e: string, n: nat, tx: Tx, script: string)
    requires Listed(f, g, e, n, tx)
    ensures Touches(tx, script) <==>
            script == g.scriptPubKey ||
            (script == f.scriptPubKey && tx == FundingBoth(f, g, e)) || (script == e && tx != SpendingSecond(g))
  {
    hide Others;
    if tx == FundingBoth(f, g, e) {
      assert tx.vout[0].scriptPubKey == f.scriptPubKey && tx.vout[1].scriptPubKey == g.scriptPubKey;
      assert tx.vin[0].prevout == Some(e);
    } else if tx == SpendingSecond(g) {
      assert tx.vin[0].prevout == Some(g.scriptPubKey);
    } else {
      assert tx.vout[0].scriptPubKey == g.scriptPubKey && tx.vin[0].prevout == Some(e);
    }
  }

  lemma MisleadingFaithful(faucets: seq<FaucetScript>, f: FaucetScript, g: FaucetScript, e: string, n: nat)
    requires AllDifferent(faucets) && f in faucets && g in faucets && f != g && NoFaucets(faucets, e)
    ensures Faithful(faucets, Misleading(f, g, e, n))
  {
    hide InHistory, Listed, Touches, HistoryOf, AllDifferent, FundingBoth, SpendingSecond;
    FundingIsListed(f, g, e, n);
    forall tx, h | InHistory(faucets, Misleading(f, g, e, n), tx) && h in faucets
      ensures Touches(tx, h.scriptPubKey) <==> tx in Misleading(f, g, e, n)(h.address)
    {
      ListedInSome(faucets, f, g, e, n, tx);
      Different(faucets, f, g);
      WhatTouches(f, g, e, n, tx, h.scriptPubKey);
      ListedIn(f, g, e, n, h, tx);
      if h != f {
        Different(faucets, f, h);
      }
      if h != g {
        Different(faucets, g, h);
      }
    }
  }

  lemma MisleadingPrevouts(faucets: seq<FaucetScript>, f: FaucetScript, g: FaucetScript, e: string, n: nat)
    requires AllDifferent(faucets) && f in faucets && g in faucets && f != g
    ensures TruePrevouts(faucets, Misleading(f, g, e, n))
  {
    hide InHistory, Listed, Misleading, AllDifferent, Other;
    forall h, t, u, i | h in faucets && InHistory(faucets, Misleading(f, g, e, n), t) &&
                        InHistory(faucets, Misleading(f, g, e, n), u) && 0 <= i < |u.vin| &&
                        u.vin[i].spends.txid == t.txid && u.vin[i].spends.vout < |t.vout| &&
                        t.vout[u.vin[i].spends.vout].scriptPubKey == h.scriptPubKey
      ensures u.vin[i].prevout == Some(h.scriptPubKey)
    {
      ListedInSome(faucets, f, g, e, n, t);
      ListedInSome(faucets, f, g, e, n, u);
      Kinds(f, g, e, n, t);
      Kinds(f, g, e, n, u);
    }
  }

  lemma MisleadingOrdered(f: FaucetScript, g: FaucetScript, e: string, n: nat, address: string)
    ensures NewestFirst(HistoryOf(f, g, e, n, address)) && WellNumbered(HistoryOf(f, g, e, n, address))
  {
    hide Others, Other;
    assert "t"[0] == 't' && "u"[0] == 'u' && "s"[0] == 's';
    var h := HistoryOf(f, g, e, n, address);
    if address != f.address && address == g.address {
      assert h[n] == SpendingSecond(g) && h[n + 1] == FundingBoth(f, g, e);
      assert forall i :: 0 <= i < n ==> h[i] == Others(g, e, n)[i] && |h[i].txid| == i + 2 && FromElsewhere(h[i]);
    }
  }

  lemma MisleadingBehaves(faucets: seq<FaucetScript>, f: FaucetScript, g: FaucetScript, e: string, n: nat)
    requires AllDifferent(faucets) && f in faucets && g in faucets && f != g && NoFaucets(faucets, e)
    ensures WellBehaved(faucets, Misleading(f, g, e, n))
  {
    hide Consistent, Faithful, TruePrevouts, NewestFirst, WellNumbered, HistoryOf;
    MisleadingConsistent(faucets, f, g, e, n);
    MisleadingFaithful(faucets, f, g, e, n);
    MisleadingPrevouts(faucets, f, g, e, n);
    forall h | h in faucets
      ensures NewestFirst(Misleading(f, g, e, n)(h.address)) && WellNumbered(Misleading(f, g, e, n)(h.address))
    {
      MisleadingOrdered(f, g, e, n, h.address);
    }
  }

  /** The scan sees the funding transaction, and no input at all. */
  lemma MisleadingSeen(faucets: seq<FaucetScript>, f: FaucetScript, g: FaucetScript, e: string, maxPages: nat)
    requires AllDifferent(faucets) && f in faucets && g in faucets && f != g && maxPages > 0
    ensures FundingBoth(f, g, e) in AllShown(faucets, Misleading(f, g, e, PAGE * maxPages), maxPages)
    ensures forall tx :: tx in AllShown(faucets, Misleading(f, g, e, PAGE * maxPages), maxPages) ==> FromElsewhere(tx)
  {
    hide AllShown, AllDifferent, Others, Other;
    var histories := Misleading(f, g, e, PAGE * maxPages);
    Different(faucets, f, g);
    SeenIsShown(faucets, histories, maxPages, FundingBoth(f, g, e));
    assert FundingBoth(f, g, e) in Shown(histories(f.address), maxPages);
    assert Shown(histories(g.address), maxPages) == Others(g, e, PAGE * maxPages);
    forall tx | tx in AllShown(faucets, histories, maxPages)
      ensures FromElsewhere(tx)
    {
      SeenIsShown(faucets, histories, maxPages, tx);
      var h :| h in faucets && tx in Shown(histories(h.address), maxPages);
      if h != f && h != g {
        Different(faucets, h, f);
        Different(faucets, h, g);
      }
    }
  }

  /** With two faucets every report of a short scan of those histories holds a spent coin. */
  lemma TwoFaucetsMislead(faucets: seq<FaucetScript>, f: FaucetScript, g: FaucetScript, e: string, maxPages: nat,
                          coins: seq<Utxo>)
    requires AllDifferent(faucets) && f in faucets && g in faucets && f != g && maxPages > 0
    requires Unspent(BySpk(faucets), AllShown(faucets, Misleading(f, g, e, PAGE * maxPages), maxPages), coins)
    ensures exists c :: c in coins && SpentIn(faucets, Misleading(f, g, e, PAGE * maxPages), c.Op())
  {
    hide AllShown, AllDifferent, Misleading, InHistory, Listed, BySpk;
    var histories, op := Misleading(f, g, e, PAGE * maxPages), Outpoint("t", 1);
    var t, u := FundingBoth(f, g, e), SpendingSecond(g);
    MisleadingSeen(faucets, f, g, e, maxPages);
    BySpkHas(faucets, g);
    assert t.vout[1].scriptPubKey == g.scriptPubKey;
    assert Funds(BySpk(faucets), t, Utxo("t", 1, 1, 1, BySpk(faucets)[g.scriptPubKey]));
    var d :| d in coins && d.Op() == op;
    FundingIsListed(f, g, e, PAGE * maxPages);
    ListedInSome(faucets, f, g, e, PAGE * maxPages, u);
    assert u.vin[0].spends == op;
    assert TakenBy(u, op);
  }

  /** Nothing that a scan may report is spent. */
  ghost predicate NeverReportsSpent(faucets: seq<FaucetScript>, histories: string -> seq<Tx>, maxPages: nat) {
    forall coins: seq<Utxo>, c: Utxo ::
      Unspent(BySpk(faucets), AllShown(faucets, histories, maxPages), coins) && c in coins ==>
        !SpentIn(faucets, histories, c.Op())
  }

  lemma NothingShown(faucets: seq<FaucetScript>, histories: string -> seq<Tx>, tx: Tx)
    ensures tx !in AllShown(faucets, histories, 0)
  {
    SeenIsShown(faucets, histories, 0, tx);
  }

  lemma SafeWhenFew(faucets: seq<FaucetScript>, histories: string -> seq<Tx>, maxPages: nat)
    requires WellBehaved(faucets, histories) && (maxPages == 0 || |faucets| <= 1)
    ensures NeverReportsSpent(faucets, histories, maxPages)
  {
    hide AllShown, WellBehaved, BySpk, SpentIn, Funds, Spends;
    forall coins: seq<Utxo>, c: Utxo |
      Unspent(BySpk(faucets), AllShown(faucets, histories, maxPages), coins) && c in coins
      ensures !SpentIn(faucets, histories, c.Op())
    {
      if maxPages == 0 {
        var t :| t in AllShown(faucets, histories, maxPages) && Funds(BySpk(faucets), t, c);
        NothingShown(faucets, histories, t);
        assert false;
      } else {
        assert TouchesOne(faucets, histories);
        ShortScanIsSafe(faucets, histories, maxPages, coins);
      }
    }
  }

  lemma MisleadsWhenMany(faucets: seq<FaucetScript>, maxPages: nat)
    requires AllDifferent(faucets) && maxPages > 0 && |faucets| > 1
    ensures exists histories: string -> seq<Tx> ::
              WellBehaved(faucets, histories) && !NeverReportsSpent(faucets, histories, maxPages)
  {
    var f, g, e := faucets[0], faucets[1], Elsewhere(faucets);
    var histories := Misleading(f, g, e, PAGE * maxPages);
    hide AllDifferent, AllShown, Misleading, BySpk, SpentIn, Unspent, Faithful, TruePrevouts, NewestFirst, WellNumbered;
    MisleadingBehaves(faucets, f, g, e, PAGE * maxPages);
    var seen := AllShown(faucets, histories, maxPages);
    forall t, u | t in seen && u in seen && t.txid == u.txid
      ensures t == u
    {
      SeenInHistory(faucets, histories, maxPages, t);
      SeenInHistory(faucets, histories, maxPages, u);
    }
    var coins := ReportExists(BySpk(faucets), seen);
    TwoFaucetsMislead(faucets, f, g, e, maxPages, coins);
  }

  /** A scan of any number of pages is safe from reporting spent coins, whatever a server that keeps its promises has to
      tell, exactly if it reads no page or there are no two faucets. */
  lemma ShortScanSafeExactly(faucets: seq<FaucetScript>, maxPages: nat)
    requires AllDifferent(faucets)
    ensures (forall histories: string -> seq<Tx> ::
               WellBehaved(faucets, histories) ==> NeverReportsSpent(faucets, histories, maxPages)) <==>
            maxPages == 0 || |faucets| <= 1
  {
    hide WellBehaved, NeverReportsSpent, AllDifferent;
    if maxPages == 0 || |faucets| <= 1 {
      forall histories: string -> seq<Tx> | WellBehaved(faucets, histories)
        ensures NeverReportsSpent(faucets, histories, maxPages)
      {
        SafeWhenFew(faucets, histories, maxPages);
      }
    } else {
      MisleadsWhenMany(faucets, maxPages);
    }
  }

  // Why inputs must tell what they spend: a spend that does not say so is overlooked, though it is listed.

  function SilentSpend(f: FaucetScript): Tx {
    Tx("u", true, 1, [Input(Outpoint("t", 0), None)], [Output(f.scriptPubKey, 1)])
  }

  function Payment(f: FaucetScript): Tx {
    Tx("t", true, 1, [Unrelated(Elsewhere([f]), 0)], [Output(f.scriptPubKey, 1)])
  }

  function Silent(f: FaucetScript): string -> seq<Tx> {
    (address: string) => [SilentSpend(f), Payment(f)]
  }

  lemma SilentHistory(f: FaucetScript, tx: Tx)
    ensures InHistory([f], Silent(f), tx) <==> tx == SilentSpend(f) || tx == Payment(f)
  {
    hide SilentSpend, Payment;
    assert [f][0] == f;
    var h := [SilentSpend(f), Payment(f)];
    assert h[0] == SilentSpend(f) && h[1] == Payment(f);
  }

  /** All else is as it should be, and the pages cover the history. */
  lemma SilentBehaves(f: FaucetScript)
    ensures Consistent([f], Silent(f)) && Faithful([f], Silent(f)) && Covered([f], Silent(f), 1)
    ensures NewestFirst(Silent(f)(f.address)) && WellNumbered(Silent(f)(f.address))
  {
    hide InHistory;
    assert "t"[0] == 't' && "u"[0] == 'u' && "s"[0] == 's';
    hide Elsewhere;
    assert SilentSpend(f).vout[0].scriptPubKey == f.scriptPubKey && Payment(f).vout[0].scriptPubKey == f.scriptPubKey;
    var h := Silent(f)(f.address);
    assert h[0] == SilentSpend(f) && h[1] == Payment(f);
    forall tx
      ensures InHistory([f], Silent(f), tx) <==> tx == SilentSpend(f) || tx == Payment(f)
    {
      SilentHistory(f, tx);
    }
  }

  lemma SilentSpendMisleads(f: FaucetScript, maxPages: nat, coins: seq<Utxo>)
    requires maxPages > 0 && Unspent(BySpk([f]), AllShown([f], Silent(f), maxPages), coins)
    ensures exists c :: c in coins && SpentIn([f], Silent(f), c.Op())
  {
    hide InHistory, AllShown, Unspent, Consistent, BySpk, Silent;
    var t, u, op := Payment(f), SilentSpend(f), Outpoint("t", 0);
    assert "t"[0] != "s"[0];
    hide Elsewhere;
    SilentBehaves(f);
    SilentHistory(f, t);
    SilentHistory(f, u);
    assert Covered([f], Silent(f), maxPages);
    HistoryGoesBy([f], Silent(f));
    hide FundedIn, SeenSpentIn;
    CoveredReport([f], Silent(f), maxPages, coins);
    assert [f][0] == f;
    BySpkHas([f], f);
    assert t.vout[0].scriptPubKey == f.scriptPubKey;
    var c := Utxo("t", 0, 1, 1, BySpk([f])[f.scriptPubKey]);
    assert Funds(BySpk([f]), t, c);
    forall tx | InHistory([f], Silent(f), tx)
      ensures !Spends(BySpk([f]), tx, op)
    {
      SilentHistory(f, tx);
    }
    assert u.vin[0].spends == op;
    assert TakenBy(u, op);
    assert c in coins;
  }
}
