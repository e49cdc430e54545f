/** worker/deposit.go: what the consumer writes for one message of the scanner. */
module DepositWorker {
  import opened Prelude
  import opened BigInt
  import opened Balances
  import opened Classifier
  import opened Deposits
  import opened Retry
  import SyncClient
  import opened Synchronizer

  datatype Flow = Flow(blockNumber: nat, hash: string, txType: Label)

  datatype VinRow = VinRow(address: string, txId: string, vout: nat, amount: int)

  /** The tables of one business that a batch writes. */
  datatype Wallet = Wallet(deposits: seq<DepositRow>, balances: Table, flows: seq<Flow>, vins: seq<VinRow>)

  const NEW_WALLET := Wallet([], [], [], [])

  /** The per-business tables, by business id. */
  type Database = map<string, Wallet>

  function WalletOf(db: Database, uid: string): Wallet {
    if uid in db then db[uid] else NEW_WALLET
  }

  // ---------------------------------------------------------------------------------------------
  // From transactions to rows
  // ---------------------------------------------------------------------------------------------

  predicate MovesBalance(txType: Label) {
    txType.Deposit? || txType.Collection? || txType.HotToCold? || txType.ColdToHot?
  }

  /** HandleVin: one spendable row per output, and one movement per output for the types that move balances. */
  function VinsOf(tx: Transaction): (vins: seq<VinRow>)
    ensures |vins| == |tx.voutList|
    ensures forall i | 0 <= i < |vins| ::
              && vins[i].address == tx.voutList[i].address && vins[i].txId == tx.hash
              && vins[i].vout == tx.voutList[i].txIndex && vins[i].amount == tx.voutList[i].amount
  {
    seq(|tx.voutList|, i requires 0 <= i < |tx.voutList| =>
      VinRow(tx.voutList[i].address, tx.hash, tx.voutList[i].txIndex, tx.voutList[i].amount))
  }

  function MovementsOf(tx: Transaction): (ms: seq<TokenBalance>)
    ensures |ms| == if tx.txType in {Deposit, Collection, HotToCold, ColdToHot} then |tx.voutList| else 0
    ensures forall i | 0 <= i < |ms| ::
              ms[i] == TokenBalance("", tx.voutList[i].address, tx.voutList[i].amount, tx.txType)
  {
    if MovesBalance(tx.txType) then
      seq(|tx.voutList|, i requires 0 <= i < |tx.voutList| =>
        TokenBalance("", tx.voutList[i].address, tx.voutList[i].amount, tx.txType))
    else []
  }

  /** One unconfirmed row for a deposit, none for any other transaction. */
  function DepositsOf(tx: Transaction): (rows: seq<DepositRow>)
    ensures |rows| == if tx.txType == Deposit then 1 else 0
    ensures forall row | row in rows ::
              && row.blockNumber == tx.blockNumber && row.hash == tx.hash
              && row.confirms == 0 && row.status == "unsafe"
  {
    if tx.txType.Deposit? then [DepositRow(tx.blockNumber, tx.hash, 0, UNSAFE)] else []
  }

  /** What the accumulators hold after the loop over the transactions of a business. */
  datatype Accumulated = Accumulated(flows: seq<Flow>, vins: seq<VinRow>,
                                     movements: seq<TokenBalance>, deposits: seq<DepositRow>)

  function Accumulate(txs: seq<Transaction>): Accumulated {
    if txs == [] then Accumulated([], [], [], [])
    else
      var acc, tx := Accumulate(txs[..|txs| - 1]), txs[|txs| - 1];
      Accumulated(acc.flows + [Flow(tx.blockNumber, tx.hash, tx.txType)], acc.vins + VinsOf(tx),
                  acc.movements + MovementsOf(tx), acc.deposits + DepositsOf(tx))
  }

  lemma {:induction false} AccumulatedVins(txs: seq<Transaction>)
    ensures Accumulate(txs).vins == Flatten(seq(|txs|, i requires 0 <= i < |txs| => VinsOf(txs[i])))
  {
    hide VinsOf;
    if txs != [] {
      var n := |txs| - 1;
      var init := txs[..n];
      AccumulatedVins(init);
      var parts := seq(n, i requires 0 <= i < n => VinsOf(init[i]));
      assert seq(|txs|, i requires 0 <= i < |txs| => VinsOf(txs[i])) == parts + [VinsOf(txs[n])];
      FlattenOneMore(parts, VinsOf(txs[n]));
    }
  }

  lemma {:induction false} AccumulatedMovements(txs: seq<Transaction>)
    ensures Accumulate(txs).movements == Flatten(seq(|txs|, i requires 0 <= i < |txs| => MovementsOf(txs[i])))
  {
    hide MovementsOf;
    if txs != [] {
      var n := |txs| - 1;
      var init := txs[..n];
      AccumulatedMovements(init);
      var parts := seq(n, i requires 0 <= i < n => MovementsOf(init[i]));
      assert seq(|txs|, i requires 0 <= i < |txs| => MovementsOf(txs[i])) == parts + [MovementsOf(txs[n])];
      FlattenOneMore(parts, MovementsOf(txs[n]));
    }
  }

  lemma {:induction false} AccumulatedDeposits(txs: seq<Transaction>)
    ensures Accumulate(txs).deposits == Flatten(seq(|txs|, i requires 0 <= i < |txs| => DepositsOf(txs[i])))
  {
    hide DepositsOf;
    if txs != [] {
      var n := |txs| - 1;
      var init := txs[..n];
      AccumulatedDeposits(init);
      var parts := seq(n, i requires 0 <= i < n => DepositsOf(init[i]));
      assert seq(|txs|, i requires 0 <= i < |txs| => DepositsOf(txs[i])) == parts + [DepositsOf(txs[n])];
      FlattenOneMore(parts, DepositsOf(txs[n]));
    }
  }

  lemma {:induction false} AccumulatedFlows(txs: seq<Transaction>)
    ensures |Accumulate(txs).flows| == |txs|
    ensures forall i | 0 <= i < |txs| ::
              Accumulate(txs).flows[i] == Flow(txs[i].blockNumber, txs[i].hash, txs[i].txType)
  {
    if txs != [] {
      AccumulatedFlows(txs[..|txs| - 1]);
    }
  }

  /** What the loop over the transactions accumulates: one flow each, and their rows and movements, all in order. */
  lemma AccumulateIs(txs: seq<Transaction>)
    ensures var acc := Accumulate(txs);
            && |acc.flows| == |txs|
            && (forall i | 0 <= i < |txs| :: acc.flows[i] == Flow(txs[i].blockNumber, txs[i].hash, txs[i].txType))
            && acc.vins == Flatten(seq(|txs|, i requires 0 <= i < |txs| => VinsOf(txs[i])))
            && acc.movements == Flatten(seq(|txs|, i requires 0 <= i < |txs| => MovementsOf(txs[i])))
            && acc.deposits == Flatten(seq(|txs|, i requires 0 <= i < |txs| => DepositsOf(txs[i])))
  {
    hide Accumulate;
    AccumulatedFlows(txs);
    AccumulatedVins(txs);
    AccumulatedMovements(txs);
    AccumulatedDeposits(txs);
  }

  method HandleVin(tx: Transaction) returns (vinList: seq<VinRow>, balanceList: seq<TokenBalance>)
    ensures vinList == VinsOf(tx) && balanceList == MovementsOf(tx)
  {
    vinList, balanceList := [], [];
    for i := 0 to |tx.voutList|
      invariant vinList == VinsOf(tx)[..i]
      invariant balanceList == if MovesBalance(tx.txType) then MovementsOf(tx)[..i] else []
    {
      var vout := tx.voutList[i];
      if tx.txType.Deposit? || tx.txType.Collection? || tx.txType.HotToCold? || tx.txType.ColdToHot? {
        balanceList := balanceList + [TokenBalance("", vout.address, vout.amount, tx.txType)];
      }
      vinList := vinList + [VinRow(vout.address, tx.hash, vout.txIndex, vout.amount)];
    }
  }

  // ---------------------------------------------------------------------------------------------
  // One business
  // ---------------------------------------------------------------------------------------------

  /** The state the transaction body arrives at, or None when one of its statements fails. */
  function Body(policy: Policy, w: Wallet, ch: TransactionsChannel, confirms: nat): Option<Wallet> {
    var acc := Accumulate(ch.transactions);
    var applied := ApplyLegs(w.balances, AllLegs(acc.movements));
    if applied.ok then
      Some(Wallet(ConfirmAll(policy, w.deposits + acc.deposits, ch.blockHeight, confirms), applied.rows,
                  w.flows + acc.flows, w.vins + acc.vins))
    else None
  }

  /** The database column keeps locked amounts in range. */
  predicate LocksInRange(w: Wallet) {
    forall i | 0 <= i < |w.balances| :: InRange(w.balances[i].lock)
  }

  lemma AccumulateStep(txs: seq<Transaction>, i: nat)
    requires i < |txs|
    ensures var acc, tx := Accumulate(txs[..i]), txs[i];
            Accumulate(txs[..i + 1])
            == Accumulated(acc.flows + [Flow(tx.blockNumber, tx.hash, tx.txType)], acc.vins + VinsOf(tx),
                           acc.movements + MovementsOf(tx), acc.deposits + DepositsOf(tx))
  {
    assert txs[..i + 1][..i] == txs[..i];
  }

  /** The loop that fills the accumulators. */
  method Gather(txs: seq<Transaction>) returns (acc: Accumulated)
    ensures acc == Accumulate(txs)
  {
    var transactionFlowList: seq<Flow> := [];
    var vins: seq<VinRow> := [];
    var balances: seq<TokenBalance> := [];
    var depositList: seq<DepositRow> := [];
    for i := 0 to |txs|
      invariant Accumulated(transactionFlowList, vins, balances, depositList) == Accumulate(txs[..i])
    {
      var tx := txs[i];
      AccumulateStep(txs, i);
      hide Accumulate, VinsOf, MovementsOf;
      transactionFlowList := transactionFlowList + [Flow(tx.blockNumber, tx.hash, tx.txType)];
      var vinList, vinBalances := HandleVin(tx);
      vins := vins + vinList;
      balances := balances + vinBalances;
      if tx.txType.Deposit? {
        depositList := depositList + [DepositRow(tx.blockNumber, tx.hash, 0, UNSAFE)];
      }
    }
    assert txs[..|txs|] == txs;
    return Accumulated(transactionFlowList, vins, balances, depositList);
  }

  /** The transaction body, on the rows as the transaction sees them. */
  method RunBody(policy: Policy, w: Wallet, ch: TransactionsChannel, confirms: nat) returns (after: Option<Wallet>)
    requires LocksInRange(w) && ch.blockHeight < TWO_64
    ensures after == Body(policy, w, ch, confirms)
  {
    var acc := Gather(ch.transactions);
    hide Accumulate, ApplyLegs, AllLegs, ConfirmAll;
    var depositsTx := new DepositsDB();
    depositsTx.rows := w.deposits;
    if |acc.deposits| > 0 {
      depositsTx.StoreDeposits(acc.deposits);
    }
    assert depositsTx.rows == w.deposits + acc.deposits;
    depositsTx.UpdateDepositsComfirms(policy, ch.blockHeight, confirms);
    var balancesTx := new BalancesDB();
    balancesTx.rows := w.balances;
    var ok := true;
    if |acc.movements| > 0 {
      ok := balancesTx.UpdateOrCreate(acc.movements);
    } else {
      NoMovements(w.balances);
    }
    assert Applied(balancesTx.rows, ok) == ApplyLegs(w.balances, AllLegs(acc.movements));
    if !ok {
      return None;
    }
    return Some(Wallet(depositsTx.rows, balancesTx.rows, w.flows + acc.flows, w.vins + acc.vins));
  }

  lemma NoMovements(t: Table)
    ensures ApplyLegs(t, AllLegs([])) == Applied(t, true)
  {
  }

  lemma BodyKeepsLocks(policy: Policy, w: Wallet, ch: TransactionsChannel, confirms: nat)
    requires LocksInRange(w) && Body(policy, w, ch, confirms).Some?
    ensures LocksInRange(Body(policy, w, ch, confirms).value)
  {
    hide ConfirmAll, Accumulate, AllLegs;
    var legs := AllLegs(Accumulate(ch.transactions).movements);
    LegsKeepLocks(w.balances, legs);
  }

  lemma {:induction false} LegsKeepLocks(t: Table, legs: seq<Leg>)
    requires forall i | 0 <= i < |t| :: InRange(t[i].lock)
    ensures forall i | 0 <= i < |ApplyLegs(t, legs).rows| :: InRange(ApplyLegs(t, legs).rows[i].lock)
    decreases |legs|
  {
    if legs != [] && ApplyLeg(t, legs[0]).ok {
      LegsKeepLocks(ApplyLeg(t, legs[0]).rows, legs[1..]);
    }
  }

  // ---------------------------------------------------------------------------------------------
  // The batch
  // ---------------------------------------------------------------------------------------------

  /** The entries of the business list that the batch holds something for. */
  function Present(businesses: seq<string>, batch: Batch): nat {
    if businesses == [] then 0
    else Present(businesses[..|businesses| - 1], batch) + (if businesses[|businesses| - 1] in batch then 1 else 0)
  }

  /** The database after the transactions of these businesses, one after the other; None if a body cannot succeed. */
  function CommitAll(policy: Policy, db: Database, batch: Batch, confirms: nat, uids: seq<string>): Option<Database> {
    if uids == [] then Some(db)
    else CommitOne(policy, CommitAll(policy, db, batch, confirms, uids[..|uids| - 1]), batch, confirms,
                   uids[|uids| - 1])
  }

  function CommitOne(policy: Policy, db: Option<Database>, batch: Batch, confirms: nat, uid: string): Option<Database> {
    if db.None? || uid !in batch then db
    else
      var after := Body(policy, WalletOf(db.value, uid), batch[uid], confirms);
      if after.Some? then Some(db.value[uid := after.value]) else None
  }

  predicate DatabaseFits(db: Database) {
    forall uid | uid in db :: LocksInRange(db[uid])
  }

  const MAX_ATTEMPTS := 10
  const STRATEGY := ExponentialStrategy(1000, 20_000, 250)

  /** The worker's pauses: never more than nine, each of twenty to twenty and a quarter microseconds. */
  lemma WorkerPauses(tries: seq<Try>, n: nat, i: nat)
    requires TriesFit(tries) && i < n < |tries|
    ensures |tries| == 10 && 20_000 <= Pauses(STRATEGY, tries, n)[i] < 20_250
  {
    WorkerBackoffIsFlat(i);
    assert tries[i] in tries;
  }

  /**
   * What the outside does while a batch is handled: the business query, and for each listed business whether the node
   * answers for all its transactions, and ten attempts.
   */
  datatype World = World(businesses: Option<seq<string>>, lookups: seq<bool>, tries: seq<seq<Try>>)

  predicate WorldFits(w: World) {
    w.businesses.Some? ==>
      && |w.tries| == |w.lookups| == |w.businesses.value|
      && forall i | 0 <= i < |w.tries| :: TriesFit(w.tries[i])
  }

  predicate TriesFit(tries: seq<Try>) {
    |tries| == MAX_ATTEMPTS && forall t | t in tries :: STRATEGY.Jitters(t.jitter)
  }

  /** Some attempt is free of faults, and no cancellation comes before it ends. */
  predicate SomeGoesThrough(tries: seq<Try>) {
    exists i | 0 <= i < |tries| :: GoesThrough(tries, i)
  }

  predicate BatchFits(batch: Batch) {
    forall uid | uid in batch :: batch[uid].blockHeight < TWO_64
  }

  /** The heights of a message come out of uint64 conversions. */
  lemma CollectedBatchFits(policy: Policy, node: Node, headers: seq<SyncClient.Header>)
    ensures BatchFits(Collect(policy, node, headers))
  {
    var batch := Collect(policy, node, headers);
    forall uid | uid in batch ensures batch[uid].blockHeight < TWO_64 {
      CollectIsStream(policy, node, headers, uid);
      LastContributionFits(policy, node, uid, headers);
    }
  }

  lemma {:induction false} LastContributionFits(policy: Policy, node: Node, uid: string,
                                                headers: seq<SyncClient.Header>)
    ensures LastContribution(policy, node, uid, headers) < TWO_64
  {
    if headers != [] {
      LastContributionFits(policy, node, uid, headers[..|headers| - 1]);
    }
  }

  /** The retried transaction of one business. */
  method PersistBusiness(policy: Policy, store: Store<Database>, uid: string, ch: TransactionsChannel, confirms: nat,
                         tries: seq<Try>)
    returns (ok: bool)
    requires TriesFit(tries)
    requires DatabaseFits(store.state) && ch.blockHeight < TWO_64
    modifies store
    ensures DatabaseFits(store.state)
    ensures var body := Body(policy, WalletOf(old(store.state), uid), ch, confirms);
            && (ok ==> body.Some? && store.state == old(store.state)[uid := body.value])
            && (!ok ==> store.state == old(store.state))
            && (ok <==> body.Some? && SomeGoesThrough(tries))
    ensures store.commits == old(store.commits) + if ok then 1 else 0
  {
    var w := WalletOf(store.state, uid);
    var body := RunBody(policy, w, ch, confirms);
    if body.Some? {
      BodyKeepsLocks(policy, w, ch, confirms);
    }
    hide Body;
    var target: Option<Database> := if body.Some? then Some(store.state[uid := body.value]) else None;
    var r, slept := Do(store, target, MAX_ATTEMPTS, STRATEGY, tries);
    ok := r.Ok?;
    CommitsIff(target, tries);
  }

  /** The outside lets the i-th listed business through. */
  predicate Allowed(world: World, i: nat)
    requires WorldFits(world) && world.businesses.Some? && i < |world.businesses.value|
  {
    world.lookups[i] && SomeGoesThrough(world.tries[i])
  }

  /** One entry of the business list: nothing to do, an early error return, or the retried transaction. */
  method HandleBusiness(policy: Policy, store: Store<Database>, batch: Batch, confirms: nat, world: World, i: nat)
    returns (ok: bool)
    requires WorldFits(world) && BatchFits(batch) && DatabaseFits(store.state)
    requires world.businesses.Some? && i < |world.businesses.value|
    modifies store
    ensures DatabaseFits(store.state)
    ensures var uid := world.businesses.value[i];
            && (ok <==> uid in batch ==>
                  Allowed(world, i) && Body(policy, WalletOf(old(store.state), uid), batch[uid], confirms).Some?)
            && (ok ==> CommitOne(policy, Some(old(store.state)), batch, confirms, uid) == Some(store.state))
            && (!ok ==> store.state == old(store.state))
            && store.commits == old(store.commits) + if ok && uid in batch then 1 else 0
  {
    hide Body, DatabaseFits, SomeGoesThrough, TriesFit;
    var uid := world.businesses.value[i];
    if uid !in batch {
      return true;
    }
    if !world.lookups[i] {
      return false;
    }
    ok := PersistBusiness(policy, store, uid, batch[uid], confirms, world.tries[i]);
  }

  /**
   * The entries of the list from the i-th on, one after the other: the database they leave, and whether all went
   * through.
   */
  function HandleFrom(policy: Policy, db: Database, batch: Batch, confirms: nat, world: World, i: nat): (Database, bool)
    requires WorldFits(world) && world.businesses.Some? && i <= |world.businesses.value|
    decreases |world.businesses.value| - i
  {
    if i == |world.businesses.value| then (db, true)
    else
      var uid := world.businesses.value[i];
      if uid !in batch then HandleFrom(policy, db, batch, confirms, world, i + 1)
      else
        var after := Body(policy, WalletOf(db, uid), batch[uid], confirms);
        if Allowed(world, i) && after.Some?
        then HandleFrom(policy, db[uid := after.value], batch, confirms, world, i + 1)
        else (db, false)
  }

  /** What one call of handleBatch leaves, and whether it returns nil. */
  function AfterHandle(policy: Policy, db: Database, batch: Batch, confirms: nat, world: World): (Database, bool)
    requires WorldFits(world)
  {
    if world.businesses.None? then (db, false) else HandleFrom(policy, db, batch, confirms, world, 0)
  }

  /** The entry of the list at which handleBatch ends, from the i-th on: that of the error, or the end of the list. */
  function ReachedFrom(policy: Policy, db: Database, batch: Batch, confirms: nat, world: World, i: nat): (n: nat)
    requires WorldFits(world) && world.businesses.Some? && i <= |world.businesses.value|
    ensures i <= n <= |world.businesses.value|
    decreases |world.businesses.value| - i
  {
    if i == |world.businesses.value| then i
    else
      var uid := world.businesses.value[i];
      if uid !in batch then ReachedFrom(policy, db, batch, confirms, world, i + 1)
      else
        var after := Body(policy, WalletOf(db, uid), batch[uid], confirms);
        if Allowed(world, i) && after.Some?
        then ReachedFrom(policy, db[uid := after.value], batch, confirms, world, i + 1)
        else i
  }

  function Reached(policy: Policy, db: Database, batch: Batch, confirms: nat, world: World): nat
    requires WorldFits(world)
  {
    if world.businesses.None? then 0 else ReachedFrom(policy, db, batch, confirms, world, 0)
  }

  /**
   * handleBatch.  The businesses that are present in the batch are committed in list order, each once; the first one
   * that cannot be committed ends the call with an error, so that exactly the entries before it are in the database.
   */
  method HandleBatch(policy: Policy, store: Store<Database>, batch: Batch, confirms: nat, world: World)
    returns (ok: bool, done: nat)
    requires WorldFits(world) && BatchFits(batch) && DatabaseFits(store.state)
    modifies store
    ensures DatabaseFits(store.state)
    ensures (store.state, ok) == AfterHandle(policy, old(store.state), batch, confirms, world)
    ensures done == Reached(policy, old(store.state), batch, confirms, world)
    ensures world.businesses.None? ==> !ok && store.state == old(store.state) && store.commits == old(store.commits)
    ensures world.businesses.Some? ==>
              var businesses := world.businesses.value;
              && done <= |businesses| && (ok <==> done == |businesses|)
              && (forall i | 0 <= i < done && businesses[i] in batch :: Allowed(world, i))
              && CommitAll(policy, old(store.state), batch, confirms, businesses[..done]) == Some(store.state)
              && store.commits == old(store.commits) + Present(businesses[..done], batch)
    ensures world.businesses.Some? && !ok ==>
              var uid := world.businesses.value[done];
              && uid in batch
              && (Allowed(world, done) ==> Body(policy, WalletOf(store.state, uid), batch[uid], confirms).None?)
  {
    done := 0;
    if world.businesses.None? {
      return false, 0;
    }
    ghost var db := store.state;
    ghost var commits := store.commits;
    var businessList := world.businesses.value;
    hide Body, DatabaseFits, BatchFits, WorldFits, Allowed, CommitOne, Progress, AfterHandle, Reached, CommitAll,
         Present, WalletOf;
    NoProgress(policy, db, commits, batch, confirms, world);
    while done < |businessList|
      invariant 0 <= done <= |businessList|
      invariant DatabaseFits(store.state)
      invariant Progress(policy, db, commits, batch, confirms, world, store.state, store.commits, done)
    {
      ghost var mid := store.state;
      ghost var before := store.commits;
      ok := HandleBusiness(policy, store, batch, confirms, world, done);
      if !ok {
        Refused(policy, db, commits, batch, confirms, world, mid, before, done);
        return false, done;
      }
      Passes(policy, db, commits, batch, confirms, world, mid, before, done, store.state, store.commits);
      done := done + 1;
    }
    AllPassed(policy, db, commits, batch, confirms, world, store.state, store.commits);
    return true, done;
  }

  /** The first `done` entries are behind, and led from `db` to `mid`. */
  ghost predicate Progress(policy: Policy, db: Database, commits: nat, batch: Batch, confirms: nat, world: World,
                           mid: Database, now: nat, done: nat)
    requires WorldFits(world) && world.businesses.Some? && done <= |world.businesses.value|
  {
    var uids := world.businesses.value;
    && AfterHandle(policy, db, batch, confirms, world) == HandleFrom(policy, mid, batch, confirms, world, done)
    && Reached(policy, db, batch, confirms, world) == ReachedFrom(policy, mid, batch, confirms, world, done)
    && (forall i | 0 <= i < done && uids[i] in batch :: Allowed(world, i))
    && CommitAll(policy, db, batch, confirms, uids[..done]) == Some(mid)
    && now == commits + Present(uids[..done], batch)
  }

  lemma NoProgress(policy: Policy, db: Database, commits: nat, batch: Batch, confirms: nat, world: World)
    requires WorldFits(world) && world.businesses.Some?
    ensures Progress(policy, db, commits, batch, confirms, world, db, commits, 0)
  {
    hide WorldFits, Body;
    NothingCommitted(policy, db, batch, confirms, world.businesses.value);
  }

  lemma Passes(policy: Policy, db: Database, commits: nat, batch: Batch, confirms: nat, world: World, mid: Database,
               now: nat, done: nat, after: Database, later: nat)
    requires WorldFits(world) && world.businesses.Some? && done < |world.businesses.value|
    requires Progress(policy, db, commits, batch, confirms, world, mid, now, done)
    requires var uid := world.businesses.value[done];
             && (uid in batch ==> Allowed(world, done) && Body(policy, WalletOf(mid, uid), batch[uid], confirms).Some?)
             && CommitOne(policy, Some(mid), batch, confirms, uid) == Some(after)
             && later == now + if uid in batch then 1 else 0
    ensures Progress(policy, db, commits, batch, confirms, world, after, later, done + 1)
  {
    OneMore(policy, db, mid, batch, confirms, world, done);
    hide WorldFits, Body, AfterHandle, HandleFrom, Reached, ReachedFrom, CommitAll, CommitOne, Present, Allowed,
         WalletOf;
  }

  lemma Refused(policy: Policy, db: Database, commits: nat, batch: Batch, confirms: nat, world: World, mid: Database,
                now: nat, done: nat)
    requires WorldFits(world) && world.businesses.Some? && done < |world.businesses.value|
    requires Progress(policy, db, commits, batch, confirms, world, mid, now, done)
    requires var uid := world.businesses.value[done];
             && uid in batch
             && !(Allowed(world, done) && Body(policy, WalletOf(mid, uid), batch[uid], confirms).Some?)
    ensures var uids := world.businesses.value;
            && AfterHandle(policy, db, batch, confirms, world) == (mid, false)
            && Reached(policy, db, batch, confirms, world) == done
            && (forall i | 0 <= i < done && uids[i] in batch :: Allowed(world, i))
            && CommitAll(policy, db, batch, confirms, uids[..done]) == Some(mid)
            && now == commits + Present(uids[..done], batch)
  {
    OneMore(policy, db, mid, batch, confirms, world, done);
    hide WorldFits, Body, AfterHandle, HandleFrom, Reached, ReachedFrom, CommitAll, CommitOne, Present, Allowed,
         WalletOf;
  }

  lemma AllPassed(policy: Policy, db: Database, commits: nat, batch: Batch, confirms: nat, world: World,
                  mid: Database, now: nat)
    requires WorldFits(world) && world.businesses.Some?
    requires Progress(policy, db, commits, batch, confirms, world, mid, now, |world.businesses.value|)
    ensures var uids := world.businesses.value;
            && AfterHandle(policy, db, batch, confirms, world) == (mid, true)
            && Reached(policy, db, batch, confirms, world) == |uids|
            && (forall i | 0 <= i < |uids| && uids[i] in batch :: Allowed(world, i))
            && CommitAll(policy, db, batch, confirms, uids[..|uids|]) == Some(mid)
            && now == commits + Present(uids[..|uids|], batch)
  {
    hide WorldFits, Body, CommitAll, Present, Allowed;
    HandleNothing(policy, mid, batch, confirms, world);
  }

  lemma NothingCommitted(policy: Policy, db: Database, batch: Batch, confirms: nat, uids: seq<string>)
    ensures CommitAll(policy, db, batch, confirms, uids[..0]) == Some(db) && Present(uids[..0], batch) == 0
  {
  }

  lemma HandleNothing(policy: Policy, db: Database, batch: Batch, confirms: nat, world: World)
    requires WorldFits(world) && world.businesses.Some?
    ensures HandleFrom(policy, db, batch, confirms, world, |world.businesses.value|) == (db, true)
    ensures ReachedFrom(policy, db, batch, confirms, world, |world.businesses.value|) == |world.businesses.value|
  {
  }

  /** The next entry of the list, in the terms of the functions above. */
  lemma OneMore(policy: Policy, db: Database, mid: Database, batch: Batch, confirms: nat, world: World, i: nat)
    requires WorldFits(world) && world.businesses.Some? && i < |world.businesses.value|
    requires CommitAll(policy, db, batch, confirms, world.businesses.value[..i]) == Some(mid)
    ensures var uids := world.businesses.value;
            var uid := uids[i];
            var next := CommitOne(policy, Some(mid), batch, confirms, uid);
            && CommitAll(policy, db, batch, confirms, uids[..i + 1]) == next
            && Present(uids[..i + 1], batch) == Present(uids[..i], batch) + (if uid in batch then 1 else 0)
            && (var passes := uid in batch ==>
                  Allowed(world, i) && Body(policy, WalletOf(mid, uid), batch[uid], confirms).Some?;
                && HandleFrom(policy, mid, batch, confirms, world, i)
                   == (if passes then HandleFrom(policy, next.value, batch, confirms, world, i + 1) else (mid, false))
                && ReachedFrom(policy, mid, batch, confirms, world, i)
                   == (if passes then ReachedFrom(policy, next.value, batch, confirms, world, i + 1) else i))
  {
    hide Body, Allowed, WorldFits;
    assert world.businesses.value[..i + 1][..i] == world.businesses.value[..i];
  }
}
