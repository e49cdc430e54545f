/**
 * From the chain to the consumer: which messages of the scanner can be committed, and which handleBatch calls succeed.
 */
module MessageOutcome {
  import opened Prelude
  import opened BigInt
  import opened Balances
  import opened Classifier
  import opened Deposits
  import opened Retry
  import SyncClient
  import opened Synchronizer
  import opened DepositWorker

  // ---------------------------------------------------------------------------------------------
  // handleBatch as a whole
  // ---------------------------------------------------------------------------------------------

  /** The node answered for all transactions of the i-th business, and some attempt is clean before any cancellation. */
  predicate LetThrough(world: World, i: nat)
    requires WorldFits(world) && world.businesses.Some? && i < |world.businesses.value|
  {
    && world.lookups[i]
    && exists a | 0 <= a < |world.tries[i]| ::
         !world.tries[i][a].fault && forall j | 0 <= j <= a :: !world.tries[i][j].cancelled
  }

  lemma AllowedIs(world: World, i: nat)
    requires WorldFits(world) && world.businesses.Some? && i < |world.businesses.value|
    ensures Allowed(world, i) <==> LetThrough(world, i)
  {
    if LetThrough(world, i) {
      var a :| 0 <= a < |world.tries[i]| && !world.tries[i][a].fault
               && forall j | 0 <= j <= a :: !world.tries[i][j].cancelled;
      assert GoesThrough(world.tries[i], a);
    }
    if Allowed(world, i) {
      var a :| 0 <= a < |world.tries[i]| && GoesThrough(world.tries[i], a);
      assert !world.tries[i][a].fault && forall j | 0 <= j <= a :: !world.tries[i][j].cancelled;
    }
  }

  /** The call can succeed: the business list is read, every present business is let through, every body succeeds. */
  predicate Handles(policy: Policy, db: Database, batch: Batch, confirms: nat, world: World)
    requires WorldFits(world)
  {
    && world.businesses.Some?
    && (forall i | 0 <= i < |world.businesses.value| && world.businesses.value[i] in batch :: LetThrough(world, i))
    && CommitAll(policy, db, batch, confirms, world.businesses.value).Some?
  }

  /** handleBatch returns nil exactly then, and the database it leaves is the one all the businesses lead to. */
  lemma HandlesIff(policy: Policy, db: Database, batch: Batch, confirms: nat, world: World)
    requires WorldFits(world)
    ensures var (after, ok) := AfterHandle(policy, db, batch, confirms, world);
            && (ok <==> Handles(policy, db, batch, confirms, world))
            && (ok ==> CommitAll(policy, db, batch, confirms, world.businesses.value) == Some(after))
  {
    if world.businesses.Some? {
      assert world.businesses.value[..0] == [];
      HandleFromIff(policy, db, db, batch, confirms, world, 0);
      hide LetThrough, Allowed, WorldFits, CommitAll, HandleFrom;
      forall i | 0 <= i < |world.businesses.value| ensures Allowed(world, i) <==> LetThrough(world, i) {
        AllowedIs(world, i);
      }
    }
  }

  lemma {:induction false} HandleFromIff(policy: Policy, db: Database, mid: Database, batch: Batch, confirms: nat,
                                         world: World, i: nat)
    requires WorldFits(world) && world.businesses.Some? && i <= |world.businesses.value|
    requires CommitAll(policy, db, batch, confirms, world.businesses.value[..i]) == Some(mid)
    ensures var uids := world.businesses.value;
            var (after, ok) := HandleFrom(policy, mid, batch, confirms, world, i);
            && (ok <==> (forall j | i <= j < |uids| && uids[j] in batch :: Allowed(world, j))
                        && CommitAll(policy, db, batch, confirms, uids).Some?)
            && (ok ==> CommitAll(policy, db, batch, confirms, uids) == Some(after))
    decreases |world.businesses.value| - i
  {
    hide Body, WorldFits, Allowed;
    var uids := world.businesses.value;
    if i == |uids| {
      assert uids[..i] == uids;
    } else {
      var uid := uids[i];
      assert uids[..i + 1][..i] == uids[..i];
      var next := CommitAll(policy, db, batch, confirms, uids[..i + 1]);
      assert next == CommitOne(policy, Some(mid), batch, confirms, uid);
      if next.None? {
        NoneStays(policy, db, batch, confirms, uids, i + 1);
      } else {
        HandleFromIff(policy, db, next.value, batch, confirms, world, i + 1);
      }
    }
  }

  lemma {:induction false} NoneStays(policy: Policy, db: Database, batch: Batch, confirms: nat, uids: seq<string>,
                                     i: nat)
    requires i <= |uids| && CommitAll(policy, db, batch, confirms, uids[..i]).None?
    ensures CommitAll(policy, db, batch, confirms, uids).None?
  {
    hide Body;
    if i == |uids| {
      assert uids[..i] == uids;
    } else {
      assert uids[..|uids| - 1][..i] == uids[..i];
      NoneStays(policy, db, batch, confirms, uids[..|uids| - 1], i);
    }
  }

  /** The other businesses leave a wallet alone. */
  lemma {:induction false} OthersKeepWallet(policy: Policy, db: Database, batch: Batch, confirms: nat,
                                            uids: seq<string>, uid: string)
    requires uid !in uids && CommitAll(policy, db, batch, confirms, uids).Some?
    ensures WalletOf(CommitAll(policy, db, batch, confirms, uids).value, uid) == WalletOf(db, uid)
  {
    hide Body;
    if uids != [] {
      OthersKeepWallet(policy, db, batch, confirms, uids[..|uids| - 1], uid);
      assert uids[|uids| - 1] in uids;
    }
  }

  /** One business that cannot be committed is enough, wherever and however often it is listed. */
  lemma {:induction false} OneFailureFailsTheList(policy: Policy, db: Database, batch: Batch, confirms: nat,
                                                  uids: seq<string>, uid: string)
    requires uid in uids && uid in batch && Body(policy, WalletOf(db, uid), batch[uid], confirms).None?
    ensures CommitAll(policy, db, batch, confirms, uids).None?
  {
    hide Body;
    var init, last := uids[..|uids| - 1], uids[|uids| - 1];
    assert uids == init + [last];
    if uid in init {
      OneFailureFailsTheList(policy, db, batch, confirms, init, uid);
    } else if CommitAll(policy, db, batch, confirms, init).Some? {
      OthersKeepWallet(policy, db, batch, confirms, init, uid);
    }
  }

  predicate EachOnce(uids: seq<string>) {
    forall i, j | 0 <= i < j < |uids| :: uids[i] != uids[j]
  }

  /** With each business listed once, the list commits exactly when each present business would commit by itself. */
  lemma {:induction false} CommitAllIff(policy: Policy, db: Database, batch: Batch, confirms: nat, uids: seq<string>)
    requires EachOnce(uids)
    ensures CommitAll(policy, db, batch, confirms, uids).Some?
            <==> forall uid | uid in uids && uid in batch :: Body(policy, WalletOf(db, uid), batch[uid], confirms).Some?
  {
    hide Body;
    if uids != [] {
      var init, last := uids[..|uids| - 1], uids[|uids| - 1];
      assert uids == init + [last] && last in uids;
      CommitAllIff(policy, db, batch, confirms, init);
      if CommitAll(policy, db, batch, confirms, init).Some? {
        OthersKeepWallet(policy, db, batch, confirms, init, last);
      } else {
        var uid :| uid in init && uid in batch && Body(policy, WalletOf(db, uid), batch[uid], confirms).None?;
        assert uid in uids;
      }
    }
  }

  // ---------------------------------------------------------------------------------------------
  // When a message can be committed
  // ---------------------------------------------------------------------------------------------

  /** The labels whose movements debit a wallet. */
  predicate Charges(txType: Label) {
    txType.Collection? || txType.HotToCold? || txType.ColdToHot?
  }

  /** The address that pays for an output: movements carry no sender, so it is the empty one, or the receiver itself. */
  function Payer(txType: Label, address: string): string {
    if txType.ColdToHot? then address else ""
  }

  predicate OutputsCovered(t: Table, tx: Transaction) {
    Charges(tx.txType) ==>
      forall i | 0 <= i < |tx.voutList| :: tx.voutList[i].amount <= LockOf(t, Payer(tx.txType, tx.voutList[i].address))
  }

  lemma {:induction false} LegIsOfMovement(list: seq<TokenBalance>, leg: Leg)
    ensures leg in AllLegs(list) <==> exists m | m in list :: leg in Legs(m)
  {
    if list != [] {
      hide Legs;
      LegIsOfMovement(list[1..], leg);
      assert list == [list[0]] + list[1..];
    }
  }

  lemma {:induction false} MovementIsOfTransaction(txs: seq<Transaction>, m: TokenBalance)
    ensures m in Accumulate(txs).movements <==> exists tx | tx in txs :: m in MovementsOf(tx)
  {
    if txs != [] {
      hide MovementsOf;
      var init, last := txs[..|txs| - 1], txs[|txs| - 1];
      assert txs == init + [last];
      MovementIsOfTransaction(init, m);
    }
  }

  lemma MovementIsOutput(tx: Transaction, m: TokenBalance) returns (i: nat)
    requires m in MovementsOf(tx)
    ensures i < |tx.voutList| && tx.txType != Withdraw && tx.txType != Unknown
    ensures m == TokenBalance("", tx.voutList[i].address, tx.voutList[i].amount, tx.txType)
  {
    i :| 0 <= i < |MovementsOf(tx)| && MovementsOf(tx)[i] == m;
  }

  lemma OutputCharges(t: Table, tx: Transaction, i: nat, leg: Leg)
    requires i < |tx.voutList| && tx.txType != Withdraw && tx.txType != Unknown && OutputsCovered(t, tx) && leg.Debit?
    requires leg in Legs(TokenBalance("", tx.voutList[i].address, tx.voutList[i].amount, tx.txType))
    ensures leg.amount <= LockOf(t, leg.address)
  {
    hide LockOf;
  }

  lemma DebitIsCovered(t: Table, txs: seq<Transaction>, leg: Leg)
    requires leg in AllLegs(Accumulate(txs).movements) && leg.Debit?
    requires forall tx | tx in txs :: OutputsCovered(t, tx)
    ensures leg.amount <= LockOf(t, leg.address)
  {
    hide LockOf, Accumulate, AllLegs, Legs, MovementsOf, OutputsCovered;
    var list := Accumulate(txs).movements;
    LegIsOfMovement(list, leg);
    var m :| m in list && leg in Legs(m);
    MovementIsOfTransaction(txs, m);
    var tx :| tx in txs && m in MovementsOf(tx);
    var i := MovementIsOutput(tx, m);
    OutputCharges(t, tx, i, leg);
  }

  /** The debits of a message are its outputs, charged to their payers. */
  lemma DebitsAreOutputs(t: Table, txs: seq<Transaction>)
    ensures Covered(t, AllLegs(Accumulate(txs).movements)) <==> forall tx | tx in txs :: OutputsCovered(t, tx)
  {
    hide LockOf, Accumulate, AllLegs, OutputsCovered;
    var legs := AllLegs(Accumulate(txs).movements);
    if forall tx | tx in txs :: OutputsCovered(t, tx) {
      forall k | 0 <= k < |legs| && legs[k].Debit? ensures legs[k].amount <= LockOf(t, legs[k].address) {
        DebitIsCovered(t, txs, legs[k]);
      }
    } else {
      var tx :| tx in txs && !OutputsCovered(t, tx);
      UncoveredOutput(t, txs, tx);
    }
  }

  lemma UncoveredOutput(t: Table, txs: seq<Transaction>, tx: Transaction)
    requires tx in txs && !OutputsCovered(t, tx)
    ensures !Covered(t, AllLegs(Accumulate(txs).movements))
  {
    hide LockOf, Accumulate, AllLegs;
    var list := Accumulate(txs).movements;
    var i :| 0 <= i < |tx.voutList| && tx.voutList[i].amount > LockOf(t, Payer(tx.txType, tx.voutList[i].address));
    var m := MovementsOf(tx)[i];
    MovementIsOfTransaction(txs, m);
    LegIsOfMovement(list, Legs(m)[0]);
    var k :| 0 <= k < |AllLegs(list)| && AllLegs(list)[k] == Legs(m)[0];
  }

  /**
   * Short of an overflow, a message can be committed exactly when every output of a collection, hot-to-cold or
   * cold-to-hot transfer is covered by what its payer has locked.
   */
  lemma MessageCommitsIff(policy: Policy, w: Wallet, ch: TransactionsChannel, confirms: nat)
    requires Roomy(w.balances, AllLegs(Accumulate(ch.transactions).movements))
    ensures Body(policy, w, ch, confirms).Some? <==> forall tx | tx in ch.transactions :: OutputsCovered(w.balances, tx)
  {
    hide Roomy, Accumulate, AllLegs, ApplyLegs, OutputsCovered, Covered, ConfirmAll;
    CoveredIff(w.balances, AllLegs(Accumulate(ch.transactions).movements));
    DebitsAreOutputs(w.balances, ch.transactions);
  }

  /** An uncovered output makes the message impossible to commit, overflow or not. */
  lemma UncoveredOutputFails(policy: Policy, w: Wallet, ch: TransactionsChannel, confirms: nat, tx: Transaction)
    requires tx in ch.transactions && !OutputsCovered(w.balances, tx)
    ensures Body(policy, w, ch, confirms).None?
  {
    hide Accumulate, AllLegs, ApplyLegs, OutputsCovered, ConfirmAll;
    var legs := AllLegs(Accumulate(ch.transactions).movements);
    UncoveredOutput(w.balances, ch.transactions, tx);
    var k :| 0 <= k < |legs| && legs[k].Debit? && legs[k].amount > LockOf(w.balances, legs[k].address);
    UncoveredDebitFails(w.balances, legs, k);
  }

  // ---------------------------------------------------------------------------------------------
  // The scanner's messages
  // ---------------------------------------------------------------------------------------------

  /** The scanner's records carry no inputs, whatever the transaction spends. */
  lemma {:induction false} ItemsCarryNoInputs(policy: Policy, book: Book, uid: string, header: SyncClient.Header,
                                              txs: seq<RawTx>)
    ensures forall item | item in Items(policy, book, uid, header, txs) :: item.vinList == []
  {
    if txs != [] {
      ItemsCarryNoInputs(policy, book, uid, header, txs[..|txs| - 1]);
    }
  }

  lemma {:induction false} ItemIsOfRaw(policy: Policy, book: Book, uid: string, header: SyncClient.Header,
                                       txs: seq<RawTx>, item: Transaction)
    ensures item in Items(policy, book, uid, header, txs)
            <==> exists raw | raw in txs :: item == Item(policy, book, uid, header, raw)
  {
    if txs != [] {
      hide Item;
      var init, last := txs[..|txs| - 1], txs[|txs| - 1];
      assert txs == init + [last];
      ItemIsOfRaw(policy, book, uid, header, init, item);
    }
  }

  lemma {:induction false} BlockItems(policy: Policy, node: Node, uid: string, header: SyncClient.Header,
                                      txs: seq<RawTx>, uids: seq<string>, item: Transaction)
    ensures item in BlockStream(policy, node, uid, header, txs, uids)
            <==> uid in uids && item in Items(policy, node.BookOf(uid), uid, header, txs)
  {
    if uids != [] {
      hide Items;
      var init, last := uids[..|uids| - 1], uids[|uids| - 1];
      assert uids == init + [last];
      BlockItems(policy, node, uid, header, txs, init, item);
    }
  }

  /** The chain transaction behind an item of a header. */
  predicate ItemOf(policy: Policy, node: Node, uid: string, header: SyncClient.Header, raw: RawTx, item: Transaction) {
    Readable(node, header) && raw in node.txs[header.number] && item == Item(policy, node.BookOf(uid), uid, header, raw)
  }

  /** What a business receives is exactly what the chain holds under the headers. */
  lemma {:induction false} StreamItems(policy: Policy, node: Node, uid: string, headers: seq<SyncClient.Header>,
                                       item: Transaction)
    requires node.businesses.Some? && uid in node.businesses.value
    ensures item in Stream(policy, node, uid, headers)
            <==> exists header, raw | header in headers :: ItemOf(policy, node, uid, header, raw, item)
  {
    if headers != [] {
      var init, last := headers[..|headers| - 1], headers[|headers| - 1];
      assert headers == init + [last];
      StreamItems(policy, node, uid, init, item);
      hide Item;
      if Readable(node, last) {
        BlockItems(policy, node, uid, last, node.txs[last.number], node.businesses.value, item);
        ItemIsOfRaw(policy, node.BookOf(uid), uid, last, node.txs[last.number], item);
      }
      hide Items, BlockStream;
      if raw :| ItemOf(policy, node, uid, last, raw, item) {
        assert item in HeaderStream(policy, node, uid, last);
      }
      if item in HeaderStream(policy, node, uid, last) {
        var raw :| raw in node.txs[last.number] && item == Item(policy, node.BookOf(uid), uid, last, raw);
        assert ItemOf(policy, node, uid, last, raw, item);
      }
    }
  }

  /** Every output of a chain transaction is covered, under the label the scanner gives it. */
  predicate Payable(policy: Policy, book: Book, t: Table, raw: RawTx) {
    var o := Classified(policy, book, raw);
    o.Labelled? && Charges(o.kind) ==>
      forall i | 0 <= i < |raw.vout| :: raw.vout[i].amount <= LockOf(t, Payer(o.kind, raw.vout[i].address))
  }

  lemma PayableIsCovered(policy: Policy, book: Book, uid: string, header: SyncClient.Header, raw: RawTx, t: Table)
    ensures OutputsCovered(t, Item(policy, book, uid, header, raw)) <==> Payable(policy, book, t, raw)
  {
    hide Classified, LockOf;
    var item := Item(policy, book, uid, header, raw);
    assert |item.voutList| == |raw.vout|;
    assert forall i | 0 <= i < |raw.vout| ::
        item.voutList[i].amount == raw.vout[i].amount && item.voutList[i].address == raw.vout[i].address;
  }

  predicate AllPayable(policy: Policy, node: Node, uid: string, t: Table, headers: seq<SyncClient.Header>) {
    forall header | header in headers && header.number in node.txs ::
      forall raw | raw in node.txs[header.number] :: Payable(policy, node.BookOf(uid), t, raw)
  }

  /**
   * From the chain to the database: short of an overflow, what the scanner collects for a business can be committed
   * exactly when every transaction under the headers is payable.
   */
  lemma ScannedMessageCommitsIff(policy: Policy, node: Node, uid: string, headers: seq<SyncClient.Header>,
                                 confirms: nat, w: Wallet)
    requires node.businesses.Some? && uid in node.businesses.value
    requires var batch := Collect(policy, node, headers);
             uid in batch && Roomy(w.balances, AllLegs(Accumulate(batch[uid].transactions).movements))
    ensures Body(policy, w, Collect(policy, node, headers)[uid], confirms).Some?
            <==> AllPayable(policy, node, uid, w.balances, headers)
  {
    hide Roomy, Body, Collect, Stream, Payable, OutputsCovered, Accumulate, AllLegs, Item;
    var ch := Collect(policy, node, headers)[uid];
    CollectIsStream(policy, node, headers, uid);
    MessageCommitsIff(policy, w, ch, confirms);
    StreamCovered(policy, node, uid, headers, w.balances);
  }

  lemma StreamCovered(policy: Policy, node: Node, uid: string, headers: seq<SyncClient.Header>, t: Table)
    requires node.businesses.Some? && uid in node.businesses.value
    ensures (forall tx | tx in Stream(policy, node, uid, headers) :: OutputsCovered(t, tx))
            <==> AllPayable(policy, node, uid, t, headers)
  {
    hide Stream, Payable, OutputsCovered, Item;
    var txs := Stream(policy, node, uid, headers);
    if AllPayable(policy, node, uid, t, headers) {
      forall tx | tx in txs ensures OutputsCovered(t, tx) {
        StreamItems(policy, node, uid, headers, tx);
        var header, raw :| header in headers && ItemOf(policy, node, uid, header, raw, tx);
        PayableIsCovered(policy, node.BookOf(uid), uid, header, raw, t);
      }
    } else {
      var header, raw :| header in headers && header.number in node.txs && raw in node.txs[header.number]
                         && !Payable(policy, node.BookOf(uid), t, raw);
      var item := Item(policy, node.BookOf(uid), uid, header, raw);
      assert ItemOf(policy, node, uid, header, raw, item);
      StreamItems(policy, node, uid, headers, item);
      PayableIsCovered(policy, node.BookOf(uid), uid, header, raw, t);
    }
  }

  /**
   * One transaction that is not payable, in any header of any batch, stops the consumer: whatever the node, the
   * database and the retries do, and however the business list looks, handleBatch ends in an error.
   */
  lemma UnpayableStopsTheConsumer(policy: Policy, node: Node, uid: string, headers: seq<SyncClient.Header>,
                                  header: SyncClient.Header, raw: RawTx, confirms: nat, db: Database, world: World)
    requires node.businesses.Some? && uid in node.businesses.value && header in headers
    requires header.number in node.txs && raw in node.txs[header.number]
    requires !Payable(policy, node.BookOf(uid), WalletOf(db, uid).balances, raw)
    requires WorldFits(world) && world.businesses.Some? && uid in world.businesses.value
    ensures var batch := Collect(policy, node, headers);
            && uid in batch
            && Body(policy, WalletOf(db, uid), batch[uid], confirms).None?
            && !AfterHandle(policy, db, batch, confirms, world).1
  {
    hide Body, Collect, Stream, Payable, OutputsCovered, Item, Accumulate, AllLegs, WorldFits, Allowed;
    var batch := Collect(policy, node, headers);
    var item := Item(policy, node.BookOf(uid), uid, header, raw);
    assert ItemOf(policy, node, uid, header, raw, item);
    StreamItems(policy, node, uid, headers, item);
    CollectIsStream(policy, node, headers, uid);
    PayableIsCovered(policy, node.BookOf(uid), uid, header, raw, WalletOf(db, uid).balances);
    UncoveredOutputFails(policy, WalletOf(db, uid), batch[uid], confirms, item);
    OneFailureFailsTheList(policy, db, batch, confirms, world.businesses.value, uid);
    HandlesIff(policy, db, batch, confirms, world);
  }

  /** Short of an overflow: what the scanner collects for any business of the list has room in its wallet. */
  predicate AllRoomy(policy: Policy, node: Node, headers: seq<SyncClient.Header>, db: Database, uids: seq<string>) {
    forall uid | uid in uids && uid in Collect(policy, node, headers) ::
      Roomy(WalletOf(db, uid).balances, AllLegs(Accumulate(Collect(policy, node, headers)[uid].transactions).movements))
  }

  /**
   * When the outside lets every present business through and no column overflows, the consumer survives a message of
   * the scanner exactly when every transaction under the headers is payable for every business.
   */
  lemma ConsumerSurvivesIff(policy: Policy, node: Node, headers: seq<SyncClient.Header>, confirms: nat, db: Database,
                            world: World)
    requires WorldFits(world) && world.businesses.Some? && world.businesses == node.businesses
    requires EachOnce(world.businesses.value) && AllRoomy(policy, node, headers, db, world.businesses.value)
    requires forall i | 0 <= i < |world.businesses.value| :: LetThrough(world, i)
    ensures AfterHandle(policy, db, Collect(policy, node, headers), confirms, world).1
            <==> forall uid | uid in world.businesses.value ::
                   AllPayable(policy, node, uid, WalletOf(db, uid).balances, headers)
  {
    hide Body, Collect, Roomy, Accumulate, AllLegs, LetThrough, WorldFits, AllPayable;
    var batch, uids := Collect(policy, node, headers), world.businesses.value;
    HandlesIff(policy, db, batch, confirms, world);
    CommitAllIff(policy, db, batch, confirms, uids);
    forall uid | uid in uids
      ensures uid in batch ==>
                (Body(policy, WalletOf(db, uid), batch[uid], confirms).Some?
                 <==> AllPayable(policy, node, uid, WalletOf(db, uid).balances, headers))
      ensures uid !in batch ==> AllPayable(policy, node, uid, WalletOf(db, uid).balances, headers)
    {
      if uid in batch {
        ScannedMessageCommitsIff(policy, node, uid, headers, confirms, WalletOf(db, uid));
      } else {
        CollectIsStream(policy, node, headers, uid);
        StreamCovered(policy, node, uid, headers, WalletOf(db, uid).balances);
      }
    }
  }

  /** One coin from a user's address to the hot wallet: a collection, and nobody has anything locked for it. */
  lemma SmallCollectionIsUnpayable(policy: Policy)
    ensures var book := Book(map["u" := User, "h" := Hot, "c" := Cold], {}, Found("h"), Found("c"));
            var raw := RawTx("", "", [RawIo("u", 0, 1)], [RawIo("h", 0, 1)]);
            Classified(policy, book, raw) == Labelled(Collection) && !Payable(policy, book, [], raw)
  {
    var book := Book(map["u" := User, "h" := Hot, "c" := Cold], {}, Found("h"), Found("c"));
    var vin, vout := [RawIo("u", 0, 1)], [RawIo("h", 0, 1)];
    SplitWhole("u");
    assert vin[..0] == [] && Senders(vin) == ["u"] && Receivers(vout) == ["h"];
    assert "u" != "h" && "u" != "c" && "h" != "c" by {
      assert "u"[0] != "h"[0] && "u"[0] != "c"[0] && "h"[0] != "c"[0];
    }
    assert ToLower("h") == "h";
    assert book.AddressExist("h") == Some(Hot) && book.Query("u") == Found(User);
    var tos, froms := ["h"], ["u"];
    assert "h" in tos && "u" in froms && !AnyFails(policy, book, froms);
    assert Matches(book, Collection, "h", "u") && !Matches(book, HotToCold, "h", "u")
           && !Matches(book, ColdToHot, "h", "u");
    assert !SomePair(book, HotToCold, tos, froms) && !SomePair(book, ColdToHot, tos, froms);
    var raw := RawTx("", "", vin, vout);
    assert Classified(policy, book, raw) == Labelled(Collection);
    assert raw.vout[0].amount > LockOf([], Payer(Collection, raw.vout[0].address));
  }

  // ---------------------------------------------------------------------------------------------
  // The empty address
  // ---------------------------------------------------------------------------------------------

  /** What changes the wallets: a message that is handled, or balances that the sending workers lock. */
  datatype Deed = Handling(batch: Batch, world: World) | Locking(uid: string, locks: seq<Lock>)

  predicate DeedFits(deed: Deed) {
    deed.Handling? ==> WorldFits(deed.world)
  }

  function AfterDeed(policy: Policy, db: Database, confirms: nat, deed: Deed): Database
    requires DeedFits(deed)
  {
    match deed
    case Handling(batch, world) => AfterHandle(policy, db, batch, confirms, world).0
    case Locking(uid, locks) =>
      var w := WalletOf(db, uid);
      db[uid := w.(balances := ApplyLocks(w.balances, locks).rows)]
  }

  function AfterDeeds(policy: Policy, db: Database, confirms: nat, deeds: seq<Deed>): Database
    requires forall deed | deed in deeds :: DeedFits(deed)
    decreases |deeds|
  {
    if deeds == [] then db else AfterDeeds(policy, AfterDeed(policy, db, confirms, deeds[0]), confirms, deeds[1..])
  }

  predicate LeavesUnlocked(deed: Deed, a: string) {
    deed.Locking? ==> forall l | l in deed.locks :: l.address != a
  }

  function LockIn(db: Database, uid: string, a: string): int {
    LockOf(WalletOf(db, uid).balances, a)
  }

  lemma {:induction false} OtherLocksStay(t: Table, locks: seq<Lock>, a: string)
    requires forall l | l in locks :: l.address != a
    ensures LockOf(ApplyLocks(t, locks).rows, a) == LockOf(t, a)
    decreases |locks|
  {
    if locks != [] && Has(t, locks[0].address) {
      assert locks[0] in locks;
      if LockOne(t, locks[0]).ok {
        LockEffect(t, locks[0], a);
        hide LockOne, LockOf;
        OtherLocksStay(LockOne(t, locks[0]).rows, locks[1..], a);
      }
    }
  }

  lemma BodyKeepsLock(policy: Policy, w: Wallet, ch: TransactionsChannel, confirms: nat, a: string)
    requires Body(policy, w, ch, confirms).Some?
    ensures LockOf(Body(policy, w, ch, confirms).value.balances, a) == LockOf(w.balances, a)
  {
    hide Accumulate, AllLegs, ConfirmAll, LockOf, ApplyLegs;
    LocksAndRows(w.balances, AllLegs(Accumulate(ch.transactions).movements), a);
  }

  lemma {:induction false} HandleKeepsLock(policy: Policy, db: Database, batch: Batch, confirms: nat, world: World,
                                           i: nat, uid: string, a: string)
    requires WorldFits(world) && world.businesses.Some? && i <= |world.businesses.value|
    ensures LockIn(HandleFrom(policy, db, batch, confirms, world, i).0, uid, a) == LockIn(db, uid, a)
    decreases |world.businesses.value| - i
  {
    hide Body, Allowed, WorldFits, LockOf;
    if i < |world.businesses.value| {
      var other := world.businesses.value[i];
      if other !in batch {
        HandleKeepsLock(policy, db, batch, confirms, world, i + 1, uid, a);
      } else {
        var after := Body(policy, WalletOf(db, other), batch[other], confirms);
        if Allowed(world, i) && after.Some? {
          BodyKeepsLock(policy, WalletOf(db, other), batch[other], confirms, a);
          HandleKeepsLock(policy, db[other := after.value], batch, confirms, world, i + 1, uid, a);
        }
      }
    }
  }

  lemma {:induction false} DeedsKeepLock(policy: Policy, db: Database, confirms: nat, deeds: seq<Deed>, uid: string,
                                         a: string)
    requires forall deed | deed in deeds :: DeedFits(deed) && LeavesUnlocked(deed, a)
    ensures LockIn(AfterDeeds(policy, db, confirms, deeds), uid, a) == LockIn(db, uid, a)
    decreases |deeds|
  {
    if deeds != [] {
      var deed := deeds[0];
      assert DeedFits(deed) && LeavesUnlocked(deed, a);
      DeedKeepsLock(policy, db, confirms, deed, uid, a);
      hide LockIn, AfterDeed, DeedFits, LeavesUnlocked;
      DeedsKeepLock(policy, AfterDeed(policy, db, confirms, deed), confirms, deeds[1..], uid, a);
    }
  }

  lemma DeedKeepsLock(policy: Policy, db: Database, confirms: nat, deed: Deed, uid: string, a: string)
    requires DeedFits(deed) && LeavesUnlocked(deed, a)
    ensures LockIn(AfterDeed(policy, db, confirms, deed), uid, a) == LockIn(db, uid, a)
  {
    hide LockOf, WorldFits, HandleFrom, ApplyLocks;
    match deed
    case Handling(batch, world) =>
      if world.businesses.Some? {
        HandleKeepsLock(policy, db, batch, confirms, world, 0, uid, a);
      }
    case Locking(other, locks) =>
      OtherLocksStay(WalletOf(db, other).balances, locks, a);
  }

  /**
   * Handling messages never changes a lock.  So as long as nobody locks an amount for the empty address, no message
   * with a positive output of a collection or a hot-to-cold transfer is ever committed, whatever came before it.
   */
  lemma EmptyAddressNeverPays(policy: Policy, db: Database, confirms: nat, deeds: seq<Deed>, uid: string,
                              ch: TransactionsChannel, tx: Transaction, i: nat)
    requires forall deed | deed in deeds :: DeedFits(deed) && LeavesUnlocked(deed, "")
    requires LockIn(db, uid, "") == 0
    requires tx in ch.transactions && (tx.txType.Collection? || tx.txType.HotToCold?)
    requires i < |tx.voutList| && tx.voutList[i].amount > 0
    ensures Body(policy, WalletOf(AfterDeeds(policy, db, confirms, deeds), uid), ch, confirms).None?
  {
    hide Body, AfterDeeds, DeedFits, LeavesUnlocked;
    DeedsKeepLock(policy, db, confirms, deeds, uid, "");
    var w := WalletOf(AfterDeeds(policy, db, confirms, deeds), uid);
    assert !OutputsCovered(w.balances, tx);
    UncoveredOutputFails(policy, w, ch, confirms, tx);
  }

  // ---------------------------------------------------------------------------------------------
  // A message that is handled twice
  // ---------------------------------------------------------------------------------------------

  /** Nothing recognises a repeated message: rows are stored twice, and an address that is only credited gains twice. */
  lemma RepeatedMessageCountsTwice(policy: Policy, w: Wallet, ch: TransactionsChannel, confirms: nat, a: string)
    requires Body(policy, w, ch, confirms).Some?
    requires Body(policy, Body(policy, w, ch, confirms).value, ch, confirms).Some?
    ensures var twice := Body(policy, Body(policy, w, ch, confirms).value, ch, confirms).value;
            var acc := Accumulate(ch.transactions);
            && |twice.deposits| == |w.deposits| + 2 * |acc.deposits|
            && twice.flows == w.flows + acc.flows + acc.flows
            && twice.vins == w.vins + acc.vins + acc.vins
            && (LastDebit(AllLegs(acc.movements), a) < 0 ==>
                  BalanceOf(twice.balances, a) == BalanceOf(w.balances, a) + 2 * Credits(AllLegs(acc.movements), a))
  {
    hide Accumulate, AllLegs, ApplyLegs, Credits, LastDebit, BalanceOf, LockOf, Has, Find;
    var legs := AllLegs(Accumulate(ch.transactions).movements);
    LegsClosedForm(w.balances, legs, a);
    LegsClosedForm(Body(policy, w, ch, confirms).value.balances, legs, a);
  }
}
