/** Two processes that hand the same block over twice, the second in a shorter window: a confirmation is taken back. */
module RestartExample {
  import opened Prelude
  import opened BigInt
  import opened Balances
  import opened Classifier
  import opened SyncClient
  import opened Synchronizer
  import opened Deposits
  import opened DepositWorker
  import opened MessageOutcome
  import opened Scanner
  import opened ScannerRefinement
  import opened WalletHistory
  import opened GapExample

  const DEEP := Config(AsMeant, 0, 2, 3)

  const PLAIN := Book(map["u" := User, "h" := Hot, "c" := Cold], {}, Found("h"), Found("c"))

  /** A payment of one coin from the outside to a user. */
  const PAYMENT := RawTx("", "", [RawIo("x", 0, 1)], [RawIo("u", 0, 1)])

  /** Blocks 1 and 2 hold a payment each. */
  const TWO := Node(map[1 := [PAYMENT], 2 := [PAYMENT]], Some(["b"]), map["b" := PLAIN], false)

  /** The node's newest block is n. */
  function UpTo(n: nat): Provider {
    Provider(Reported(BlockHeader(n)), map[1 := BlockHeader(1), 2 := BlockHeader(2)])
  }

  function Item1(n: nat): Transaction {
    Transaction("b", n, "", "", Deposit, [], [VoutItem("u", 0, 1)])
  }

  lemma PaymentIsDeposit()
    ensures Classified(AsMeant, PLAIN, PAYMENT) == Labelled(Deposit)
  {
    SplitWhole("x");
    var vin, vout := PAYMENT.vin, PAYMENT.vout;
    assert vin[..0] == [] && Senders(vin) == ["x"] && Receivers(vout) == ["u"];
    assert "x" != "u" && "x" != "h" && "x" != "c" && "u" != "h" && "u" != "c" by {
      assert "x"[0] != "u"[0] && "x"[0] != "h"[0] && "x"[0] != "c"[0] && "u"[0] != "h"[0] && "u"[0] != "c"[0];
    }
    assert ToLower("u") == "u";
    var tos, froms := ["u"], ["x"];
    assert PLAIN.AddressExist("u") == Some(User) && PLAIN.Query("x") == NotFound;
    assert "u" in tos && "x" in froms && !AnyFails(AsMeant, PLAIN, froms);
    assert Matches(PLAIN, Deposit, "u", "x");
    assert !SomePair(PLAIN, Withdraw, tos, froms) && !SomePair(PLAIN, Collection, tos, froms);
    assert !SomePair(PLAIN, HotToCold, tos, froms) && !SomePair(PLAIN, ColdToHot, tos, froms);
  }

  /** What one block holds for the business. */
  lemma OneBlock(n: nat)
    requires n == 1 || n == 2
    ensures HeaderStop(AsMeant, TWO, BlockHeader(n)) == Go
    ensures HeaderStream(AsMeant, TWO, "b", BlockHeader(n)) == [Item1(n)]
  {
    PaymentIsDeposit();
    assert TWO.BookOf("b") == PLAIN && TWO.txs[n] == [PAYMENT];
    assert [PAYMENT][..0] == [] && ["b"][..0] == [];
    hide Classified;
    assert TxsStop(AsMeant, PLAIN, [PAYMENT]) == Go;
    assert BusinessesStop(AsMeant, TWO, [PAYMENT], ["b"]) == Go;
    assert Item(AsMeant, PLAIN, "b", BlockHeader(n), PAYMENT) == Item1(n);
    assert Items(AsMeant, PLAIN, "b", BlockHeader(n), [PAYMENT]) == [] + [Item1(n)];
    assert BlockStream(AsMeant, TWO, "b", BlockHeader(n), [PAYMENT], ["b"]) == [] + [Item1(n)];
  }

  /** One more block at the end of a window. */
  lemma WindowGrows(window: seq<Header>, n: nat)
    requires (n == 1 || n == 2) && HeadersStop(AsMeant, TWO, window) == Go
    ensures HeadersStop(AsMeant, TWO, window + [BlockHeader(n)]) == Go
    ensures Stream(AsMeant, TWO, "b", window + [BlockHeader(n)]) == Stream(AsMeant, TWO, "b", window) + [Item1(n)]
    ensures LastContribution(AsMeant, TWO, "b", window + [BlockHeader(n)]) == n
  {
    OneBlock(n);
    hide HeaderStop, HeaderStream;
    var more := window + [BlockHeader(n)];
    assert more[..|more| - 1] == window && more[|more| - 1] == BlockHeader(n);
    assert Uint64(n) == n;
  }

  lemma EmptyWindow()
    ensures HeadersStop(AsMeant, TWO, []) == Go && Stream(AsMeant, TWO, "b", []) == []
  {
  }

  /** The messages of the long and of the short window. */
  lemma TwoMessages()
    ensures var long, short := [BlockHeader(1), BlockHeader(2)], [BlockHeader(1)];
            && HeadersStop(AsMeant, TWO, long) == Go && HeadersStop(AsMeant, TWO, short) == Go
            && "b" in Collect(AsMeant, TWO, long) && "b" in Collect(AsMeant, TWO, short)
            && Collect(AsMeant, TWO, long)["b"] == TransactionsChannel(2, [Item1(1), Item1(2)])
            && Collect(AsMeant, TWO, short)["b"] == TransactionsChannel(1, [Item1(1)])
  {
    var long, short := [BlockHeader(1), BlockHeader(2)], [BlockHeader(1)];
    EmptyWindow();
    hide HeadersStop, Stream, LastContribution, Collect;
    WindowGrows([], 1);
    WindowGrows(short, 2);
    assert [] + [BlockHeader(1)] == short && short + [BlockHeader(2)] == long;
    assert [] + [Item1(1)] == [Item1(1)] && [Item1(1)] + [Item1(2)] == [Item1(1), Item1(2)];
    CollectIsStream(AsMeant, TWO, short, "b");
    CollectIsStream(AsMeant, TWO, long, "b");
  }

  function Row(n: nat): DepositRow {
    DepositRow(n, "", 0, UNSAFE)
  }

  function Coin(): Leg {
    Credit(User, "u", 1)
  }

  function CoinMove(): TokenBalance {
    TokenBalance("", "u", 1, Deposit)
  }

  lemma ItemMoves(n: nat)
    ensures MovementsOf(Item1(n)) == [CoinMove()] && DepositsOf(Item1(n)) == [Row(n)]
  {
  }

  lemma AccumulateOne(txs: seq<Transaction>, n: nat)
    ensures Accumulate(txs + [Item1(n)]).deposits == Accumulate(txs).deposits + [Row(n)]
    ensures Accumulate(txs + [Item1(n)]).movements == Accumulate(txs).movements + [CoinMove()]
  {
    ItemMoves(n);
    hide MovementsOf, DepositsOf, VinsOf;
    assert (txs + [Item1(n)])[..|txs|] == txs;
  }

  lemma CoinLegs()
    ensures AllLegs([CoinMove()]) == [Coin()] && AllLegs([CoinMove(), CoinMove()]) == [Coin(), Coin()]
  {
    BalancesDB.LegsOfOne(CoinMove());
    assert Legs(CoinMove()) == [Coin()];
    hide AllLegs, Legs;
    AllLegsInTwo([CoinMove()], [CoinMove()]);
    assert [CoinMove()] + [CoinMove()] == [CoinMove(), CoinMove()];
  }

  lemma Accumulated(n: nat)
    requires n == 1 || n == 2
    ensures var txs := if n == 1 then [Item1(1)] else [Item1(1), Item1(2)];
            && Accumulate(txs).deposits == (if n == 1 then [Row(1)] else [Row(1), Row(2)])
            && AllLegs(Accumulate(txs).movements) == (if n == 1 then [Coin()] else [Coin(), Coin()])
  {
    assert Accumulate([]).deposits == [] && Accumulate([]).movements == [];
    CoinLegs();
    hide Accumulate, AllLegs;
    AccumulateOne([], 1);
    AccumulateOne([Item1(1)], 2);
    assert [] + [Item1(1)] == [Item1(1)] && [Item1(1)] + [Item1(2)] == [Item1(1), Item1(2)];
  }

  /** Two coins on top of a small balance fit the column. */
  lemma CoinsFit(t: Table, legs: seq<Leg>)
    requires legs == [Coin()] || legs == [Coin(), Coin()]
    requires 0 <= BalanceOf(t, "u") <= 2 && LockOf(t, "u") == 0
    ensures ApplyLegs(t, legs).ok
    ensures BalanceOf(ApplyLegs(t, legs).rows, "u") == BalanceOf(t, "u") + |legs|
    ensures LockOf(ApplyLegs(t, legs).rows, "u") == 0
  {
    assert [Coin(), Coin()][1..] == [Coin()] && [Coin()][1..] == [];
    assert Credits(legs, "u") == |legs|;
    assert LastDebit(legs, "u") == -1;
    hide BalanceOf, LockOf, ApplyLegs, Credits, LastDebit;
    CoveredIff(t, legs);
    LegsClosedForm(t, legs, "u");
  }

  /** A wallet with at most two coins takes the message. */
  lemma MessageFits(w: Wallet, n: nat)
    requires n == 1 || n == 2
    requires 0 <= BalanceOf(w.balances, "u") <= 2 && LockOf(w.balances, "u") == 0
    ensures var ch := TransactionsChannel(n, if n == 1 then [Item1(1)] else [Item1(1), Item1(2)]);
            var after := Body(AsMeant, w, ch, 3);
            && after.Some?
            && after.value.deposits
               == ConfirmAll(AsMeant, w.deposits + (if n == 1 then [Row(1)] else [Row(1), Row(2)]), n, 3)
            && BalanceOf(after.value.balances, "u") == BalanceOf(w.balances, "u") + n
            && LockOf(after.value.balances, "u") == 0
  {
    hide Accumulate, AllLegs, ApplyLegs, BalanceOf, LockOf, ConfirmAll;
    Accumulated(n);
    CoinsFit(w.balances, if n == 1 then [Coin()] else [Coin(), Coin()]);
  }

  /** handleBatch on a message that its wallet takes. */
  lemma OneBusiness(db: Database, batch: Batch)
    requires "b" in batch && Body(AsMeant, WalletOf(db, "b"), batch["b"], 3).Some?
    ensures WorldFits(WORLD)
    ensures AfterHandle(AsMeant, db, batch, 3, WORLD)
            == (db["b" := Body(AsMeant, WalletOf(db, "b"), batch["b"], 3).value], true)
  {
    WorldIsFit();
    hide Body;
    assert Allowed(WORLD, 0) by {
      assert Retry.GoesThrough(WORLD.tries[0], 0);
    }
    var after := db["b" := Body(AsMeant, WalletOf(db, "b"), batch["b"], 3).value];
    assert HandleFrom(AsMeant, after, batch, 3, WORLD, 1) == (after, true);
  }

  lemma FetchOneMore(p: Provider, lo: nat, n: nat)
    requires FetchAll(p, lo, n).Some? && lo + n in p.headers
    ensures FetchAll(p, lo, n + 1) == Some(FetchAll(p, lo, n).value + [p.headers[lo + n]])
  {
  }

  lemma Fetches(n: nat, v: View)
    requires n == 1 || n == 2
    requires v.cursor == Some(BlockHeader(0)) && v.headers == []
    ensures AfterFetch(UpTo(n), 0, 2, v)
            == v.(cursor := Some(BlockHeader(n)),
                  headers := if n == 1 then [BlockHeader(1)] else [BlockHeader(1), BlockHeader(2)])
  {
    var p := UpTo(n);
    PlanIsNextWindow(Some(0 as nat), n, 0, 2);
    assert FetchAll(p, 1, 0) == Some([]) && 1 in p.headers && 2 in p.headers;
    assert FetchAll(p, 1, 1) == Some([] + [BlockHeader(1)]);
    FetchOneMore(p, 1, 1);
    assert 1 + 1 == 2 && p.headers[2] == BlockHeader(2);
    assert FetchAll(p, 1, 1).value == [BlockHeader(1)];
    assert FetchAll(p, 1, 2).value == [BlockHeader(1), BlockHeader(2)];
  }

  function TickUpTo(n: nat): Event {
    Tick(UpTo(n), TWO, BlockHeader(0), WORLD)
  }

  /** Blocks 1 and 2 are handed over and handled; the insert fails. */
  function FirstProcess(): seq<Event> {
    [TickUpTo(2), Take, Handle(WORLD), Insert(true)]
  }

  /** The process ends; the node is behind, and block 1 comes by itself. */
  function SecondProcess(): seq<Event> {
    [Crash(BlockHeader(0), WORLD), TickUpTo(1), Take, Handle(WORLD)]
  }

  lemma EventsAreSane()
    ensures AllSane(DEEP, FirstProcess()) && AllSane(DEEP, SecondProcess())
  {
    WorldIsFit();
    hide WorldFits;
  }

  /** A scanner at rest behind block 0, with nothing stored. */
  predicate Fresh(pl: Pipeline) {
    && pl.view.cursor == Some(BlockHeader(0)) && pl.view.headers == [] && pl.view.blocks == []
    && pl.loop.AtRest? && pl.hands.Free?
  }

  function HeadersUpTo(n: nat): seq<Header> {
    if n == 1 then [BlockHeader(1)] else [BlockHeader(1), BlockHeader(2)]
  }

  function AfterThree(n: nat, pl: Pipeline): Pipeline
    requires Playable(DEEP, TickUpTo(n)) && Playable(DEEP, Handle(WORLD))
  {
    AfterEvent(DEEP, AfterEvent(DEEP, AfterEvent(DEEP, pl, TickUpTo(n)), Take), Handle(WORLD))
  }

  /** The consumer has the window in hand. */
  predicate InHands(n: nat, pl: Pipeline) {
    && pl.hands == Busy(HeadersUpTo(n), Collect(AsMeant, TWO, HeadersUpTo(n)), TWO)
    && pl.loop.Sent? && pl.view.headers == HeadersUpTo(n) && pl.view.blocks == []
  }

  lemma TwoEvents(n: nat, pl: Pipeline)
    requires (n == 1 || n == 2) && Fresh(pl) && WorldFits(WORLD)
    requires HeadersStop(AsMeant, TWO, HeadersUpTo(n)) == Go
    ensures var t := AfterEvent(DEEP, AfterEvent(DEEP, pl, TickUpTo(n)), Take);
            InHands(n, t) && t.db == pl.db
  {
    Fetches(n, pl.view);
    hide WorldFits, HeadersStop, Collect, AfterHandle, AfterFetch, Reached;
    var p1 := AfterEvent(DEEP, pl, TickUpTo(n));
    assert p1 == pl.(view := Fetched(DEEP, pl, TickUpTo(n)),
                     loop := Offers(Collect(AsMeant, TWO, HeadersUpTo(n)), TWO));
  }

  lemma HandleEvent(n: nat, pl: Pipeline, db: Database)
    requires InHands(n, pl) && WorldFits(WORLD)
    requires AfterHandle(AsMeant, pl.db, Collect(AsMeant, TWO, HeadersUpTo(n)), 3, WORLD) == (db, true)
    ensures var t := AfterEvent(DEEP, pl, Handle(WORLD));
            t.loop.Sent? && t.hands.Free? && t.view == pl.view && t.db == db
  {
    hide WorldFits, Collect, AfterHandle, Reached;
  }

  /** A tick, the hand-over and handleBatch, for one of the two windows. */
  lemma ThreeEvents(n: nat, pl: Pipeline, db: Database)
    requires (n == 1 || n == 2) && Fresh(pl) && WorldFits(WORLD)
    requires HeadersStop(AsMeant, TWO, HeadersUpTo(n)) == Go
    requires AfterHandle(AsMeant, pl.db, Collect(AsMeant, TWO, HeadersUpTo(n)), 3, WORLD) == (db, true)
    ensures Playable(DEEP, TickUpTo(n)) && Playable(DEEP, Take) && Playable(DEEP, Handle(WORLD))
    ensures var t := AfterThree(n, pl);
            t.loop.Sent? && t.hands.Free? && t.view.blocks == [] && t.view.headers == HeadersUpTo(n) && t.db == db
  {
    hide WorldFits, HeadersStop, Collect, AfterHandle, AfterEvent, Fresh;
    TwoEvents(n, pl);
    HandleEvent(n, AfterEvent(DEEP, AfterEvent(DEEP, pl, TickUpTo(n)), Take), db);
  }

  /** What they leave in the wallet. */
  lemma Delivered(n: nat, pl: Pipeline)
    requires (n == 1 || n == 2) && Fresh(pl)
    requires 0 <= BalanceOf(WalletOf(pl.db, "b").balances, "u") <= 2
    requires LockOf(WalletOf(pl.db, "b").balances, "u") == 0
    ensures Playable(DEEP, TickUpTo(n)) && Playable(DEEP, Take) && Playable(DEEP, Handle(WORLD))
    ensures var t := AfterThree(n, pl);
            var w, after := WalletOf(pl.db, "b"), WalletOf(t.db, "b");
            && t.loop.Sent? && t.hands.Free? && t.view.blocks == [] && t.view.headers == HeadersUpTo(n)
            && after.deposits
               == ConfirmAll(AsMeant, w.deposits + (if n == 1 then [Row(1)] else [Row(1), Row(2)]), n, 3)
            && BalanceOf(after.balances, "u") == BalanceOf(w.balances, "u") + n
            && LockOf(after.balances, "u") == 0
  {
    WorldIsFit();
    TwoMessages();
    hide WorldFits, HeadersStop, Collect, AfterHandle, AfterThree, Body, BalanceOf, LockOf, ConfirmAll, Playable, Fresh;
    MessageFits(WalletOf(pl.db, "b"), n);
    var batch := Collect(AsMeant, TWO, HeadersUpTo(n));
    OneBusiness(pl.db, batch);
    ThreeEvents(n, pl, pl.db["b" := Body(AsMeant, WalletOf(pl.db, "b"), batch["b"], 3).value]);
  }

  lemma ConfirmedTwice()
    ensures var first := ConfirmAll(AsMeant, [] + [Row(1), Row(2)], 2, 3);
            && |first| == 2 && first[0].confirms == 1
            && |ConfirmAll(AsMeant, first + [Row(1)], 1, 3)| == 3
            && ConfirmAll(AsMeant, first + [Row(1)], 1, 3)[0].confirms == 0
            && ConfirmAll(AsMeant, first + [Row(1)], 1, 3)[2].blockNumber == 1
  {
    var first := ConfirmAll(AsMeant, [] + [Row(1), Row(2)], 2, 3);
    ConfirmIsExact(Row(1), 2, 3);
    assert first[0] == ConfirmRow(AsMeant, Row(1), 2, 3);
    ConfirmIsExact(first[0], 1, 3);
  }

  lemma FirstHalf()
    ensures AllSane(DEEP, FirstProcess())
    ensures var t := AfterAll(DEEP, Start(BlockHeader(0), map[]), FirstProcess());
            var w := WalletOf(t.db, "b");
            && t.loop.AtRest? && t.hands.Free? && t.view.blocks == []
            && w.deposits == ConfirmAll(AsMeant, [] + [Row(1), Row(2)], 2, 3)
            && BalanceOf(w.balances, "u") == 2 && LockOf(w.balances, "u") == 0
  {
    EventsAreSane();
    var p0 := Start(BlockHeader(0), map[]);
    assert WalletOf(p0.db, "b") == NEW_WALLET && BalanceOf([], "u") == 0 && LockOf([], "u") == 0;
    Delivered(2, p0);
    hide Sane, ConfirmAll, BalanceOf, LockOf, WalletOf, TickUpTo;
    FourEvents(DEEP, p0, TickUpTo(2), Take, Handle(WORLD), Insert(true));
    var p3 := AfterEvent(DEEP, AfterEvent(DEEP, AfterEvent(DEEP, p0, TickUpTo(2)), Take), Handle(WORLD));
    InsertFails(p3);
  }

  lemma InsertFails(pl: Pipeline)
    requires pl.loop.Sent?
    ensures AfterEvent(DEEP, pl, Insert(true)) == pl.(loop := AtRest)
  {
  }

  lemma CrashIsFresh(pl: Pipeline)
    requires pl.hands.Free? && pl.view.blocks == [] && WorldFits(WORLD)
    ensures var t := AfterEvent(DEEP, pl, Crash(BlockHeader(0), WORLD));
            Fresh(t) && t.db == pl.db
  {
    hide WorldFits;
  }

  /**
   * The deposit of block 1 has one confirmation when the first process ends and none when the second has handled the
   * block again, which has also stored the deposit a second time.
   */
  lemma RestartTakesBack()
    ensures AllSane(DEEP, FirstProcess()) && AllSane(DEEP, SecondProcess())
    ensures var t := AfterAll(DEEP, Start(BlockHeader(0), map[]), FirstProcess());
            var u := AfterAll(DEEP, t, SecondProcess());
            var before, after := WalletOf(t.db, "b").deposits, WalletOf(u.db, "b").deposits;
            && |before| == 2 && before[0].blockNumber == 1 && before[0].confirms == 1
            && |after| == 3 && after[0].blockNumber == 1 && after[0].confirms == 0 && after[2].blockNumber == 1
  {
    EventsAreSane();
    WorldIsFit();
    FirstHalf();
    var t := AfterAll(DEEP, Start(BlockHeader(0), map[]), FirstProcess());
    hide Sane, AfterAll, Start, BalanceOf, LockOf, WorldFits, FirstProcess;
    CrashIsFresh(t);
    var crash := Crash(BlockHeader(0), WORLD);
    var p1 := AfterEvent(DEEP, t, crash);
    Delivered(1, p1);
    FourEvents(DEEP, t, crash, TickUpTo(1), Take, Handle(WORLD));
    ConfirmedTwice();
  }
}
