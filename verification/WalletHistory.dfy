/**
 * What the events leave in the database, exactly: the messages of the deliveries, applied in the order of the history,
 * each to the businesses that handleBatch got to.
 */
module WalletHistory {
  import opened Prelude
  import opened BigInt
  import opened Balances
  import opened Classifier
  import opened SyncClient
  import opened Synchronizer
  import opened Deposits
  import opened DepositWorker
  import opened Scanner
  import opened ScannerRefinement

  // ---------------------------------------------------------------------------------------------
  // One call of handleBatch
  // ---------------------------------------------------------------------------------------------

  lemma {:induction false} HandleFromCommits(policy: Policy, db: Database, mid: Database, batch: Batch, confirms: nat,
                                             world: World, i: nat)
    requires WorldFits(world) && world.businesses.Some? && i <= |world.businesses.value|
    requires CommitAll(policy, db, batch, confirms, world.businesses.value[..i]) == Some(mid)
    ensures var uids := world.businesses.value;
            var (after, ok) := HandleFrom(policy, mid, batch, confirms, world, i);
            var n := ReachedFrom(policy, mid, batch, confirms, world, i);
            && CommitAll(policy, db, batch, confirms, uids[..n]) == Some(after)
            && (ok <==> n == |uids|)
    decreases |world.businesses.value| - i
  {
    hide Body, WorldFits, Allowed;
    var uids := world.businesses.value;
    if i < |uids| {
      var uid := uids[i];
      assert uids[..i + 1][..i] == uids[..i];
      var next := CommitAll(policy, db, batch, confirms, uids[..i + 1]);
      assert next == CommitOne(policy, Some(mid), batch, confirms, uid);
      if uid in batch ==> Allowed(world, i) && next.Some? {
        HandleFromCommits(policy, db, next.value, batch, confirms, world, i + 1);
      }
    }
  }

  /** handleBatch commits exactly the entries that it got past, in list order. */
  lemma HandleCommits(policy: Policy, db: Database, batch: Batch, confirms: nat, world: World)
    requires WorldFits(world)
    ensures var n := Reached(policy, db, batch, confirms, world);
            var (after, ok) := AfterHandle(policy, db, batch, confirms, world);
            && n <= |ListOf(world)|
            && CommitAll(policy, db, batch, confirms, ListOf(world)[..n]) == Some(after)
            && (ok <==> world.businesses.Some? && n == |ListOf(world)|)
  {
    hide WorldFits, Body, Allowed, HandleFrom, ReachedFrom;
    if world.businesses.Some? {
      assert world.businesses.value[..0] == [];
      HandleFromCommits(policy, db, db, batch, confirms, world, 0);
    } else {
      assert ListOf(world)[..0] == [];
    }
  }

  // ---------------------------------------------------------------------------------------------
  // The database is its history
  // ---------------------------------------------------------------------------------------------

  /** The businesses that a delivery was handled for, as far as handleBatch got. */
  function Passed(d: Delivery): seq<string> {
    if d.reached <= |d.uids| then d.uids[..d.reached] else d.uids
  }

  function Replayed(policy: Policy, db: Database, log: seq<Delivery>, confirms: nat): Option<Database> {
    if log == [] then Some(db)
    else
      var before := Replayed(policy, db, log[..|log| - 1], confirms);
      var d := log[|log| - 1];
      if before.Some? then CommitAll(policy, before.value, d.batch, confirms, Passed(d)) else None
  }

  lemma ReplayedGrows(policy: Policy, db: Database, log: seq<Delivery>, d: Delivery, confirms: nat)
    requires Replayed(policy, db, log, confirms).Some?
    ensures Replayed(policy, db, log + [d], confirms)
            == CommitAll(policy, Replayed(policy, db, log, confirms).value, d.batch, confirms, Passed(d))
  {
    assert (log + [d])[..|log|] == log;
  }

  /** The history from the k-th delivery on leads from the database `db` to the present one. */
  predicate Logged(cfg: Config, db: Database, k: nat, pl: Pipeline) {
    k <= |pl.log| && Replayed(cfg.policy, db, pl.log[k..], cfg.confirms) == Some(pl.db)
  }

  lemma EndedIsLogged(cfg: Config, db: Database, k: nat, pl: Pipeline, world: World, ok: bool, t: Pipeline)
    requires pl.hands.Busy? && WorldFits(world) && Logged(cfg, db, k, pl)
    requires t.db == AfterHandle(cfg.policy, pl.db, pl.hands.batch, cfg.confirms, world).0
    requires t.log == pl.log + [Ended(cfg, pl, world, ok)]
    ensures Logged(cfg, db, k, t)
  {
    hide WorldFits, AfterHandle, Replayed, CommitAll, Reached;
    var d := Ended(cfg, pl, world, ok);
    HandleCommits(cfg.policy, pl.db, pl.hands.batch, cfg.confirms, world);
    ReplayedGrows(cfg.policy, db, pl.log[k..], d, cfg.confirms);
    assert t.log[k..] == pl.log[k..] + [d];
  }

  lemma RebornIsLogged(cfg: Config, db: Database, k: nat, pl: Pipeline, world: World, head: Header)
    requires WorldFits(world) && Logged(cfg, db, k, pl)
    ensures Logged(cfg, db, k, Reborn(Broken(cfg, pl, world), head))
  {
    hide WorldFits, AfterHandle, Replayed, Reached, Resumed;
    if pl.hands.Busy? {
      EndedIsLogged(cfg, db, k, pl, world, false, Broken(cfg, pl, world));
    }
  }

  lemma EventIsLogged(cfg: Config, db: Database, k: nat, pl: Pipeline, e: Event)
    requires Playable(cfg, e) && Logged(cfg, db, k, pl)
    ensures Logged(cfg, db, k, AfterEvent(cfg, pl, e))
  {
    hide WorldFits, AfterHandle, Replayed, Reached, HeadersStop, Collect, Reply, Insertable, Reborn, Broken, Logged;
    match e
    case Tick(_, _, head, world) =>
      if Works(cfg, pl, e) && Stopped(cfg, pl, e) == StopPanic {
        SameLog(cfg, db, k, pl, pl.(view := Fetched(cfg, pl, e)));
        RebornIsLogged(cfg, db, k, pl.(view := Fetched(cfg, pl, e)), world, head);
      } else {
        SameLog(cfg, db, k, pl, AfterEvent(cfg, pl, e));
      }
    case Handle(world) =>
      if pl.hands.Busy? {
        var ok := AfterHandle(cfg.policy, pl.db, pl.hands.batch, cfg.confirms, world).1;
        EndedIsLogged(cfg, db, k, pl, world, ok, AfterEvent(cfg, pl, e));
      }
    case Crash(head, world) => RebornIsLogged(cfg, db, k, pl, world, head);
    case _ => SameLog(cfg, db, k, pl, AfterEvent(cfg, pl, e));
  }

  lemma SameLog(cfg: Config, db: Database, k: nat, pl: Pipeline, t: Pipeline)
    requires Logged(cfg, db, k, pl) && t.log == pl.log && t.db == pl.db
    ensures Logged(cfg, db, k, t)
  {
  }

  lemma {:induction false} EventsAreLogged(cfg: Config, db: Database, k: nat, pl: Pipeline, events: seq<Event>)
    requires AllSane(cfg, events) && Logged(cfg, db, k, pl)
    ensures Logged(cfg, db, k, AfterAll(cfg, pl, events))
    decreases |events|
  {
    hide Logged, AfterEvent, Playable, Sane;
    if events != [] {
      EventIsLogged(cfg, db, k, pl, events[0]);
      EventsAreLogged(cfg, db, k, AfterEvent(cfg, pl, events[0]), events[1..]);
    }
  }

  /**
   * From any state, in any interleaving, under any failures, panics and crashes: the database is the one that the new
   * deliveries of the history lead to, each committed for exactly the businesses that handleBatch got past.
   */
  lemma DatabaseIsItsHistory(cfg: Config, pl: Pipeline, events: seq<Event>)
    requires AllSane(cfg, events)
    ensures var t := AfterAll(cfg, pl, events);
            && |pl.log| <= |t.log|
            && Replayed(cfg.policy, pl.db, t.log[|pl.log|..], cfg.confirms) == Some(t.db)
  {
    hide AfterAll, Sane, Playable;
    assert Logged(cfg, pl.db, |pl.log|, pl) by { assert pl.log[|pl.log|..] == []; }
    EventsAreLogged(cfg, pl.db, |pl.log|, pl, events);
  }

  // ---------------------------------------------------------------------------------------------
  // The wallet of one business
  // ---------------------------------------------------------------------------------------------

  /** What a list of businesses takes out of a message for one of them: the same part for every listing. */
  function MessagesIn(batch: Batch, uids: seq<string>, uid: string): seq<TransactionsChannel> {
    if uids == [] then []
    else
      MessagesIn(batch, uids[..|uids| - 1], uid)
      + (if uids[|uids| - 1] == uid && uid in batch then [batch[uid]] else [])
  }

  /** The messages of a business over a history. */
  function MessagesOf(log: seq<Delivery>, uid: string): seq<TransactionsChannel> {
    if log == [] then []
    else MessagesOf(log[..|log| - 1], uid) + MessagesIn(log[|log| - 1].batch, Passed(log[|log| - 1]), uid)
  }

  /** A wallet after messages. */
  function Bodies(policy: Policy, w: Wallet, messages: seq<TransactionsChannel>, confirms: nat): Option<Wallet> {
    if messages == [] then Some(w)
    else
      var before := Bodies(policy, w, messages[..|messages| - 1], confirms);
      if before.Some? then Body(policy, before.value, messages[|messages| - 1], confirms) else None
  }

  lemma {:induction false} BodiesInTwo(policy: Policy, w: Wallet, a: seq<TransactionsChannel>,
                                       b: seq<TransactionsChannel>, confirms: nat)
    requires Bodies(policy, w, a, confirms).Some?
    ensures Bodies(policy, w, a + b, confirms) == Bodies(policy, Bodies(policy, w, a, confirms).value, b, confirms)
  {
    hide Body;
    if b == [] {
      assert a + b == a;
    } else {
      assert (a + b)[..|a + b| - 1] == a + b[..|b| - 1];
      BodiesInTwo(policy, w, a, b[..|b| - 1], confirms);
    }
  }

  lemma {:induction false} CommitIsBodies(policy: Policy, db: Database, batch: Batch, confirms: nat,
                                          uids: seq<string>, uid: string)
    requires CommitAll(policy, db, batch, confirms, uids).Some?
    ensures Bodies(policy, WalletOf(db, uid), MessagesIn(batch, uids, uid), confirms)
            == Some(WalletOf(CommitAll(policy, db, batch, confirms, uids).value, uid))
  {
    hide Body;
    if uids != [] {
      var init, last := uids[..|uids| - 1], uids[|uids| - 1];
      CommitIsBodies(policy, db, batch, confirms, init, uid);
      var messages := MessagesIn(batch, init, uid);
      if last == uid && uid in batch {
        assert (messages + [batch[uid]])[..|messages|] == messages;
      } else {
        assert messages + [] == messages;
      }
    }
  }

  lemma {:induction false} ReplayIsBodies(policy: Policy, db: Database, log: seq<Delivery>, confirms: nat, uid: string)
    requires Replayed(policy, db, log, confirms).Some?
    ensures Bodies(policy, WalletOf(db, uid), MessagesOf(log, uid), confirms)
            == Some(WalletOf(Replayed(policy, db, log, confirms).value, uid))
  {
    hide Body, Bodies, CommitAll, MessagesIn;
    if log == [] {
      NoBodies(policy, WalletOf(db, uid), confirms);
    } else {
      var init, d := log[..|log| - 1], log[|log| - 1];
      ReplayIsBodies(policy, db, init, confirms, uid);
      CommitIsBodies(policy, Replayed(policy, db, init, confirms).value, d.batch, confirms, Passed(d), uid);
      BodiesInTwo(policy, WalletOf(db, uid), MessagesOf(init, uid), MessagesIn(d.batch, Passed(d), uid), confirms);
    }
  }

  lemma NoBodies(policy: Policy, w: Wallet, confirms: nat)
    ensures Bodies(policy, w, [], confirms) == Some(w)
  {
  }

  /** Calls on the deposits table, legs on the ledger, flows and inputs of the messages. */
  function CallsOf(messages: seq<TransactionsChannel>): seq<Call> {
    if messages == [] then []
    else
      var last := messages[|messages| - 1];
      CallsOf(messages[..|messages| - 1]) + [Call(Accumulate(last.transactions).deposits, last.blockHeight)]
  }

  function LegsOf(messages: seq<TransactionsChannel>): seq<Leg> {
    if messages == [] then []
    else
      LegsOf(messages[..|messages| - 1]) + AllLegs(Accumulate(messages[|messages| - 1].transactions).movements)
  }

  function FlowsOf(messages: seq<TransactionsChannel>): seq<Flow> {
    if messages == [] then []
    else FlowsOf(messages[..|messages| - 1]) + Accumulate(messages[|messages| - 1].transactions).flows
  }

  function VinsOfAll(messages: seq<TransactionsChannel>): seq<VinRow> {
    if messages == [] then []
    else VinsOfAll(messages[..|messages| - 1]) + Accumulate(messages[|messages| - 1].transactions).vins
  }

  lemma {:induction false} ReplayOneMore(policy: Policy, rows: seq<DepositRow>, calls: seq<Call>, call: Call,
                                         confirms: nat)
    ensures Replay(policy, rows, calls + [call], confirms)
            == ConfirmAll(policy, Replay(policy, rows, calls, confirms) + call.stored, call.height, confirms)
    decreases |calls|
  {
    hide ConfirmAll;
    if calls == [] {
      assert [call][1..] == [] && calls + [call] == [call];
    } else {
      assert (calls + [call])[0] == calls[0] && (calls + [call])[1..] == calls[1..] + [call];
      ReplayOneMore(policy, ConfirmAll(policy, rows + calls[0].stored, calls[0].height, confirms), calls[1..], call,
                    confirms);
    }
  }

  /** The tables of a wallet after messages, each in its own closed form. */
  predicate TablesAre(policy: Policy, w: Wallet, messages: seq<TransactionsChannel>, confirms: nat, after: Wallet) {
    && after.deposits == Replay(policy, w.deposits, CallsOf(messages), confirms)
    && ApplyLegs(w.balances, LegsOf(messages)) == Applied(after.balances, true)
    && after.flows == w.flows + FlowsOf(messages)
    && after.vins == w.vins + VinsOfAll(messages)
  }

  lemma {:induction false} BodiesAre(policy: Policy, w: Wallet, messages: seq<TransactionsChannel>, confirms: nat)
    requires Bodies(policy, w, messages, confirms).Some?
    ensures TablesAre(policy, w, messages, confirms, Bodies(policy, w, messages, confirms).value)
  {
    hide TablesAre, Body;
    if messages == [] {
      NoTables(policy, w, confirms);
    } else {
      var init, last := messages[..|messages| - 1], messages[|messages| - 1];
      BodiesAre(policy, w, init, confirms);
      assert messages == init + [last];
      OneMoreBody(policy, w, init, last, confirms, Bodies(policy, w, init, confirms).value);
    }
  }

  lemma NoTables(policy: Policy, w: Wallet, confirms: nat)
    ensures TablesAre(policy, w, [], confirms, w)
  {
    assert w.flows + [] == w.flows && w.vins + [] == w.vins;
  }

  lemma OneMoreBody(policy: Policy, w: Wallet, init: seq<TransactionsChannel>, last: TransactionsChannel, confirms: nat,
                    mid: Wallet)
    requires TablesAre(policy, w, init, confirms, mid) && Body(policy, mid, last, confirms).Some?
    ensures TablesAre(policy, w, init + [last], confirms, Body(policy, mid, last, confirms).value)
  {
    hide Accumulate, ApplyLegs, AllLegs, Replay, ConfirmAll;
    var messages := init + [last];
    var acc := Accumulate(last.transactions);
    assert messages[..|messages| - 1] == init && messages[|messages| - 1] == last;
    ReplayOneMore(policy, w.deposits, CallsOf(init), Call(acc.deposits, last.blockHeight), confirms);
    ApplyInTwo(w.balances, LegsOf(init), AllLegs(acc.movements));
    AppendAssociates(w.flows, FlowsOf(init), acc.flows);
    AppendAssociates(w.vins, VinsOfAll(init), acc.vins);
  }

  /** The transactions of the messages, in order. */
  function TransactionsOf(messages: seq<TransactionsChannel>): seq<Transaction> {
    Flatten(seq(|messages|, i requires 0 <= i < |messages| => messages[i].transactions))
  }

  lemma TransactionsGrow(messages: seq<TransactionsChannel>, last: TransactionsChannel)
    ensures TransactionsOf(messages + [last]) == TransactionsOf(messages) + last.transactions
  {
    var all, n := messages + [last], |messages|;
    var parts := seq(n, i requires 0 <= i < n => messages[i].transactions);
    assert seq(|all|, i requires 0 <= i < |all| => all[i].transactions) == parts + [last.transactions];
    FlattenOneMore(parts, last.transactions);
  }

  /** The rows of all transactions, one after the other. */
  function RowsOf(txs: seq<Transaction>): seq<VinRow> {
    Flatten(seq(|txs|, i requires 0 <= i < |txs| => VinsOf(txs[i])))
  }

  function FlowsIn(txs: seq<Transaction>): (flows: seq<Flow>)
    ensures |flows| == |txs|
    ensures forall i | 0 <= i < |txs| :: flows[i] == Flow(txs[i].blockNumber, txs[i].hash, txs[i].txType)
  {
    seq(|txs|, i requires 0 <= i < |txs| => Flow(txs[i].blockNumber, txs[i].hash, txs[i].txType))
  }

  lemma RowsInTwo(a: seq<Transaction>, b: seq<Transaction>)
    ensures RowsOf(a + b) == RowsOf(a) + RowsOf(b)
  {
    hide VinsOf;
    var c := a + b;
    var left := seq(|a|, i requires 0 <= i < |a| => VinsOf(a[i]));
    var right := seq(|b|, i requires 0 <= i < |b| => VinsOf(b[i]));
    assert seq(|c|, i requires 0 <= i < |c| => VinsOf(c[i])) == left + right;
    FlattenAppend(left, right);
  }

  /** The inputs and flows of messages are those of their transactions: one flow for each, one row for each output. */
  lemma {:induction false} MessageRows(messages: seq<TransactionsChannel>)
    ensures VinsOfAll(messages) == RowsOf(TransactionsOf(messages))
    ensures FlowsOf(messages) == FlowsIn(TransactionsOf(messages))
  {
    hide RowsOf, TransactionsOf, Accumulate;
    if messages == [] {
      NoRows();
    } else {
      var init, last := messages[..|messages| - 1], messages[|messages| - 1];
      assert messages == init + [last];
      MessageRows(init);
      TransactionsGrow(init, last);
      RowsInTwo(TransactionsOf(init), last.transactions);
      AccumulatedRows(last.transactions);
      assert FlowsIn(TransactionsOf(init) + last.transactions)
             == FlowsIn(TransactionsOf(init)) + FlowsIn(last.transactions);
    }
  }

  lemma NoRows()
    ensures TransactionsOf([]) == [] && RowsOf([]) == [] && FlowsIn([]) == []
  {
  }

  lemma AccumulatedRows(txs: seq<Transaction>)
    ensures Accumulate(txs).vins == RowsOf(txs) && Accumulate(txs).flows == FlowsIn(txs)
  {
    hide Accumulate, VinsOf;
    AccumulateIs(txs);
  }

  /**
   * The wallet of every business after any events, table by table: its flows and inputs are those before, followed by
   * those of its messages in the order of the history, a message counted once for every entry that committed it; its
   * balances and deposits are what the same messages make of them.
   */
  lemma WalletIsItsHistory(cfg: Config, pl: Pipeline, events: seq<Event>, uid: string)
    requires AllSane(cfg, events)
    ensures var t := AfterAll(cfg, pl, events);
            && |pl.log| <= |t.log|
            && TablesAre(cfg.policy, WalletOf(pl.db, uid), MessagesOf(t.log[|pl.log|..], uid), cfg.confirms,
                         WalletOf(t.db, uid))
  {
    hide AfterAll, Sane, Playable, Replayed, TablesAre, MessagesOf, Bodies;
    DatabaseIsItsHistory(cfg, pl, events);
    var t := AfterAll(cfg, pl, events);
    var log := t.log[|pl.log|..];
    ReplayIsBodies(cfg.policy, pl.db, log, cfg.confirms, uid);
    BodiesAre(cfg.policy, WalletOf(pl.db, uid), MessagesOf(log, uid), cfg.confirms);
  }

  /**
   * A wallet's new inputs are exactly the outputs of the transactions of its messages, and its new flows exactly one
   * for each of these transactions, in the order of the history.
   */
  lemma WalletGainsItsTransactions(cfg: Config, pl: Pipeline, events: seq<Event>, uid: string)
    requires AllSane(cfg, events)
    ensures var t := AfterAll(cfg, pl, events);
            && |pl.log| <= |t.log|
            && var txs := TransactionsOf(MessagesOf(t.log[|pl.log|..], uid));
               && WalletOf(t.db, uid).vins == WalletOf(pl.db, uid).vins + RowsOf(txs)
               && WalletOf(t.db, uid).flows == WalletOf(pl.db, uid).flows + FlowsIn(txs)
  {
    hide AfterAll, Sane, Playable, MessagesOf, TransactionsOf, RowsOf, FlowsIn, ApplyLegs, LegsOf, Replay;
    WalletIsItsHistory(cfg, pl, events, uid);
    MessageRows(MessagesOf(AfterAll(cfg, pl, events).log[|pl.log|..], uid));
  }
}
