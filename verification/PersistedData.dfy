/** What the blocks table may claim: the data of a stored block is in the wallets, but for one batch per process. */
module PersistedData {
  import opened Prelude
  import opened BigInt
  import opened Classifier
  import opened SyncClient
  import opened Synchronizer
  import opened Deposits
  import opened DepositWorker
  import opened MessageOutcome
  import opened Scanner
  import opened ScannerRefinement

  /** Every transaction of the message has its flow in the wallet of its business. */
  predicate Persisted(db: Database, batch: Batch, uids: seq<string>) {
    forall uid | uid in uids && uid in batch ::
      forall tx | tx in batch[uid].transactions :: Flow(tx.blockNumber, tx.hash, tx.txType) in WalletOf(db, uid).flows
  }

  /** Flows are only added. */
  ghost predicate Grows(db: Database, after: Database) {
    forall uid: string, flow: Flow | flow in WalletOf(db, uid).flows :: flow in WalletOf(after, uid).flows
  }

  lemma {:induction false} FlowIsAccumulated(txs: seq<Transaction>, tx: Transaction)
    requires tx in txs
    ensures Flow(tx.blockNumber, tx.hash, tx.txType) in Accumulate(txs).flows
  {
    var init, last := txs[..|txs| - 1], txs[|txs| - 1];
    assert txs == init + [last];
    if tx != last {
      FlowIsAccumulated(init, tx);
    }
  }

  lemma BodyPersists(policy: Policy, db: Database, uid: string, ch: TransactionsChannel, confirms: nat)
    requires Body(policy, WalletOf(db, uid), ch, confirms).Some?
    ensures var after := db[uid := Body(policy, WalletOf(db, uid), ch, confirms).value];
            && Grows(db, after)
            && forall tx | tx in ch.transactions ::
                 Flow(tx.blockNumber, tx.hash, tx.txType) in WalletOf(after, uid).flows
  {
    hide Accumulate, ConfirmAll;
    forall tx | tx in ch.transactions
      ensures Flow(tx.blockNumber, tx.hash, tx.txType) in Accumulate(ch.transactions).flows
    {
      FlowIsAccumulated(ch.transactions, tx);
    }
  }

  /** handleBatch adds flows only, and when it returns nil it has added those of the message. */
  lemma {:induction false} HandlePersists(policy: Policy, db: Database, batch: Batch, confirms: nat, world: World,
                                          i: nat)
    requires WorldFits(world) && world.businesses.Some? && i <= |world.businesses.value|
    ensures var (after, ok) := HandleFrom(policy, db, batch, confirms, world, i);
            Grows(db, after) && (ok ==> Persisted(after, batch, world.businesses.value[i..]))
    decreases |world.businesses.value| - i
  {
    hide Body, Allowed, WorldFits;
    if i < |world.businesses.value| {
      var uids := world.businesses.value;
      var uid := uids[i];
      assert uids[i..] == [uid] + uids[i + 1..];
      if uid !in batch {
        HandlePersists(policy, db, batch, confirms, world, i + 1);
      } else if Allowed(world, i) && Body(policy, WalletOf(db, uid), batch[uid], confirms).Some? {
        BodyPersists(policy, db, uid, batch[uid], confirms);
        var mid := db[uid := Body(policy, WalletOf(db, uid), batch[uid], confirms).value];
        HandlePersists(policy, mid, batch, confirms, world, i + 1);
      }
    }
  }

  lemma PersistedStays(db: Database, after: Database, batch: Batch, uids: seq<string>)
    requires Persisted(db, batch, uids) && Grows(db, after)
    ensures Persisted(after, batch, uids)
  {
  }

  // ---------------------------------------------------------------------------------------------
  // Events
  // ---------------------------------------------------------------------------------------------

  /** The message is what a tick of the history, which met this node, collected from these headers. */
  predicate Genuine(cfg: Config, all: seq<Event>, headers: seq<Header>, node: Node, batch: Batch) {
    && (exists e | e in all :: e.Tick? && e.node == node)
    && HeadersStop(cfg.policy, node, headers) == Go
    && batch == Collect(cfg.policy, node, headers)
  }

  /** Some call of handleBatch in the history read this business list. */
  predicate Listed(all: seq<Event>, uids: seq<string>) {
    exists e | e in all :: e.Handle? && e.world.businesses == Some(uids)
  }

  /** The block was handed over: in a delivery that has ended, or in the one the consumer works on. */
  predicate HandedOut(pl: Pipeline, header: Header) {
    (exists d | d in pl.log :: header in d.headers) || (pl.hands.Busy? && header in pl.hands.headers)
  }

  predicate SoundDelivery(cfg: Config, all: seq<Event>, db: Database, d: Delivery) {
    && Genuine(cfg, all, d.headers, d.node, d.batch)
    && (d.ok ==> Listed(all, d.uids) && Persisted(db, d.batch, d.uids))
  }

  predicate Sound(cfg: Config, all: seq<Event>, pl: Pipeline) {
    && (forall header | header in pl.view.blocks :: HandedOut(pl, header))
    && (pl.loop.Sent? ==> forall header | header in pl.view.headers :: HandedOut(pl, header))
    && (forall d | d in pl.log :: SoundDelivery(cfg, all, pl.db, d))
    && (pl.loop.Offers? ==> Genuine(cfg, all, pl.view.headers, pl.loop.node, pl.loop.batch))
    && (pl.hands.Busy? ==> Genuine(cfg, all, pl.hands.headers, pl.hands.node, pl.hands.batch))
  }

  /** The batch in hand ends up in the history, with what handleBatch has committed of it. */
  lemma EndedIsSound(cfg: Config, all: seq<Event>, pl: Pipeline, world: World, d: Delivery, t: Pipeline)
    requires Sound(cfg, all, pl) && pl.hands.Busy? && WorldFits(world)
    requires var (db, ok) := AfterHandle(cfg.policy, pl.db, pl.hands.batch, cfg.confirms, world);
             && d == Ended(cfg, pl, world, d.ok) && (d.ok ==> ok && Listed(all, d.uids))
             && t.db == db && t.log == pl.log + [d]
    requires t.view.blocks == pl.view.blocks && !t.hands.Busy?
    requires t.loop.Offers? || t.loop.Sent? ==> t.loop == pl.loop && t.view == pl.view
    ensures Sound(cfg, all, t)
  {
    assert Grows(pl.db, t.db) && (d.ok ==> Persisted(t.db, d.batch, d.uids)) by {
      if world.businesses.Some? {
        HandlePersists(cfg.policy, pl.db, d.batch, cfg.confirms, world, 0);
        assert world.businesses.value[0..] == world.businesses.value;
      }
    }
    hide AfterHandle, WorldFits, Genuine, Listed, Persisted, Grows, ListOf, Reached;
    assert d in t.log;
    forall e | e in t.log ensures SoundDelivery(cfg, all, t.db, e) {
      if e in pl.log {
        assert SoundDelivery(cfg, all, pl.db, e);
        if e.ok {
          PersistedStays(pl.db, t.db, e.batch, e.uids);
        }
      }
    }
    forall header | HandedOut(pl, header) ensures HandedOut(t, header) {
      EndedKeeps(pl, t, d, header);
    }
  }

  lemma EndedKeeps(pl: Pipeline, t: Pipeline, d: Delivery, header: Header)
    requires HandedOut(pl, header) && pl.hands.Busy? && d.headers == pl.hands.headers && t.log == pl.log + [d]
    ensures HandedOut(t, header)
  {
    if e :| e in pl.log && header in e.headers {
      assert e in t.log;
    } else {
      assert d in t.log;
    }
  }

  lemma RebornIsSound(cfg: Config, all: seq<Event>, pl: Pipeline, head: Header, world: World)
    requires Sound(cfg, all, pl) && WorldFits(world)
    ensures Sound(cfg, all, Reborn(Broken(cfg, pl, world), head))
  {
    var t := Reborn(Broken(cfg, pl, world), head);
    if pl.hands.Busy? {
      var d := Ended(cfg, pl, world, false);
      hide AfterHandle, WorldFits, Sound, Newest, Reached;
      EndedIsSound(cfg, all, pl, world, d, t);
    } else {
      assert t.log == pl.log && t.db == pl.db && t.view.blocks == pl.view.blocks;
      forall header | HandedOut(pl, header) ensures HandedOut(t, header) {
      }
    }
  }

  lemma EventIsSound(cfg: Config, all: seq<Event>, pl: Pipeline, e: Event)
    requires Playable(cfg, e) && e in all && Sound(cfg, all, pl)
    ensures Sound(cfg, all, AfterEvent(cfg, pl, e))
  {
    match e
    case Tick(_, _, _, _) => TickIsSound(cfg, all, pl, e);
    case Handle(world) =>
      if pl.hands.Busy? {
        var ok := AfterHandle(cfg.policy, pl.db, pl.hands.batch, cfg.confirms, world).1;
        assert ok ==> e.world.businesses == Some(ListOf(world));
        hide AfterHandle, WorldFits, Sound, Reached;
        EndedIsSound(cfg, all, pl, world, Ended(cfg, pl, world, ok), AfterEvent(cfg, pl, e));
      }
    case Crash(head, world) => RebornIsSound(cfg, all, pl, head, world);
    case _ => OthersAreSound(cfg, all, pl, e);
  }

  lemma OthersAreSound(cfg: Config, all: seq<Event>, pl: Pipeline, e: Event)
    requires Playable(cfg, e) && Sound(cfg, all, pl) && (e.Take? || e.Insert? || e.Shut?)
    ensures Sound(cfg, all, AfterEvent(cfg, pl, e))
  {
    hide Genuine, WorldFits, Insertable, SoundDelivery;
    var t := AfterEvent(cfg, pl, e);
    assert t.log == pl.log && t.db == pl.db;
    forall header | HandedOut(pl, header) ensures HandedOut(t, header) {
    }
  }

  lemma TickIsSound(cfg: Config, all: seq<Event>, pl: Pipeline, e: Event)
    requires Playable(cfg, e) && e in all && Sound(cfg, all, pl) && e.Tick?
    ensures Sound(cfg, all, AfterEvent(cfg, pl, e))
  {
    hide WorldFits, HeadersStop, Collect, Reply, SoundDelivery, Broken, Reborn;
    if pl.loop.AtRest? {
      var v := Fetched(cfg, pl, e);
      assert Sound(cfg, all, pl.(view := v)) by {
        forall header | HandedOut(pl, header) ensures HandedOut(pl.(view := v), header) {
        }
      }
      if v.headers != [] && Stopped(cfg, pl, e) == StopPanic {
        RebornIsSound(cfg, all, pl.(view := v), e.head, e.world);
      } else {
        var t := AfterEvent(cfg, pl, e);
        forall header | HandedOut(pl, header) ensures HandedOut(t, header) {
        }
      }
    }
  }

  lemma {:induction false} EventsAreSound(cfg: Config, all: seq<Event>, pl: Pipeline, events: seq<Event>)
    requires AllSane(cfg, events) && Sound(cfg, all, pl) && forall e | e in events :: e in all
    ensures Sound(cfg, all, AfterAll(cfg, pl, events))
    decreases |events|
  {
    hide Sound, AfterEvent, Playable, Sane;
    if events != [] {
      EventIsSound(cfg, all, pl, events[0]);
      EventsAreSound(cfg, all, AfterEvent(cfg, pl, events[0]), events[1..]);
    }
  }

  // ---------------------------------------------------------------------------------------------
  // Failed deliveries
  // ---------------------------------------------------------------------------------------------

  function Failures(log: seq<Delivery>): nat {
    if log == [] then 0 else Failures(log[..|log| - 1]) + (if log[|log| - 1].ok then 0 else 1)
  }

  /** The processes that ended during the events. */
  function Endings(cfg: Config, pl: Pipeline, events: seq<Event>): nat
    requires forall e | e in events :: Playable(cfg, e)
    decreases |events|
  {
    if events == [] then 0
    else
      Endings(cfg, AfterEvent(cfg, pl, events[0]), events[1..]) + (if Ends(cfg, pl, events[0]) then 1 else 0)
  }

  /** A failure of the present process. */
  function DeadNow(pl: Pipeline): nat {
    if pl.hands.Dead? then 1 else 0
  }

  lemma FailuresGrow(log: seq<Delivery>, d: Delivery)
    ensures Failures(log + [d]) == Failures(log) + (if d.ok then 0 else 1)
  {
    assert (log + [d])[..|log|] == log;
  }

  lemma BrokenFails(cfg: Config, pl: Pipeline, world: World)
    requires WorldFits(world)
    ensures Failures(Broken(cfg, pl, world).log) + DeadNow(pl) <= Failures(pl.log) + 1
  {
    hide AfterHandle, WorldFits;
    if pl.hands.Busy? {
      FailuresGrow(pl.log, Ended(cfg, pl, world, false));
    }
  }

  lemma EventFailsOnce(cfg: Config, pl: Pipeline, e: Event)
    requires Playable(cfg, e)
    ensures var t := AfterEvent(cfg, pl, e);
            Failures(t.log) + DeadNow(pl) <= Failures(pl.log) + DeadNow(t) + (if Ends(cfg, pl, e) then 1 else 0)
  {
    hide AfterHandle, WorldFits, HeadersStop, Collect, AfterFetch, Broken, Failures, Insertable, Resumed;
    match e
    case Tick(_, _, _, world) =>
      if Works(cfg, pl, e) {
        BrokenFails(cfg, pl.(view := Fetched(cfg, pl, e)), world);
      }
    case Handle(world) =>
      if pl.hands.Busy? {
        var ok := AfterHandle(cfg.policy, pl.db, pl.hands.batch, cfg.confirms, world).1;
        FailuresGrow(pl.log, Ended(cfg, pl, world, ok));
      }
    case Crash(_, world) => BrokenFails(cfg, pl, world);
    case _ =>
  }

  /** Failed deliveries are at most one for each process that ended, and one if the present consumer has given up. */
  lemma {:induction false} EventsFailOnce(cfg: Config, pl: Pipeline, events: seq<Event>)
    requires AllSane(cfg, events)
    ensures Failures(AfterAll(cfg, pl, events).log) + DeadNow(pl)
            <= Failures(pl.log) + DeadNow(AfterAll(cfg, pl, events)) + Endings(cfg, pl, events)
    decreases |events|
  {
    hide DeadNow, Failures, AfterEvent, Playable, Sane, Ends;
    if events != [] {
      EventFailsOnce(cfg, pl, events[0]);
      EventsFailOnce(cfg, AfterEvent(cfg, pl, events[0]), events[1..]);
    }
  }

  // ---------------------------------------------------------------------------------------------
  // The chain's data
  // ---------------------------------------------------------------------------------------------

  /**
   * For every listed business, each transaction the node shows in the block has a label, and the wallet has the flow
   * with the height of the block, the hash of the transaction and that label.
   */
  predicate BlockPersisted(policy: Policy, node: Node, header: Header, uids: seq<string>, db: Database) {
    && Readable(node, header)
    && forall uid | uid in uids && uid in node.businesses.value ::
         forall raw | raw in node.txs[header.number] ::
           exists kind | Classified(policy, node.BookOf(uid), raw) == Labelled(kind) ::
             Flow(header.number, raw.hash, kind) in WalletOf(db, uid).flows
  }

  lemma {:induction false} GoIsReadable(policy: Policy, node: Node, headers: seq<Header>, header: Header)
    requires HeadersStop(policy, node, headers) == Go && header in headers
    ensures Readable(node, header)
  {
    var init, last := headers[..|headers| - 1], headers[|headers| - 1];
    assert headers == init + [last];
    if header != last {
      GoIsReadable(policy, node, init, header);
    }
  }

  lemma {:induction false} HeadersGo(policy: Policy, node: Node, headers: seq<Header>, header: Header)
    requires HeadersStop(policy, node, headers) == Go && header in headers
    ensures HeaderStop(policy, node, header) == Go
  {
    hide HeaderStop;
    var init, last := headers[..|headers| - 1], headers[|headers| - 1];
    assert headers == init + [last];
    if header != last {
      HeadersGo(policy, node, init, header);
    }
  }

  lemma {:induction false} BusinessesGo(policy: Policy, node: Node, txs: seq<RawTx>, uids: seq<string>, uid: string)
    requires BusinessesStop(policy, node, txs, uids) == Go && uid in uids
    ensures TxsStop(policy, node.BookOf(uid), txs) == Go
  {
    hide TxsStop;
    var init, last := uids[..|uids| - 1], uids[|uids| - 1];
    assert uids == init + [last];
    if uid != last {
      BusinessesGo(policy, node, txs, init, uid);
    }
  }

  /** In a block that goes through, every transaction has a label for every listed business. */
  lemma GoIsLabelled(policy: Policy, node: Node, headers: seq<Header>, header: Header, uid: string, raw: RawTx)
    requires HeadersStop(policy, node, headers) == Go && header in headers && Readable(node, header)
    requires uid in node.businesses.value && raw in node.txs[header.number]
    ensures Classified(policy, node.BookOf(uid), raw).Labelled?
  {
    hide HeadersStop, BusinessesStop, TxsStop, Classified;
    HeadersGo(policy, node, headers, header);
    BusinessesGo(policy, node, node.txs[header.number], node.businesses.value, uid);
    TxsStopIs(policy, node.BookOf(uid), node.txs[header.number]);
  }

  lemma ItemIs(policy: Policy, book: Book, uid: string, header: Header, raw: RawTx)
    requires Classified(policy, book, raw).Labelled?
    ensures var item := Item(policy, book, uid, header, raw);
            && item.blockNumber == header.number && item.hash == raw.hash
            && item.txType == Classified(policy, book, raw).kind
  {
    hide Classified;
    ItemsAre(policy, book, uid, header, [raw], 0);
    assert [raw][..0] == [];
    assert Items(policy, book, uid, header, [raw]) == [] + [Item(policy, book, uid, header, raw)];
  }

  lemma MessagePersistsBlock(policy: Policy, node: Node, headers: seq<Header>, header: Header, uids: seq<string>,
                             db: Database)
    requires HeadersStop(policy, node, headers) == Go && header in headers
    requires Persisted(db, Collect(policy, node, headers), uids)
    ensures BlockPersisted(policy, node, header, uids, db)
  {
    hide HeadersStop, Item, Collect, Stream, Classified;
    GoIsReadable(policy, node, headers, header);
    var batch := Collect(policy, node, headers);
    forall uid, raw | uid in uids && uid in node.businesses.value && raw in node.txs[header.number]
      ensures exists kind | Classified(policy, node.BookOf(uid), raw) == Labelled(kind) ::
                Flow(header.number, raw.hash, kind) in WalletOf(db, uid).flows
    {
      var item := Item(policy, node.BookOf(uid), uid, header, raw);
      assert ItemOf(policy, node, uid, header, raw, item);
      StreamItems(policy, node, uid, headers, item);
      CollectIsStream(policy, node, headers, uid);
      assert item in batch[uid].transactions;
      GoIsLabelled(policy, node, headers, header, uid, raw);
      ItemIs(policy, node.BookOf(uid), uid, header, raw);
      assert Flow(header.number, raw.hash, Classified(policy, node.BookOf(uid), raw).kind) in WalletOf(db, uid).flows;
    }
  }

  /**
   * What a successful delivery promises of one of its blocks: the node is that of the tick that offered the batch, the
   * business list is one that handleBatch read, and what that node showed in the block is in the wallets.
   */
  predicate ReadAndPersisted(cfg: Config, all: seq<Event>, d: Delivery, header: Header, db: Database) {
    && Genuine(cfg, all, d.headers, d.node, d.batch)
    && Listed(all, d.uids)
    && BlockPersisted(cfg.policy, d.node, header, d.uids, db)
  }

  lemma DeliveryPersists(cfg: Config, all: seq<Event>, db: Database, d: Delivery, header: Header)
    requires SoundDelivery(cfg, all, db, d) && d.ok && header in d.headers
    ensures ReadAndPersisted(cfg, all, d, header, db)
  {
    hide HeadersStop, Collect, BlockPersisted, Persisted, Listed;
    MessagePersistsBlock(cfg.policy, d.node, d.headers, header, d.uids, db);
  }

  /**
   * From the first process on, in any interleaving, under any failures, panics and crashes.  Every stored block was
   * handed over.  After every successful delivery of a block, each transaction that the offering tick read in the block
   * has its labelled flow in the wallet of each business that handleBatch was called for.  Deliveries that failed are
   * at most one for each process that ended, and one if the present consumer has given up.
   */
  lemma StoredIsPersisted(cfg: Config, from: Header, db: Database, events: seq<Event>, header: Header)
    requires AllSane(cfg, events)
    requires header in AfterAll(cfg, Start(from, db), events).view.blocks
    ensures var t := AfterAll(cfg, Start(from, db), events);
            && HandedOut(t, header)
            && (forall d | d in t.log && d.ok && header in d.headers ::
                  ReadAndPersisted(cfg, events, d, header, t.db))
            && Failures(t.log) <= Endings(cfg, Start(from, db), events) + DeadNow(t)
  {
    assert Sound(cfg, events, Start(from, db));
    hide Playable, Sane, AfterAll, Endings, HandedOut, SoundDelivery, ReadAndPersisted;
    EventsAreSound(cfg, events, Start(from, db), events);
    EventsFailOnce(cfg, Start(from, db), events);
    var t := AfterAll(cfg, Start(from, db), events);
    forall d | d in t.log && d.ok && header in d.headers
      ensures ReadAndPersisted(cfg, events, d, header, t.db)
    {
      DeliveryPersists(cfg, events, t.db, d, header);
    }
  }
}
