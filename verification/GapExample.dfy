/** Two ticks of the code as written that lose a block for good: an unknown sender, then a clean block. */
module GapExample {
  import opened Prelude
  import opened BigInt
  import opened Classifier
  import opened SyncClient
  import opened Synchronizer
  import opened Retry
  import opened DepositWorker
  import opened Scanner
  import opened ScannerRefinement

  /** No event of the list stores a batch or ends the process. */
  predicate Quiet(cfg: Config, pl: Pipeline, events: seq<Event>)
    requires forall e | e in events :: Playable(cfg, e)
    decreases |events|
  {
    events == []
    || (Quiet(cfg, AfterEvent(cfg, pl, events[0]), events[1..]) && !Stores(pl, events[0]) && !Ends(cfg, pl, events[0]))
  }

  lemma KeepsBlocks(cfg: Config, pl: Pipeline, e: Event)
    requires Playable(cfg, e) && !Stores(pl, e) && !Ends(cfg, pl, e)
    ensures AfterEvent(cfg, pl, e).view.blocks == pl.view.blocks
  {
    hide HeadersStop, Collect, Insertable, Reply, AfterHandle, WorldFits;
  }

  lemma {:induction false} QuietThenStore(cfg: Config, pl: Pipeline, quiet: seq<Event>, e: Event)
    requires AllSane(cfg, quiet + [e]) && AllSane(cfg, quiet) && pl.view.blocks != []
    requires Quiet(cfg, pl, quiet) && Stores(AfterAll(cfg, pl, quiet), e)
    ensures !NoGapOpens(cfg, pl, true, quiet + [e])
    decreases |quiet|
  {
    var events := quiet + [e];
    assert events[|quiet|] == e && Playable(cfg, e);
    assert cfg.maxSize < TWO_64;
    hide Sane, Playable, AfterEvent, Stores, Ends, Drops;
    if quiet == [] {
      assert events == [e];
      assert OpensGap(pl, e, true);
    } else {
      var first := quiet[0];
      assert events[0] == first && events[1..] == quiet[1..] + [e];
      assert Playable(cfg, first);
      KeepsBlocks(cfg, pl, first);
      assert SkippedNext(cfg, pl, first, true);
      QuietThenStore(cfg, AfterEvent(cfg, pl, first), quiet[1..], e);
    }
  }

  /**
   * A tick that drops a batch, anything that neither stores nor ends the process, and an insert: whatever the state and
   * the events between, the table has a gap.
   */
  lemma DropThenStore(cfg: Config, pl: Pipeline, drop: Event, quiet: seq<Event>, insert: Event, s: State)
    requires AllSane(cfg, [drop] + quiet + [insert]) && AllSane(cfg, quiet) && Sane(cfg, drop)
    requires Agrees(pl, s) && Inv(cfg.maxSize, s) && pl.view.blocks != []
    requires Drops(cfg, pl, drop) && Quiet(cfg, AfterEvent(cfg, pl, drop), quiet)
    requires Stores(AfterAll(cfg, AfterEvent(cfg, pl, drop), quiet), insert)
    ensures !Contiguous(Numbers(AfterAll(cfg, pl, [drop] + quiet + [insert]).view.blocks))
  {
    var events := [drop] + quiet + [insert];
    assert events[0] == drop && events[1..] == quiet + [insert];
    var next := AfterEvent(cfg, pl, drop);
    DropNotes(cfg, pl, drop, s.skipped);
    hide Inv, Sane, Playable, Run, Valid, Gapless, Contiguous, AfterEvent, Stores, Drops, Agrees, OpensGap, SkippedNext;
    QuietThenStore(cfg, next, quiet, insert);
    assert !NoGapOpens(cfg, pl, s.skipped, events);
    hide NoGapOpens, AfterAll;
    var steps := EventsAreARun(cfg, pl, events, s);
    ContiguousIff(cfg.maxSize, s, steps);
    AgreedBlocks(AfterAll(cfg, pl, events), Run(s, steps));
  }

  lemma AgreedBlocks(pl: Pipeline, s: State)
    requires Agrees(pl, s)
    ensures s.blocks == Numbers(pl.view.blocks)
  {
  }

  lemma DropNotes(cfg: Config, pl: Pipeline, drop: Event, skipped: bool)
    requires Playable(cfg, drop) && Drops(cfg, pl, drop)
    ensures SkippedNext(cfg, pl, drop, skipped) && !OpensGap(pl, drop, skipped)
    ensures AfterEvent(cfg, pl, drop).view.blocks == pl.view.blocks
  {
    KeepsBlocks(cfg, pl, drop);
  }

  // ---------------------------------------------------------------------------------------------
  // One instance, from the first process on
  // ---------------------------------------------------------------------------------------------

  const CONFIG := Config(AsWritten, 0, 1, 1)

  function BlockHeader(n: nat): Header {
    Header("", "", n, 1)
  }

  /** The node's newest block is n, and it serves that block. */
  function NodeAt(n: nat): Provider {
    Provider(Reported(BlockHeader(n)), map[n := BlockHeader(n)])
  }

  const TABLE := Book(map["h" := Hot, "c" := Cold], {}, Found("h"), Found("c"))

  /** A payment from an address that nobody knows. */
  const STRANGER := RawTx("", "", [RawIo("x", 0, 1)], [RawIo("h", 0, 1)])

  const CALM := Try(false, false, 0)

  const WORLD := World(Some(["b"]), [true], [[CALM, CALM, CALM, CALM, CALM, CALM, CALM, CALM, CALM, CALM]])

  function NodeOf(n: nat, txs: seq<RawTx>): Node {
    Node(map[n := txs], Some(["b"]), map["b" := TABLE], false)
  }

  function TickAt(n: nat, txs: seq<RawTx>): Event {
    Tick(NodeAt(n), NodeOf(n, txs), BlockHeader(0), WORLD)
  }

  /** The tick of block n, and what follows it when the batch is handed over. */
  function Block(n: nat, txs: seq<RawTx>): seq<Event> {
    [TickAt(n, txs), Take, Insert(false), Handle(WORLD)]
  }

  lemma WorldIsFit()
    ensures WorldFits(WORLD)
  {
  }

  lemma BlockIsSane(n: nat, txs: seq<RawTx>)
    requires n < TWO_63
    ensures AllSane(CONFIG, Block(n, txs)) && AllSane(CONFIG, [TickAt(n, txs)])
  {
    WorldIsFit();
    hide WorldFits;
  }

  /** At the block before, the cursor moves on to block n. */
  lemma FetchesNext(n: nat, txs: seq<RawTx>, v: View)
    requires 1 <= n < TWO_63 && v.cursor == Some(BlockHeader(n - 1)) && v.headers == []
    ensures AfterFetch(NodeAt(n), 0, 1, v) == v.(cursor := Some(BlockHeader(n)), headers := [BlockHeader(n)])
  {
    var p := NodeAt(n);
    PlanIsNextWindow(Some((n - 1) as nat), n, 0, 1);
    assert FetchAll(p, n, 0) == Some([]) && n + 1 - 1 in p.headers;
    assert FetchAll(p, n, 1) == Some([] + [BlockHeader(n)]);
  }

  lemma CleanBlockGoes(n: nat)
    ensures HeadersStop(AsWritten, NodeOf(n, []), [BlockHeader(n)]) == Go
    ensures Collect(AsWritten, NodeOf(n, []), [BlockHeader(n)]) == map[]
  {
    var node := NodeOf(n, []);
    assert [BlockHeader(n)][..0] == [] && ["b"][..0] == [];
    assert BusinessesStop(AsWritten, node, [], ["b"]) == Go;
    assert AddBusinesses(AsWritten, node, map[], BlockHeader(n), [], ["b"]) == map[];
  }

  lemma StrangerQuits(n: nat)
    ensures HeadersStop(AsWritten, NodeOf(n, [STRANGER]), [BlockHeader(n)]) == StopQuit
  {
    var node := NodeOf(n, [STRANGER]);
    assert [BlockHeader(n)][..0] == [] && ["b"][..0] == [] && [STRANGER][..0] == [];
    SplitWhole("x");
    var vin := STRANGER.vin;
    assert vin[..0] == [] && Senders(vin) == ["x"];
    assert "x" != "h" && "x" != "c" by { assert "x"[0] != "h"[0] && "x"[0] != "c"[0]; }
    assert "x" in ["x"] && TABLE.Query("x") == NotFound;
    AsWrittenNeedsKnownSenders(TABLE, STRANGER);
    assert Classified(AsWritten, TABLE, STRANGER) == Quit;
    assert node.BookOf("b") == TABLE;
    assert TxsStop(AsWritten, TABLE, [STRANGER]) == StopQuit;
    assert BusinessesStop(AsWritten, node, [STRANGER], []) == Go;
    assert BusinessesStop(AsWritten, node, [STRANGER], ["b"]) == StopQuit;
    hide BusinessesStop;
    assert HeaderStop(AsWritten, node, BlockHeader(n)) == StopQuit;
  }

  /** A scanner at rest behind block n - 1, with these blocks stored. */
  predicate Before(pl: Pipeline, n: nat, blocks: seq<Header>) {
    && 1 <= n < TWO_63 && pl.view.cursor == Some(BlockHeader(n - 1)) && pl.view.headers == []
    && pl.loop.AtRest? && pl.hands.Free? && pl.view.blocks == blocks
  }

  /** An empty message is handled by every wallet as it is. */
  lemma EmptyIsHandled(db: Database)
    ensures WorldFits(WORLD) && AfterHandle(AsWritten, db, map[], 1, WORLD) == (db, true)
  {
    WorldIsFit();
    assert HandleFrom(AsWritten, db, map[], 1, WORLD, 1) == (db, true);
  }

  lemma FourEvents(cfg: Config, pl: Pipeline, a: Event, b: Event, c: Event, d: Event)
    requires Playable(cfg, a) && Playable(cfg, b) && Playable(cfg, c) && Playable(cfg, d)
    ensures AfterAll(cfg, pl, [a, b, c, d])
            == AfterEvent(cfg, AfterEvent(cfg, AfterEvent(cfg, AfterEvent(cfg, pl, a), b), c), d)
  {
    hide AfterEvent, Playable;
    var p1 := AfterEvent(cfg, pl, a);
    var p2 := AfterEvent(cfg, p1, b);
    var p3 := AfterEvent(cfg, p2, c);
    assert [a, b, c, d][1..] == [b, c, d] && [b, c, d][1..] == [c, d] && [c, d][1..] == [d] && [d][1..] == [];
    assert AfterAll(cfg, p3, [d]) == AfterAll(cfg, AfterEvent(cfg, p3, d), []);
    assert AfterAll(cfg, p2, [c, d]) == AfterAll(cfg, p3, [d]);
    assert AfterAll(cfg, p1, [b, c, d]) == AfterAll(cfg, p2, [c, d]);
  }

  /** A clean block is offered, taken, stored and handled. */
  lemma CleanBlockIsStored(n: nat, pl: Pipeline, blocks: seq<Header>)
    requires Before(pl, n, blocks) && n < TWO_63 - 1 && n !in Numbers(blocks)
    ensures AllSane(CONFIG, Block(n, []))
    ensures Before(AfterAll(CONFIG, pl, Block(n, [])), n + 1, blocks + [BlockHeader(n)])
  {
    BlockIsSane(n, []);
    FetchesNext(n, [], pl.view);
    CleanBlockGoes(n);
    EmptyIsHandled(pl.db);
    hide WorldFits, HeadersStop, Collect, AfterHandle, AfterFetch;
    var tick := TickAt(n, []);
    var headers := [BlockHeader(n)];
    var p1 := AfterEvent(CONFIG, pl, tick);
    assert p1 == pl.(view := pl.view.(cursor := Some(BlockHeader(n)), headers := headers),
                     loop := Offers(map[], tick.node));
    var p2 := AfterEvent(CONFIG, p1, Take);
    assert p2.loop.Sent? && p2.hands == Busy(headers, map[], tick.node);
    assert p2.view.headers == headers && p2.view.blocks == blocks;
    var p3 := AfterEvent(CONFIG, p2, Insert(false));
    assert p3.view.blocks == blocks + headers && p3.view.headers == [] && p3.hands == p2.hands && p3.loop.AtRest?;
    FourEvents(CONFIG, pl, tick, Take, Insert(false), Handle(WORLD));
  }

  /** A block with a stranger in it is forgotten. */
  lemma StrangerIsDropped(n: nat, pl: Pipeline, blocks: seq<Header>)
    requires Before(pl, n, blocks) && n < TWO_63 - 1
    ensures AllSane(CONFIG, [TickAt(n, [STRANGER])]) && Drops(CONFIG, pl, TickAt(n, [STRANGER]))
    ensures Before(AfterAll(CONFIG, pl, [TickAt(n, [STRANGER])]), n + 1, blocks)
  {
    BlockIsSane(n, [STRANGER]);
    FetchesNext(n, [STRANGER], pl.view);
    StrangerQuits(n);
    hide WorldFits, HeadersStop, Collect, AfterHandle, AfterFetch;
    var events := [TickAt(n, [STRANGER])];
    assert events[1..] == [];
    assert AfterAll(CONFIG, pl, events) == AfterEvent(CONFIG, pl, events[0]);
  }

  lemma {:induction false} AfterBoth(cfg: Config, pl: Pipeline, a: seq<Event>, b: seq<Event>)
    requires AllSane(cfg, a) && AllSane(cfg, b)
    ensures AllSane(cfg, a + b) && AfterAll(cfg, pl, a + b) == AfterAll(cfg, AfterAll(cfg, pl, a), b)
    decreases |a|
  {
    hide AfterEvent, Sane, Playable;
    if a == [] {
      assert a + b == b;
    } else {
      assert (a + b)[0] == a[0] && (a + b)[1..] == a[1..] + b;
      AfterBoth(cfg, AfterEvent(cfg, pl, a[0]), a[1..], b);
    }
  }

  /** A clean block, the tick of a block with a stranger, and a clean block. */
  function ThreeBlocks(): seq<Event> {
    Block(1, []) + ([TickAt(2, [STRANGER])] + Block(3, []))
  }

  /** Blocks 1, 2 and 3, of which the second holds a payment by a stranger: the table ends with 1 and 3. */
  lemma StrangerLosesABlock(db: Database)
    ensures AllSane(CONFIG, ThreeBlocks())
    ensures AfterAll(CONFIG, Start(BlockHeader(0), db), ThreeBlocks()).view.blocks == [BlockHeader(1), BlockHeader(3)]
  {
    var p0 := Start(BlockHeader(0), db);
    assert Before(p0, 1, []);
    assert 3 !in Numbers([BlockHeader(1)]) && [] + [BlockHeader(1)] == [BlockHeader(1)];
    hide AllSane, AfterAll, Block, TickAt, Start, Numbers;
    CleanBlockIsStored(1, p0, []) by { assert 1 !in Numbers([]) by { NoNumbers(); } }
    var p1 := AfterAll(CONFIG, p0, Block(1, []));
    StrangerIsDropped(2, p1, [BlockHeader(1)]);
    var p2 := AfterAll(CONFIG, p1, [TickAt(2, [STRANGER])]);
    CleanBlockIsStored(3, p2, [BlockHeader(1)]);
    AfterBoth(CONFIG, p1, [TickAt(2, [STRANGER])], Block(3, []));
    AfterBoth(CONFIG, p0, Block(1, []), [TickAt(2, [STRANGER])] + Block(3, []));
  }

  lemma NoNumbers()
    ensures 1 !in Numbers([])
  {
  }
}
