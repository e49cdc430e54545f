/** The deposits of one business over the messages of a process. */
module DepositHistory {
  import opened Prelude
  import opened BigInt
  import opened Classifier
  import opened SyncClient
  import opened Synchronizer
  import opened Deposits
  import opened DepositWorker
  import opened MessageOutcome
  import opened Scanner
  import opened ScannerRefinement
  import opened WalletHistory

  /** The transactions of each height of a chain that stands still. */
  type Chain = map<nat, seq<RawTx>>

  /** The node shows blocks of this chain; its business list, its address books and its faults may be anything. */
  ghost predicate Shows(chain: Chain, node: Node) {
    forall h | h in node.txs :: h in chain && node.txs[h] == chain[h]
  }

  // ---------------------------------------------------------------------------------------------
  // The height of a message
  // ---------------------------------------------------------------------------------------------

  /** The height of the last header with a transaction. */
  function LastFilled(chain: Chain, headers: seq<Header>): nat {
    if headers == [] then 0
    else
      var h := headers[|headers| - 1].number;
      if h in chain && chain[h] != [] then h else LastFilled(chain, headers[..|headers| - 1])
  }

  lemma StreamNeedsBusiness(policy: Policy, node: Node, uid: string, header: Header)
    requires Readable(node, header)
    ensures HeaderStream(policy, node, uid, header) != []
            <==> uid in node.businesses.value && node.txs[header.number] != []
  {
    var txs, uids := node.txs[header.number], node.businesses.value;
    var items := Items(policy, node.BookOf(uid), uid, header, txs);
    var block := BlockStream(policy, node, uid, header, txs, uids);
    if block != [] {
      BlockItems(policy, node, uid, header, txs, uids, block[0]);
    }
    if uid in uids && txs != [] {
      BlockItems(policy, node, uid, header, txs, uids, items[0]);
    }
  }

  lemma {:induction false} NoBusinessNoStream(policy: Policy, node: Node, uid: string, headers: seq<Header>)
    requires node.businesses.Some? ==> uid !in node.businesses.value
    ensures Stream(policy, node, uid, headers) == []
  {
    if headers != [] {
      NoBusinessNoStream(policy, node, uid, headers[..|headers| - 1]);
      if Readable(node, headers[|headers| - 1]) {
        StreamNeedsBusiness(policy, node, uid, headers[|headers| - 1]);
      }
    }
  }

  /** For a listed business the last contribution comes from the last block with a transaction. */
  lemma {:induction false} ContributionIsFilled(policy: Policy, node: Node, chain: Chain, uid: string,
                                                headers: seq<Header>)
    requires HeadersStop(policy, node, headers) == Go && Shows(chain, node)
    requires node.businesses.Some? && uid in node.businesses.value
    requires forall header | header in headers :: header.number < TWO_64
    ensures LastContribution(policy, node, uid, headers) == LastFilled(chain, headers)
  {
    hide HeaderStream, HeaderStop;
    if headers != [] {
      var init, last := headers[..|headers| - 1], headers[|headers| - 1];
      assert headers == init + [last] && last in headers;
      assert Readable(node, last) by { GoLast(policy, node, headers); }
      StreamNeedsBusiness(policy, node, uid, last);
      ContributionIsFilled(policy, node, chain, uid, init);
    }
  }

  lemma GoLast(policy: Policy, node: Node, headers: seq<Header>)
    requires headers != [] && HeadersStop(policy, node, headers) == Go
    ensures Readable(node, headers[|headers| - 1])
  {
  }

  /** So the height of a message does not depend on when and how the node was asked. */
  lemma MessageHeight(policy: Policy, node: Node, chain: Chain, uid: string, headers: seq<Header>)
    requires HeadersStop(policy, node, headers) == Go && Shows(chain, node) && uid in Collect(policy, node, headers)
    requires forall header | header in headers :: header.number < TWO_64
    ensures Collect(policy, node, headers)[uid].blockHeight == LastFilled(chain, headers)
    ensures exists header | header in headers :: header.number == LastFilled(chain, headers)
  {
    hide HeadersStop, Collect, Stream, LastContribution;
    CollectIsStream(policy, node, headers, uid);
    if node.businesses.None? || uid !in node.businesses.value {
      NoBusinessNoStream(policy, node, uid, headers);
    } else {
      ContributionIsFilled(policy, node, chain, uid, headers);
      HeightIsOfHeader(policy, node, uid, headers);
      var header :| header in headers && LastContribution(policy, node, uid, headers) == Uint64(header.number);
      assert Uint64(header.number) == header.number;
    }
  }

  /** The height of a message is the height of one of its headers. */
  lemma {:induction false} HeightIsOfHeader(policy: Policy, node: Node, uid: string, headers: seq<Header>)
    requires Stream(policy, node, uid, headers) != []
    ensures exists header | header in headers :: LastContribution(policy, node, uid, headers) == Uint64(header.number)
  {
    hide HeaderStream;
    var init, last := headers[..|headers| - 1], headers[|headers| - 1];
    assert headers == init + [last];
    if HeaderStream(policy, node, uid, last) == [] {
      assert Stream(policy, node, uid, init) + [] == Stream(policy, node, uid, init);
      HeightIsOfHeader(policy, node, uid, init);
    } else {
      assert last in headers;
    }
  }

  lemma {:induction false} SameNumbersSameHeight(chain: Chain, a: seq<Header>, b: seq<Header>)
    requires Numbers(a) == Numbers(b)
    ensures LastFilled(chain, a) == LastFilled(chain, b)
  {
    assert |a| == |Numbers(a)| == |b|;
    if a != [] {
      var n := |a| - 1;
      assert Numbers(a[..n]) == Numbers(a)[..n] == Numbers(b[..n]);
      assert Numbers(a)[n] == Numbers(b)[n];
      SameNumbersSameHeight(chain, a[..n], b[..n]);
    }
  }

  // ---------------------------------------------------------------------------------------------
  // A process
  // ---------------------------------------------------------------------------------------------

  /** What the process has handed over and done with since the k-th delivery, in the order of the windows. */
  function Windows(log: seq<Delivery>): (windows: seq<seq<Header>>)
    ensures |windows| == |log| && forall i | 0 <= i < |log| :: windows[i] == log[i].headers
  {
    seq(|log|, i requires 0 <= i < |log| => log[i].headers)
  }

  predicate Small(headers: seq<Header>) {
    forall header | header in headers :: header.number < TWO_64
  }

  /** Every delivery of the process comes from a tick that met a node of this chain. */
  ghost predicate TrueDelivery(cfg: Config, chain: Chain, headers: seq<Header>, node: Node, batch: Batch) {
    && Shows(chain, node) && Small(headers)
    && HeadersStop(cfg.policy, node, headers) == Go && batch == Collect(cfg.policy, node, headers)
  }

  ghost predicate TrueLog(cfg: Config, chain: Chain, log: seq<Delivery>) {
    forall d | d in log :: TrueDelivery(cfg, chain, d.headers, d.node, d.batch)
  }

  /** One process since its start at the k-th delivery. */
  ghost predicate OneRun(cfg: Config, chain: Chain, k: nat, pl: Pipeline) {
    && k <= |pl.log|
    && pl.windows == Windows(pl.log[k..]) + (if pl.hands.Busy? then [pl.hands.headers] else [])
    && TrueLog(cfg, chain, pl.log[k..])
    && Small(pl.view.headers)
    && (pl.loop.Offers? ==> TrueDelivery(cfg, chain, pl.view.headers, pl.loop.node, pl.loop.batch))
    && (pl.hands.Busy? ==> TrueDelivery(cfg, chain, pl.hands.headers, pl.hands.node, pl.hands.batch))
  }

  /** No event ends the process, and every tick meets a node of the chain. */
  ghost predicate Unbroken(cfg: Config, chain: Chain, pl: Pipeline, events: seq<Event>)
    requires forall e | e in events :: Playable(cfg, e)
    decreases |events|
  {
    events == []
    || (Unbroken(cfg, chain, AfterEvent(cfg, pl, events[0]), events[1..])
        && !Ends(cfg, pl, events[0]) && (events[0].Tick? ==> Shows(chain, events[0].node)))
  }

  lemma FetchedIsSmall(cfg: Config, pl: Pipeline, e: Event)
    requires Sane(cfg, e) && e.Tick? && Small(pl.view.headers)
    ensures Small(Fetched(cfg, pl, e).headers)
  {
    hide Wrap64, Uint64, Clamp, ToInt64, FetchAll, PlanWindow;
    var v := Fetched(cfg, pl, e);
    if pl.view.headers == [] && v.headers != [] {
      ReplyWithoutHeaders(pl.view.cursor, e.p, cfg.depth, cfg.maxSize);
      ReplyIsNextHeights(pl.view.cursor, e.p, cfg.depth, cfg.maxSize);
      forall header | header in v.headers ensures header.number < TWO_64 {
        var i :| 0 <= i < |v.headers| && v.headers[i] == header;
        assert Numbers(v.headers)[i] == header.number;
      }
    }
  }

  lemma EventKeepsRun(cfg: Config, chain: Chain, k: nat, pl: Pipeline, e: Event)
    requires Sane(cfg, e) && OneRun(cfg, chain, k, pl) && !Ends(cfg, pl, e)
    requires e.Tick? ==> Shows(chain, e.node)
    ensures OneRun(cfg, chain, k, AfterEvent(cfg, pl, e))
  {
    hide OneRun, AfterEvent, Shows, Honest, WorldFits;
    match e
    case Tick(_, _, _, _) => TickKeepsRun(cfg, chain, k, pl, e);
    case Take => TakeKeepsRun(cfg, chain, k, pl);
    case Handle(_) =>
      if pl.hands.Busy? {
        HandledKeepsRun(cfg, chain, k, pl, e);
      } else {
        IdleHandle(cfg, pl, e);
      }
    case _ => OthersKeepRun(cfg, chain, k, pl, e);
  }

  lemma OthersKeepRun(cfg: Config, chain: Chain, k: nat, pl: Pipeline, e: Event)
    requires Playable(cfg, e) && OneRun(cfg, chain, k, pl) && (e.Insert? || e.Shut?)
    ensures OneRun(cfg, chain, k, AfterEvent(cfg, pl, e))
  {
    hide Insertable, TrueLog, TrueDelivery, Windows, Small, WorldFits;
    NothingIsSmall();
  }

  lemma TickKeepsRun(cfg: Config, chain: Chain, k: nat, pl: Pipeline, e: Event)
    requires Sane(cfg, e) && OneRun(cfg, chain, k, pl) && !Ends(cfg, pl, e) && e.Tick? && Shows(chain, e.node)
    ensures OneRun(cfg, chain, k, AfterEvent(cfg, pl, e))
  {
    FetchedIsSmall(cfg, pl, e);
    hide WorldFits, HeadersStop, Collect, Honest, Shows, TrueLog, Fetched, AfterFetch, Small, Windows;
    NothingIsSmall();
  }

  lemma IdleHandle(cfg: Config, pl: Pipeline, e: Event)
    requires Playable(cfg, e) && e.Handle? && !pl.hands.Busy?
    ensures AfterEvent(cfg, pl, e) == pl
  {
  }

  lemma NothingIsSmall()
    ensures Small([])
  {
  }

  lemma TakeKeepsRun(cfg: Config, chain: Chain, k: nat, pl: Pipeline)
    requires Playable(cfg, Take) && OneRun(cfg, chain, k, pl)
    ensures OneRun(cfg, chain, k, AfterEvent(cfg, pl, Take))
  {
    hide TrueLog, TrueDelivery, Small, Windows;
    var t := AfterEvent(cfg, pl, Take);
    if pl.loop.Offers? && pl.hands.Free? {
      assert Windows(pl.log[k..]) + [] == Windows(pl.log[k..]);
      assert t.windows == Windows(t.log[k..]) + [t.hands.headers];
    }
  }

  lemma HandledKeepsRun(cfg: Config, chain: Chain, k: nat, pl: Pipeline, e: Event)
    requires Sane(cfg, e) && OneRun(cfg, chain, k, pl) && e.Handle? && pl.hands.Busy?
    ensures OneRun(cfg, chain, k, AfterEvent(cfg, pl, e))
  {
    hide WorldFits, AfterHandle, Reached, TrueDelivery;
    var t := AfterEvent(cfg, pl, e);
    var d := t.log[|pl.log|];
    assert t.log[k..] == pl.log[k..] + [d];
    assert Windows(t.log[k..]) == Windows(pl.log[k..]) + [d.headers];
    assert Windows(t.log[k..]) + [] == Windows(t.log[k..]);
  }

  lemma {:induction false} EventsKeepRun(cfg: Config, chain: Chain, k: nat, pl: Pipeline, events: seq<Event>)
    requires AllSane(cfg, events) && OneRun(cfg, chain, k, pl) && Unbroken(cfg, chain, pl, events)
    ensures OneRun(cfg, chain, k, AfterAll(cfg, pl, events))
    decreases |events|
  {
    hide OneRun, AfterEvent, Playable, Sane, Ends, Shows;
    if events != [] {
      EventKeepsRun(cfg, chain, k, pl, events[0]);
      EventsKeepRun(cfg, chain, k, AfterEvent(cfg, pl, events[0]), events[1..]);
    }
  }

  /** In every interleaving a process hands over ascending windows; each repeats the one before or lies above it. */
  lemma EventsDeliverInOrder(cfg: Config, pl: Pipeline, events: seq<Event>, s: State)
    requires AllSane(cfg, events) && Agrees(pl, s) && Inv(cfg.maxSize, s)
    ensures var windows := AfterAll(cfg, pl, events).windows;
            InOrder(NumbersOf(windows)) && forall w | w in windows :: Ascending(Numbers(w))
  {
    hide AfterAll, Agrees, Inv, Valid, Run, Sane, Playable, NoGapOpens, OriginAfterAll;
    var steps := EventsAreARun(cfg, pl, events, s);
    InvRun(cfg.maxSize, s, steps);
    WindowsAgree(cfg.maxSize, AfterAll(cfg, pl, events), Run(s, steps));
  }

  lemma WindowsAgree(size: nat, pl: Pipeline, s: State)
    requires Agrees(pl, s) && Inv(size, s)
    ensures InOrder(NumbersOf(pl.windows)) && forall w | w in pl.windows :: Ascending(Numbers(w))
  {
  }

  // ---------------------------------------------------------------------------------------------
  // Heights never fall
  // ---------------------------------------------------------------------------------------------

  predicate Ordered(windows: seq<seq<Header>>) {
    InOrder(NumbersOf(windows)) && forall w | w in windows :: Ascending(Numbers(w))
  }

  lemma OrderedPrefix(windows: seq<seq<Header>>, n: nat)
    requires Ordered(windows) && n <= |windows|
    ensures Ordered(windows[..n])
  {
    hide Ascending;
    var init := windows[..n];
    forall i | 0 < i < |init| ensures Follows(NumbersOf(init)[i - 1], NumbersOf(init)[i]) {
      assert Follows(NumbersOf(windows)[i - 1], NumbersOf(windows)[i]);
    }
    forall i | 0 <= i < |init| ensures NumbersOf(init)[i] != [] {
      assert NumbersOf(windows)[i] != [];
    }
  }

  /** Where the heights of the messages so far lie: below the last window, or at the height of its message. */
  predicate Below(chain: Chain, w: seq<Header>, h: nat) {
    w != [] && (h < w[0].number || (h == LastFilled(chain, w) && InWindow(w, h)))
  }

  predicate InWindow(w: seq<Header>, h: nat) {
    w != [] && w[0].number <= h <= w[|w| - 1].number
  }

  lemma HeightInWindow(w: seq<Header>, header: Header)
    requires Ascending(Numbers(w)) && header in w
    ensures InWindow(w, header.number)
  {
    var i :| 0 <= i < |w| && w[i] == header;
    assert i > 0 ==> Numbers(w)[0] < Numbers(w)[i];
    assert i < |w| - 1 ==> Numbers(w)[i] < Numbers(w)[|w| - 1];
  }

  lemma NextWindowIsAbove(chain: Chain, windows: seq<seq<Header>>, h: nat)
    requires Ordered(windows) && |windows| >= 2 && Below(chain, windows[|windows| - 2], h)
    ensures var w := windows[|windows| - 1];
            Below(chain, w, h) && (InWindow(w, LastFilled(chain, w)) ==> h <= LastFilled(chain, w))
  {
    var n := |windows| - 1;
    var u, w := windows[n - 1], windows[n];
    assert u in windows && w in windows;
    assert NumbersOf(windows)[n] != [] && Follows(NumbersOf(windows)[n - 1], NumbersOf(windows)[n]);
    if Numbers(u) == Numbers(w) {
      SameNumbersSameHeight(chain, u, w);
      assert u[0].number == Numbers(u)[0] == Numbers(w)[0] == w[0].number;
      assert u[|u| - 1].number == Numbers(u)[|u| - 1] == Numbers(w)[|w| - 1] == w[|w| - 1].number;
    } else {
      assert Last(Numbers(u)) == u[|u| - 1].number && Numbers(w)[0] == w[0].number;
      HeightInWindow(u, u[|u| - 1]);
    }
  }

  lemma {:induction false} MessagesInAre(batch: Batch, uids: seq<string>, uid: string)
    ensures forall m | m in MessagesIn(batch, uids, uid) :: uid in batch && m == batch[uid]
  {
    if uids != [] {
      MessagesInAre(batch, uids[..|uids| - 1], uid);
    }
  }

  predicate Rising(messages: seq<TransactionsChannel>) {
    forall i, j | 0 <= i < j < |messages| :: messages[i].blockHeight <= messages[j].blockHeight
  }

  lemma RisingInTwo(a: seq<TransactionsChannel>, b: seq<TransactionsChannel>, h: nat)
    requires Rising(a) && (forall m | m in a :: m.blockHeight <= h) && (forall m | m in b :: m.blockHeight == h)
    ensures Rising(a + b)
  {
    var c := a + b;
    forall i, j | 0 <= i < j < |c| ensures c[i].blockHeight <= c[j].blockHeight {
      assert i < |a| ==> c[i] in a;
      assert i >= |a| ==> c[i] in b;
      assert j >= |a| ==> c[j] in b;
    }
  }

  lemma DeliveryHeight(cfg: Config, chain: Chain, d: Delivery, uid: string, m: TransactionsChannel)
    requires TrueDelivery(cfg, chain, d.headers, d.node, d.batch) && Ascending(Numbers(d.headers))
    requires m in MessagesIn(d.batch, Passed(d), uid)
    ensures m.blockHeight == LastFilled(chain, d.headers) < TWO_64
    ensures InWindow(d.headers, LastFilled(chain, d.headers))
  {
    hide HeadersStop, Collect, LastFilled;
    MessagesInAre(d.batch, Passed(d), uid);
    MessageHeight(cfg.policy, d.node, chain, uid, d.headers);
    var header :| header in d.headers && header.number == LastFilled(chain, d.headers);
    HeightInWindow(d.headers, header);
  }

  /** One more delivery: its messages are at the height of its window, those before at most there. */
  lemma OneMoreDelivery(cfg: Config, chain: Chain, init: seq<Delivery>, d: Delivery, uid: string)
    requires TrueDelivery(cfg, chain, d.headers, d.node, d.batch) && Ordered(Windows(init + [d]))
    requires Rising(MessagesOf(init, uid)) && forall m | m in MessagesOf(init, uid) :: m.blockHeight < TWO_64
    requires init != [] ==>
               forall m | m in MessagesOf(init, uid) :: Below(chain, init[|init| - 1].headers, m.blockHeight)
    ensures Rising(MessagesOf(init, uid) + MessagesIn(d.batch, Passed(d), uid))
    ensures forall m | m in MessagesIn(d.batch, Passed(d), uid) :: m.blockHeight < TWO_64
    ensures forall m | m in MessagesOf(init, uid) + MessagesIn(d.batch, Passed(d), uid) ::
              Below(chain, d.headers, m.blockHeight)
  {
    hide TrueDelivery, LastFilled, InWindow, Rising;
    var windows := Windows(init + [d]);
    var before, now := MessagesOf(init, uid), MessagesIn(d.batch, Passed(d), uid);
    var h := LastFilled(chain, d.headers);
    assert windows[|init|] == d.headers && d.headers in windows;
    NonemptyWindow(windows, |init|);
    forall m | m in now ensures m.blockHeight == h < TWO_64 && InWindow(d.headers, h) {
      DeliveryHeight(cfg, chain, d, uid, m);
    }
    forall m | m in before
      ensures Below(chain, d.headers, m.blockHeight) && (InWindow(d.headers, h) ==> m.blockHeight <= h)
    {
      assert init != [] && windows[|init| - 1] == init[|init| - 1].headers;
      NextWindowIsAbove(chain, windows, m.blockHeight);
    }
    if now == [] {
      assert before + [] == before;
    } else {
      assert now[0] in now;
      RisingInTwo(before, now, h);
    }
  }

  /**
   * The heights of a business's messages never fall within a process, as long as the nodes show one chain: whatever
   * the business lists, the address books, the faults and the repetitions are.
   */
  lemma {:induction false} HeightsNeverFall(cfg: Config, chain: Chain, log: seq<Delivery>, uid: string)
    requires TrueLog(cfg, chain, log) && Ordered(Windows(log))
    ensures Rising(MessagesOf(log, uid))
    ensures forall m | m in MessagesOf(log, uid) :: m.blockHeight < TWO_64
    ensures log != [] ==>
              forall m | m in MessagesOf(log, uid) :: Below(chain, log[|log| - 1].headers, m.blockHeight)
  {
    hide TrueDelivery, Below, Ordered, MessagesIn;
    if log != [] {
      var n := |log| - 1;
      var init, d := log[..n], log[n];
      assert log == init + [d] && d in log;
      assert Windows(init) == Windows(log)[..n];
      OrderedPrefix(Windows(log), n);
      HeightsNeverFall(cfg, chain, init, uid);
      hide Rising;
      OneMoreDelivery(cfg, chain, init, d, uid);
    }
  }

  lemma NonemptyWindow(windows: seq<seq<Header>>, i: nat)
    requires Ordered(windows) && i < |windows|
    ensures windows[i] != []
  {
    assert NumbersOf(windows)[i] != [];
  }

  lemma {:induction false} CallsRise(messages: seq<TransactionsChannel>)
    ensures |CallsOf(messages)| == |messages|
    ensures forall i | 0 <= i < |messages| :: CallsOf(messages)[i].height == messages[i].blockHeight
  {
    if messages != [] {
      CallsRise(messages[..|messages| - 1]);
    }
  }

  /** A process at its start: nothing handed over yet, and in agreement with some state of the protocol. */
  ghost predicate AtStart(cfg: Config, pl: Pipeline, s: State) {
    && Agrees(pl, s) && Inv(cfg.maxSize, s)
    && pl.windows == [] && pl.hands.Free? && !pl.loop.Offers? && pl.view.headers == []
  }

  /** The first process is at its start. */
  lemma FirstProcessStarts(cfg: Config, from: Header, db: Database)
    ensures AtStart(cfg, Start(from, db), Initial(from.number))
  {
    hide Inv;
    InvInitial(cfg.maxSize, from.number);
  }

  /** So is every process that follows a crash. */
  lemma NextProcessStarts(cfg: Config, pl: Pipeline, s: State, crash: Event)
    requires Sane(cfg, crash) && crash.Crash? && Agrees(pl, s) && Inv(cfg.maxSize, s)
    ensures AtStart(cfg, AfterEvent(cfg, pl, crash), Next(s, Restart(crash.head.number)))
  {
    hide WorldFits, Inv, Broken, Agrees, Next, Newest;
    CrashIsARun(cfg, pl, crash, s);
    CanRestart(cfg.maxSize, s, crash.head.number);
    InvStep(cfg.maxSize, s, Restart(crash.head.number));
  }

  lemma StartsRun(cfg: Config, chain: Chain, pl: Pipeline, s: State)
    requires AtStart(cfg, pl, s)
    ensures OneRun(cfg, chain, |pl.log|, pl)
  {
    assert pl.log[|pl.log|..] == [] && Windows([]) + [] == [];
  }

  /**
   * The deposits that a process leaves in a wallet: however the blocks were cut into windows, however often a window
   * was handed over, and whatever else happened, they are those of one confirmation at the height of the last message.
   */
  lemma ProcessFuses(cfg: Config, chain: Chain, pl: Pipeline, s: State, events: seq<Event>, uid: string)
    requires AllSane(cfg, events) && AtStart(cfg, pl, s) && Unbroken(cfg, chain, pl, events)
    ensures var t := AfterAll(cfg, pl, events);
            && |pl.log| <= |t.log|
            && var messages := MessagesOf(t.log[|pl.log|..], uid);
               && (messages == [] ==> WalletOf(t.db, uid).deposits == WalletOf(pl.db, uid).deposits)
               && (messages != [] ==>
                     WalletOf(t.db, uid).deposits
                     == ConfirmAll(cfg.policy, WalletOf(pl.db, uid).deposits + AllStored(CallsOf(messages)),
                                   messages[|messages| - 1].blockHeight, cfg.confirms))
  {
    hide AfterAll, Sane, Playable, Unbroken, OneRun, AtStart, TablesAre, MessagesOf, ConfirmAll, CallsOf, AllStored,
         Rising;
    var k := |pl.log|;
    StartsRun(cfg, chain, pl, s);
    var t := AfterAll(cfg, pl, events);
    WalletIsItsHistory(cfg, pl, events, uid);
    EventsKeepRun(cfg, chain, k, pl, events);
    RunRises(cfg, chain, pl, s, events, uid);
    var messages := MessagesOf(t.log[k..], uid);
    MessagesFuse(cfg, WalletOf(pl.db, uid), messages, WalletOf(t.db, uid));
  }

  lemma RunRises(cfg: Config, chain: Chain, pl: Pipeline, s: State, events: seq<Event>, uid: string)
    requires AllSane(cfg, events) && AtStart(cfg, pl, s)
    requires OneRun(cfg, chain, |pl.log|, AfterAll(cfg, pl, events))
    ensures var messages := MessagesOf(AfterAll(cfg, pl, events).log[|pl.log|..], uid);
            Rising(messages) && forall m | m in messages :: m.blockHeight < TWO_64
  {
    var t := AfterAll(cfg, pl, events);
    var log := t.log[|pl.log|..];
    hide AfterAll, Sane, Playable, MessagesOf, Rising, Agrees, Inv, TrueLog, Small, TrueDelivery, Ordered;
    EventsDeliverInOrder(cfg, pl, events, s);
    assert Ordered(t.windows) by { OrderedIs(t.windows); }
    OrderedPrefix(t.windows, |log|);
    assert t.windows[..|log|] == Windows(log);
    HeightsNeverFall(cfg, chain, log, uid);
  }

  lemma OrderedIs(windows: seq<seq<Header>>)
    requires InOrder(NumbersOf(windows)) && forall w | w in windows :: Ascending(Numbers(w))
    ensures Ordered(windows)
  {
  }

  lemma MessagesFuse(cfg: Config, w: Wallet, messages: seq<TransactionsChannel>, after: Wallet)
    requires TablesAre(cfg.policy, w, messages, cfg.confirms, after)
    requires Rising(messages) && forall m | m in messages :: m.blockHeight < TWO_64
    ensures messages == [] ==> after.deposits == w.deposits
    ensures messages != [] ==>
              after.deposits == ConfirmAll(cfg.policy, w.deposits + AllStored(CallsOf(messages)),
                                           messages[|messages| - 1].blockHeight, cfg.confirms)
  {
    hide ConfirmAll, AllStored;
    var calls := CallsOf(messages);
    CallsRise(messages);
    if messages != [] {
      assert messages[|messages| - 1] in messages;
      forall i, j | 0 <= i < j < |calls| ensures calls[i].height <= calls[j].height {
        assert messages[i].blockHeight <= messages[j].blockHeight;
      }
      HistoryFuses(cfg.policy, w.deposits, calls, cfg.confirms);
    }
  }
}
