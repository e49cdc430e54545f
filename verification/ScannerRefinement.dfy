/**
 * The code as events: a tick of worker/synchronizer.go up to its send, the hand-over, the insert of the blocks, the
 * handleBatch of worker/deposit.go, the steps of Close, and the end of the process at any point.  Events come in any
 * order, so ticks, handling and shutdown overlap as they do in the code; every sequence of them is a run of the
 * scanner protocol.
 */
module ScannerRefinement {
  import opened Prelude
  import opened BigInt
  import opened Classifier
  import opened SyncClient
  import opened Synchronizer
  import opened DepositWorker
  import opened Scanner

  // ---------------------------------------------------------------------------------------------
  // Events
  // ---------------------------------------------------------------------------------------------

  datatype Config = Config(policy: Policy, depth: nat, maxSize: nat, confirms: nat)

  /**
   * `head` is where the next process begins when no block is stored, and `world` is how far the batch in hand gets
   * before the process ends.
   */
  datatype Event =
    | Tick(p: Provider, node: Node, head: Header, world: World)
    | Take
    | Insert(fails: bool)
    | Handle(world: World)
    | Shut(step: Step)
    | Crash(head: Header, world: World)

  /** The worlds of the event are well-formed. */
  predicate Playable(cfg: Config, e: Event) {
    && cfg.maxSize < TWO_64
    && (e.Tick? || e.Handle? || e.Crash? ==> WorldFits(e.world))
  }

  ghost predicate Sane(cfg: Config, e: Event) {
    && Playable(cfg, e) && 1 <= cfg.maxSize
    && (e.Tick? ==> Honest(e.p) && (e.p.latest.Reported? ==> e.p.latest.header.number < TWO_63))
  }

  /** Where the loop is: at rest, waiting in a send, between the send and the insert, or gone. */
  datatype Loop = AtRest | Offers(batch: Batch, node: Node) | Sent | Gone

  /** The consumer: waiting, at work on a batch, dead, or through with the closed channel. */
  datatype Hands = Free | Busy(headers: seq<Header>, batch: Batch, node: Node) | Dead | Over

  /**
   * History of a batch that was handed over: the headers, the node and the message of the tick that offered it, the
   * business list it was handled for, how many entries of the list were behind at the end, and whether handleBatch
   * returned nil.
   */
  datatype Delivery = Delivery(headers: seq<Header>, node: Node, batch: Batch, uids: seq<string>, reached: nat,
                               ok: bool)

  /** `windows` are the headers handed over in this process, `log` the deliveries that have ended in any process. */
  datatype Pipeline = Pipeline(view: View, db: Database, loop: Loop, hands: Hands, closer: Closer,
                               windows: seq<seq<Header>>, log: seq<Delivery>)

  function Start(from: Header, db: Database): Pipeline {
    Pipeline(View(Some(from), [], [], []), db, AtRest, Free, Running, [], [])
  }

  /** The heights that handleBatch has completely persisted. */
  function Committed(log: seq<Delivery>): set<nat> {
    if log == [] then {}
    else
      var last := log[|log| - 1];
      Committed(log[..|log| - 1]) + (if last.ok then Members(Numbers(last.headers)) else {})
  }

  /** NewDeposit: the scanner resumes from the newest stored block, or from the given header. */
  function Resumed(v: View, head: Header): View {
    View(Some(if v.blocks == [] then head else Newest(v.blocks)), [], v.blocks, [])
  }

  /** LatestBlocks: the row with the highest number. */
  function Newest(blocks: seq<Header>): (newest: Header)
    requires blocks != []
    ensures newest in blocks && forall header | header in blocks :: header.number <= newest.number
  {
    if |blocks| == 1 then blocks[0]
    else
      var best, last := Newest(blocks[..|blocks| - 1]), blocks[|blocks| - 1];
      assert blocks == blocks[..|blocks| - 1] + [last];
      if best.number < last.number then last else best
  }

  function Reborn(pl: Pipeline, head: Header): Pipeline {
    Pipeline(Resumed(pl.view, head), pl.db, AtRest, Free, Running, [], pl.log)
  }

  function ListOf(world: World): seq<string> {
    if world.businesses.Some? then world.businesses.value else []
  }

  /** The history of the batch in hand. */
  function Ended(cfg: Config, pl: Pipeline, world: World, ok: bool): Delivery
    requires pl.hands.Busy? && WorldFits(world)
  {
    Delivery(pl.hands.headers, pl.hands.node, pl.hands.batch, ListOf(world),
             Reached(cfg.policy, pl.db, pl.hands.batch, cfg.confirms, world), ok)
  }

  /** handleBatch on the batch in hand. */
  function Handled(cfg: Config, pl: Pipeline, world: World): Pipeline
    requires pl.hands.Busy? && WorldFits(world)
  {
    var (db, ok) := AfterHandle(cfg.policy, pl.db, pl.hands.batch, cfg.confirms, world);
    pl.(db := db, hands := if ok then Free else Dead,
        log := pl.log + [Ended(cfg, pl, world, ok)])
  }

  /** The end of the process: what handleBatch has committed stays, but the batch in hand was not handled. */
  function Broken(cfg: Config, pl: Pipeline, world: World): Pipeline
    requires WorldFits(world)
  {
    if pl.hands.Busy? then
      pl.(db := AfterHandle(cfg.policy, pl.db, pl.hands.batch, cfg.confirms, world).0,
          log := pl.log + [Ended(cfg, pl, world, false)])
    else pl
  }

  function Fetched(cfg: Config, pl: Pipeline, e: Event): View
    requires e.Tick? && cfg.maxSize < TWO_64
  {
    AfterFetch(e.p, cfg.depth, cfg.maxSize, pl.view)
  }

  /** A tick that has a batch to process. */
  predicate Works(cfg: Config, pl: Pipeline, e: Event)
    requires cfg.maxSize < TWO_64
  {
    e.Tick? && pl.loop.AtRest? && Fetched(cfg, pl, e).headers != []
  }

  function Stopped(cfg: Config, pl: Pipeline, e: Event): Stop
    requires e.Tick? && cfg.maxSize < TWO_64
  {
    HeadersStop(cfg.policy, e.node, Fetched(cfg, pl, e).headers)
  }

  /** The event forgets a batch that was not handed over. */
  predicate Drops(cfg: Config, pl: Pipeline, e: Event)
    requires cfg.maxSize < TWO_64
  {
    Works(cfg, pl, e) && Stopped(cfg, pl, e) == StopQuit && cfg.policy.AsWritten?
  }

  /** The event adds the batch to the blocks table. */
  predicate Stores(pl: Pipeline, e: Event) {
    e.Insert? && pl.loop.Sent? && !e.fails && Insertable(pl.view.blocks, pl.view.headers)
  }

  /** The process ends: it is killed, or a tick panics. */
  predicate Ends(cfg: Config, pl: Pipeline, e: Event)
    requires cfg.maxSize < TWO_64
  {
    e.Crash? || (Works(cfg, pl, e) && Stopped(cfg, pl, e) == StopPanic)
  }

  /** A tick up to its send: a batch that is classified is offered, any other outcome is that of AfterTick. */
  function Ticked(cfg: Config, pl: Pipeline, e: Event): Pipeline
    requires e.Tick? && Playable(cfg, e)
  {
    var v := Fetched(cfg, pl, e);
    if v.headers == [] then pl.(view := v)
    else
      match Stopped(cfg, pl, e)
      case Go => pl.(view := v, loop := Offers(Collect(cfg.policy, e.node, v.headers), e.node))
      case StopPanic => Reborn(Broken(cfg, pl.(view := v), e.world), e.head)
      case StopQuit => pl.(view := if cfg.policy.AsWritten? then v.(headers := []) else v)
      case StopError => pl.(view := v)
  }

  /** The steps of Close, of the loop's exit and of the consumer's end. */
  predicate IsShutdown(step: Step) {
    step.Cancel? || step.LoopExit? || step.CloseChannel? || step.Release? || step.Drain? || step.Join?
  }

  function AfterShut(pl: Pipeline, step: Step): Pipeline {
    match step
    case Cancel => if pl.closer.Running? then pl.(closer := Cancelled) else pl
    case LoopExit => if pl.loop.AtRest? && !pl.closer.Running? then pl.(loop := Gone) else pl
    case CloseChannel => if pl.closer.Cancelled? && pl.loop.Gone? then pl.(closer := Closed) else pl
    case Release => if pl.closer.Closed? then pl.(closer := Released) else pl
    case Drain => if pl.hands.Free? && !pl.closer.Running? && !pl.closer.Cancelled? then pl.(hands := Over) else pl
    case Join => if pl.closer.Released? && (pl.hands.Dead? || pl.hands.Over?) then pl.(closer := Done) else pl
    case _ => pl
  }

  /** An event that cannot happen in the state it meets changes nothing. */
  function AfterEvent(cfg: Config, pl: Pipeline, e: Event): Pipeline
    requires Playable(cfg, e)
  {
    match e
    case Tick(_, _, _, _) => if pl.loop.AtRest? then Ticked(cfg, pl, e) else pl
    case Take =>
      if pl.loop.Offers? && pl.hands.Free? then
        pl.(view := pl.view.(delivered := pl.view.delivered + [pl.loop.batch]), loop := Sent,
            hands := Busy(pl.view.headers, pl.loop.batch, pl.loop.node), windows := pl.windows + [pl.view.headers])
      else pl
    case Insert(_) =>
      if !pl.loop.Sent? then pl
      else if Stores(pl, e) then
        pl.(view := pl.view.(blocks := pl.view.blocks + pl.view.headers, headers := []), loop := AtRest)
      else pl.(loop := AtRest)
    case Handle(world) => if pl.hands.Busy? then Handled(cfg, pl, world) else pl
    case Shut(step) => AfterShut(pl, step)
    case Crash(head, world) => Reborn(Broken(cfg, pl, world), head)
  }

  function AfterAll(cfg: Config, pl: Pipeline, events: seq<Event>): Pipeline
    requires forall e | e in events :: Playable(cfg, e)
    decreases |events|
  {
    if events == [] then pl else AfterAll(cfg, AfterEvent(cfg, pl, events[0]), events[1..])
  }

  /** A tick, its hand-over and its insert, with nothing in between, are the tick of the code. */
  lemma TickIsThreeEvents(cfg: Config, pl: Pipeline, p: Provider, node: Node, head: Header, world: World)
    requires cfg.maxSize < TWO_64 && WorldFits(world) && pl.loop.AtRest? && pl.hands.Free?
    requires !AfterTick(cfg.policy, p, node, cfg.depth, cfg.maxSize, pl.view).1.Crashed?
    ensures var offered := AfterEvent(cfg, pl, Tick(p, node, head, world));
            AfterEvent(cfg, AfterEvent(cfg, offered, Take), Insert(node.storeFails)).view
            == AfterTick(cfg.policy, p, node, cfg.depth, cfg.maxSize, pl.view).0
  {
    hide HeadersStop, Collect, Insertable, Reply, WorldFits;
  }

  // ---------------------------------------------------------------------------------------------
  // Agreement with the protocol
  // ---------------------------------------------------------------------------------------------

  function NumbersOf(windows: seq<seq<Header>>): (r: seq<seq<nat>>)
    ensures |r| == |windows| && forall i | 0 <= i < |r| :: r[i] == Numbers(windows[i])
  {
    seq(|windows|, i requires 0 <= i < |windows| => Numbers(windows[i]))
  }

  predicate Fits(v: View, s: State) {
    && v.cursor.Some? && s.last == v.cursor.value.number
    && s.headers == Numbers(v.headers)
    && s.blocks == Numbers(v.blocks)
  }

  function Phase(loop: Loop): Producer {
    match loop
    case AtRest => Idle
    case Offers(_, _) => Offering
    case Sent => Taken
    case Gone => Exited
  }

  function Condition(hands: Hands): Consumer {
    match hands
    case Free => Waiting
    case Busy(_, _, _) => Handling
    case Dead => Failed
    case Over => Finished
  }

  predicate Agrees(pl: Pipeline, s: State) {
    && Fits(pl.view, s)
    && s.producer == Phase(pl.loop) && s.consumer == Condition(pl.hands) && s.closer == pl.closer
    && s.received == NumbersOf(pl.windows)
    && s.done == Committed(pl.log)
    && (pl.hands.Busy? ==> pl.windows != [] && pl.hands.headers == Last(pl.windows))
    && (forall w | w in pl.windows :: Ascending(Numbers(w)))
  }

  lemma NewestIsLast(blocks: seq<Header>)
    requires blocks != [] && Ascending(Numbers(blocks))
    ensures Newest(blocks).number == Last(Numbers(blocks))
  {
    var n := |blocks| - 1;
    var i :| 0 <= i <= n && blocks[i] == Newest(blocks);
    assert i < n ==> Numbers(blocks)[i] < Numbers(blocks)[n];
    assert blocks[n] in blocks;
  }

  /** The fetch part of a tick is the first protocol step, up to the question whether there is a batch. */
  lemma FetchIsBegin(p: Provider, depth: nat, maxSize: nat, v: View, s: State) returns (begin: Step)
    requires 1 <= maxSize < TWO_64 && Honest(p)
    requires p.latest.Reported? ==> p.latest.header.number < TWO_63
    requires Fits(v, s) && s.producer.Idle? && !s.panicked
    ensures begin.BeginTick? && Enabled(maxSize, s, begin)
    ensures var fetched := AfterFetch(p, depth, maxSize, v);
            && fetched.cursor.Some? && fetched.blocks == v.blocks && fetched.delivered == v.delivered
            && Next(s, begin) == s.(headers := Numbers(fetched.headers), last := fetched.cursor.value.number,
                                    producer := if fetched.headers == [] then Idle else Classifying)
  {
    hide Wrap64, Uint64, Clamp, ToInt64, FetchAll, PlanWindow;
    var fetched := AfterFetch(p, depth, maxSize, v);
    if v.headers != [] {
      begin := BeginTick([]);
      assert Heights(s.last + 1, s.last + 1) == [];
    } else {
      ReplyWithoutHeaders(v.cursor, p, depth, maxSize);
      if fetched.headers == [] {
        begin := BeginTick([]);
        assert Heights(s.last + 1, s.last + 1) == [];
      } else {
        ReplyIsNextHeights(v.cursor, p, depth, maxSize);
        begin := BeginTick(Numbers(fetched.headers));
        assert |Numbers(fetched.headers)| == fetched.cursor.value.number - s.last;
      }
    }
  }

  lemma GaplessChain(s: State, step: Step, rest: seq<Step>)
    ensures Gapless(s, [step] + rest) <==> !LeavesGap(s, step) && Gapless(Next(s, step), rest)
  {
    hide Next, LeavesGap;
    assert ([step] + rest)[0] == step && ([step] + rest)[1..] == rest;
  }

  lemma {:induction false} GaplessAppend(s: State, a: seq<Step>, b: seq<Step>)
    ensures Gapless(s, a + b) <==> Gapless(s, a) && Gapless(Run(s, a), b)
    decreases |a|
  {
    hide Next, LeavesGap;
    if a == [] {
      assert a + b == b;
    } else {
      assert (a + b)[0] == a[0] && (a + b)[1..] == a[1..] + b;
      GaplessAppend(Next(s, a[0]), a[1..], b);
    }
  }

  lemma PropagatesAppend(a: seq<Step>, b: seq<Step>)
    requires Propagates(b)
    ensures Propagates(a + b) <==> Propagates(a)
  {
    if Propagates(a + b) {
      forall i | 0 <= i < |a| ensures !a[i].ClassifyDrop? {
        assert !(a + b)[i].ClassifyDrop?;
      }
    }
  }


  // ---------------------------------------------------------------------------------------------
  // One event
  // ---------------------------------------------------------------------------------------------

  /** A batch was dropped since the last insert of the process. */
  predicate SkippedNext(cfg: Config, pl: Pipeline, e: Event, skipped: bool)
    requires cfg.maxSize < TWO_64
  {
    !Ends(cfg, pl, e) && !Stores(pl, e) && (skipped || Drops(cfg, pl, e))
  }

  /** The event inserts on top of stored blocks after a drop. */
  predicate OpensGap(pl: Pipeline, e: Event, skipped: bool) {
    Stores(pl, e) && skipped && pl.view.blocks != []
  }

  /** Height the process resumed from, after an event. */
  function OriginAfter(cfg: Config, pl: Pipeline, e: Event, origin: nat): nat
    requires Playable(cfg, e)
  {
    if Ends(cfg, pl, e) then AfterEvent(cfg, pl, e).view.cursor.value.number else origin
  }

  /** What a run remembers. */
  predicate Marks(s: State, steps: seq<Step>, skipped: bool, gap: bool, drop: bool, origin: nat) {
    && Run(s, steps).skipped == skipped
    && (Gapless(s, steps) <==> !gap)
    && (Propagates(steps) <==> !drop)
    && Run(s, steps).origin == origin
  }

  lemma NothingRuns(size: nat, s: State)
    ensures Valid(size, s, []) && Run(s, []) == s && Marks(s, [], s.skipped, false, false, s.origin)
  {
  }

  lemma OneStepRuns(size: nat, s: State, step: Step)
    requires Enabled(size, s, step)
    ensures Valid(size, s, [step]) && Run(s, [step]) == Next(s, step)
    ensures Marks(s, [step], Next(s, step).skipped, LeavesGap(s, step), step.ClassifyDrop?, Next(s, step).origin)
  {
    hide Enabled, Next, LeavesGap;
    NoSteps(size, Next(s, step));
    Chain(size, s, step, []);
    assert [step] + [] == [step];
    GaplessChain(s, step, []);
    assert [step][0] == step;
  }

  lemma TwoStepsRun(size: nat, s: State, a: Step, b: Step)
    requires Enabled(size, s, a) && Enabled(size, Next(s, a), b) && !LeavesGap(s, a) && !a.ClassifyDrop?
    ensures var mid := Next(s, a);
            && Valid(size, s, [a, b]) && Run(s, [a, b]) == Next(mid, b)
            && Marks(s, [a, b], Next(mid, b).skipped, LeavesGap(mid, b), b.ClassifyDrop?, Next(mid, b).origin)
  {
    hide Enabled, Next, LeavesGap;
    OneStepRuns(size, Next(s, a), b);
    Chain(size, s, a, [b]);
    GaplessChain(s, a, [b]);
    assert [a] + [b] == [a, b];
    SecondDrops(a, b);
  }

  lemma SecondDrops(a: Step, b: Step)
    requires !a.ClassifyDrop?
    ensures Propagates([a, b]) <==> !b.ClassifyDrop?
  {
    assert [a, b][0] == a && [a, b][1] == b;
  }

  /** The end of a process and the start of the next one. */
  lemma RebornAgrees(size: nat, pl: Pipeline, head: Header, s: State)
    requires Fits(pl.view, s) && s.done == Committed(pl.log) && HeightsFit(size, s)
    ensures var t := Next(s, Restart(head.number));
            Agrees(Reborn(pl, head), t) && !t.skipped && t.origin == Reborn(pl, head).view.cursor.value.number
  {
    hide Heights;
    if pl.view.blocks != [] {
      NewestIsLast(pl.view.blocks);
    }
  }

  lemma BrokenKeeps(cfg: Config, pl: Pipeline, world: World)
    requires WorldFits(world)
    ensures var broken := Broken(cfg, pl, world);
            broken.view == pl.view && Committed(broken.log) == Committed(pl.log)
  {
    hide AfterHandle, WorldFits;
    if pl.hands.Busy? {
      CommittedGrows(pl.log, Ended(cfg, pl, world, false));
    }
  }

  /** The second step of a tick that has a batch. */
  function Verdict(cfg: Config, stop: Stop, head: Header): Step {
    match stop
    case Go => ClassifyOk
    case StopPanic => Restart(head.number)
    case StopQuit => if cfg.policy.AsWritten? then ClassifyDrop else ClassifyFail
    case StopError => ClassifyFail
  }

  lemma VerdictAgrees(cfg: Config, pl: Pipeline, e: Event, s: State, mid: State)
    requires Sane(cfg, e) && Agrees(pl, s) && Works(cfg, pl, e) && HeightsFit(cfg.maxSize, mid)
    requires var v := Fetched(cfg, pl, e);
             && v.cursor.Some? && v.blocks == pl.view.blocks && v.delivered == pl.view.delivered
             && mid == s.(headers := Numbers(v.headers), last := v.cursor.value.number, producer := Classifying)
    ensures Agrees(Ticked(cfg, pl, e), Next(mid, Verdict(cfg, Stopped(cfg, pl, e), e.head)))
  {
    hide HeadersStop, Collect, AfterFetch, AfterHandle, WorldFits, Broken, HeightsFit, Resumed, Heights;
    var v := Fetched(cfg, pl, e);
    if Stopped(cfg, pl, e) == StopPanic {
      BrokenKeeps(cfg, pl.(view := v), e.world);
      RebornAgrees(cfg.maxSize, Broken(cfg, pl.(view := v), e.world), e.head, mid);
    }
  }

  /** The first step of a tick, and what it leaves. */
  lemma TickBegins(cfg: Config, pl: Pipeline, e: Event, s: State) returns (begin: Step)
    requires Sane(cfg, e) && e.Tick? && pl.loop.AtRest? && Agrees(pl, s) && Inv(cfg.maxSize, s)
    ensures Enabled(cfg.maxSize, s, begin) && begin.BeginTick? && Inv(cfg.maxSize, Next(s, begin))
    ensures var v := Fetched(cfg, pl, e);
            && v.cursor.Some? && v.blocks == pl.view.blocks && v.delivered == pl.view.delivered
            && Next(s, begin) == s.(headers := Numbers(v.headers), last := v.cursor.value.number,
                                    producer := if v.headers == [] then Idle else Classifying)
  {
    begin := FetchIsBegin(e.p, cfg.depth, cfg.maxSize, pl.view, s);
    InvStep(cfg.maxSize, s, begin);
  }

  lemma VerdictMarks(cfg: Config, pl: Pipeline, e: Event, s: State, mid: State)
    requires Sane(cfg, e) && Works(cfg, pl, e) && mid.skipped == s.skipped && mid.origin == s.origin
    requires Agrees(AfterEvent(cfg, pl, e), Next(mid, Verdict(cfg, Stopped(cfg, pl, e), e.head)))
    ensures var verdict := Verdict(cfg, Stopped(cfg, pl, e), e.head);
            && !LeavesGap(mid, verdict) && (verdict.ClassifyDrop? <==> Drops(cfg, pl, e))
            && Next(mid, verdict).skipped == SkippedNext(cfg, pl, e, s.skipped)
            && Next(mid, verdict).origin == OriginAfter(cfg, pl, e, s.origin)
            && !OpensGap(pl, e, s.skipped)
  {
    hide HeadersStop, Collect, AfterFetch, WorldFits, AfterEvent, Committed, NumbersOf;
  }

  lemma TickWorks(cfg: Config, pl: Pipeline, e: Event, s: State, begin: Step)
    requires Sane(cfg, e) && Works(cfg, pl, e) && Agrees(pl, s) && Inv(cfg.maxSize, s)
    requires Enabled(cfg.maxSize, s, begin) && begin.BeginTick? && Inv(cfg.maxSize, Next(s, begin))
    requires var v := Fetched(cfg, pl, e);
             && v.cursor.Some? && v.blocks == pl.view.blocks && v.delivered == pl.view.delivered
             && Next(s, begin) == s.(headers := Numbers(v.headers), last := v.cursor.value.number,
                                     producer := Classifying)
    ensures var steps := [begin, Verdict(cfg, Stopped(cfg, pl, e), e.head)];
            && Valid(cfg.maxSize, s, steps) && Agrees(AfterEvent(cfg, pl, e), Run(s, steps))
            && Marks(s, steps, SkippedNext(cfg, pl, e, s.skipped), OpensGap(pl, e, s.skipped), Drops(cfg, pl, e),
                     OriginAfter(cfg, pl, e, s.origin))
  {
    var mid := Next(s, begin);
    var verdict := Verdict(cfg, Stopped(cfg, pl, e), e.head);
    assert Enabled(cfg.maxSize, mid, verdict) && HeightsFit(cfg.maxSize, mid);
    assert AfterEvent(cfg, pl, e) == Ticked(cfg, pl, e);
    hide Inv, Marks, Enabled, AfterEvent, Ticked, WorldFits, Stopped, Fetched, Run, Valid;
    VerdictAgrees(cfg, pl, e, s, mid);
    VerdictMarks(cfg, pl, e, s, mid);
    hide Agrees, Next;
    TwoStepsRun(cfg.maxSize, s, begin, verdict);
  }

  lemma TickRests(cfg: Config, pl: Pipeline, e: Event, s: State, begin: Step)
    requires Sane(cfg, e) && e.Tick? && pl.loop.AtRest? && !Works(cfg, pl, e) && Agrees(pl, s)
    requires Enabled(cfg.maxSize, s, begin) && begin.BeginTick?
    requires var v := Fetched(cfg, pl, e);
             && v.cursor.Some? && v.blocks == pl.view.blocks && v.delivered == pl.view.delivered
             && Next(s, begin) == s.(headers := Numbers(v.headers), last := v.cursor.value.number, producer := Idle)
    ensures Valid(cfg.maxSize, s, [begin]) && Agrees(AfterEvent(cfg, pl, e), Run(s, [begin]))
    ensures Marks(s, [begin], SkippedNext(cfg, pl, e, s.skipped), OpensGap(pl, e, s.skipped), Drops(cfg, pl, e),
                  OriginAfter(cfg, pl, e, s.origin))
  {
    assert AfterEvent(cfg, pl, e) == pl.(view := Fetched(cfg, pl, e));
    hide Marks, Enabled, AfterEvent, WorldFits, Fetched, Run, Valid, Committed;
    OneStepRuns(cfg.maxSize, s, begin);
  }

  lemma TickIsARun(cfg: Config, pl: Pipeline, e: Event, s: State) returns (steps: seq<Step>)
    requires Sane(cfg, e) && e.Tick? && pl.loop.AtRest? && Agrees(pl, s) && Inv(cfg.maxSize, s)
    ensures Valid(cfg.maxSize, s, steps) && Agrees(AfterEvent(cfg, pl, e), Run(s, steps))
    ensures Marks(s, steps, SkippedNext(cfg, pl, e, s.skipped), OpensGap(pl, e, s.skipped), Drops(cfg, pl, e),
                  OriginAfter(cfg, pl, e, s.origin))
  {
    hide Inv, Marks, Enabled, AfterEvent, Run, Valid, Agrees, Next, AfterFetch, SkippedNext, OpensGap, OriginAfter,
         WorldFits, Stopped;
    var begin := TickBegins(cfg, pl, e, s);
    if Works(cfg, pl, e) {
      TickWorks(cfg, pl, e, s, begin);
      steps := [begin, Verdict(cfg, Stopped(cfg, pl, e), e.head)];
    } else {
      TickRests(cfg, pl, e, s, begin);
      steps := [begin];
    }
  }

  /** The hand-over. */
  lemma TakeIsARun(cfg: Config, pl: Pipeline, s: State)
    requires Playable(cfg, Take) && Agrees(pl, s) && Inv(cfg.maxSize, s) && pl.loop.Offers? && pl.hands.Free?
    ensures Enabled(cfg.maxSize, s, Receive) && Agrees(AfterEvent(cfg, pl, Take), Next(s, Receive))
    ensures Next(s, Receive).skipped == s.skipped && Next(s, Receive).origin == s.origin
  {
    hide HeightsFit, DeliveryFits, DataFits, Committed, Heights, Ascending, Numbers, NumbersOf;
    assert HeightsFit(cfg.maxSize, s);
    RetainedAscend(cfg.maxSize, s);
    NumbersExtend(pl.windows, pl.view.headers);
    WindowsExtend(pl.windows, pl.view.headers);
  }

  lemma NumbersExtend(windows: seq<seq<Header>>, headers: seq<Header>)
    ensures NumbersOf(windows + [headers]) == NumbersOf(windows) + [Numbers(headers)]
  {
  }

  lemma WindowsExtend(windows: seq<seq<Header>>, headers: seq<Header>)
    requires Ascending(Numbers(headers)) && forall w | w in windows :: Ascending(Numbers(w))
    ensures forall w | w in windows + [headers] :: Ascending(Numbers(w))
    ensures Last(windows + [headers]) == headers
  {
  }

  lemma RetainedAscend(size: nat, s: State)
    requires HeightsFit(size, s)
    ensures Ascending(s.headers)
  {
  }

  /** The return of the send, and the insert. */
  lemma InsertIsARun(cfg: Config, pl: Pipeline, e: Event, s: State)
    requires Playable(cfg, e) && e.Insert? && Agrees(pl, s) && Inv(cfg.maxSize, s) && pl.loop.Sent?
    ensures var mid := Next(s, Resume);
            var step := if Stores(pl, e) then StoreOk else StoreFail;
            && Enabled(cfg.maxSize, s, Resume) && Enabled(cfg.maxSize, mid, step)
            && Agrees(AfterEvent(cfg, pl, e), Next(mid, step))
            && Next(mid, step).skipped == SkippedNext(cfg, pl, e, s.skipped)
            && Next(mid, step).origin == s.origin
            && (LeavesGap(mid, step) <==> OpensGap(pl, e, s.skipped))
  {
    hide Committed, Heights, Insertable, HeightsFit, DeliveryFits, DataFits, NumbersOf;
    var v := pl.view;
    assert Numbers(v.blocks + v.headers) == Numbers(v.blocks) + Numbers(v.headers);
  }

  /** handleBatch: the consumer ranges on, or gives up. */
  lemma HandleIsARun(cfg: Config, pl: Pipeline, e: Event, s: State)
    requires Playable(cfg, e) && e.Handle? && Agrees(pl, s) && Inv(cfg.maxSize, s) && pl.hands.Busy?
    ensures var step := if AfterHandle(cfg.policy, pl.db, pl.hands.batch, cfg.confirms, e.world).1 then HandleOk
                        else HandleFail;
            && Enabled(cfg.maxSize, s, step)
            && Agrees(AfterEvent(cfg, pl, e), Next(s, step))
            && Next(s, step).skipped == s.skipped && Next(s, step).origin == s.origin
  {
    var (db, ok) := AfterHandle(cfg.policy, pl.db, pl.hands.batch, cfg.confirms, e.world);
    var d := Ended(cfg, pl, e.world, ok);
    assert !s.panicked;
    assert AfterEvent(cfg, pl, e) == pl.(db := db, hands := if ok then Free else Dead, log := pl.log + [d]);
    hide AfterHandle, WorldFits, Inv, AfterEvent, Agrees, Enabled;
    HandleAgrees(pl, s, db, d);
    assert Enabled(cfg.maxSize, s, if ok then HandleOk else HandleFail) by { WorksOn(cfg.maxSize, pl, s, ok); }
  }

  lemma WorksOn(size: nat, pl: Pipeline, s: State, ok: bool)
    requires Agrees(pl, s) && pl.hands.Busy? && !s.panicked
    ensures Enabled(size, s, if ok then HandleOk else HandleFail)
  {
  }

  lemma HandleAgrees(pl: Pipeline, s: State, db: Database, d: Delivery)
    requires Agrees(pl, s) && pl.hands.Busy? && d.headers == pl.hands.headers
    ensures Agrees(pl.(db := db, hands := if d.ok then Free else Dead, log := pl.log + [d]),
                   Next(s, if d.ok then HandleOk else HandleFail))
  {
    CommittedGrows(pl.log, d);
    assert Last(s.received) == NumbersOf(pl.windows)[|pl.windows| - 1] == Numbers(pl.hands.headers);
    hide Members, Committed, NumbersOf, Ascending, Numbers;
  }

  lemma CommittedGrows(log: seq<Delivery>, d: Delivery)
    ensures Committed(log + [d]) == Committed(log) + (if d.ok then Members(Numbers(d.headers)) else {})
  {
    assert (log + [d])[..|log|] == log;
  }

  /** A step of the shutdown happens in the code exactly when the protocol enables it. */
  lemma ShutIsARun(size: nat, pl: Pipeline, step: Step, s: State)
    requires IsShutdown(step) && Agrees(pl, s) && Inv(size, s)
    ensures Enabled(size, s, step) ==>
              && Agrees(AfterShut(pl, step), Next(s, step))
              && Next(s, step).skipped == s.skipped && Next(s, step).origin == s.origin
    ensures !Enabled(size, s, step) ==> AfterShut(pl, step) == pl
  {
    hide Committed, Heights, HeightsFit, DeliveryFits, DataFits, NumbersOf, Numbers;
  }

  /** The end of the process, with whatever handleBatch has committed by then. */
  lemma CrashIsARun(cfg: Config, pl: Pipeline, e: Event, s: State)
    requires Playable(cfg, e) && e.Crash? && Agrees(pl, s) && Inv(cfg.maxSize, s)
    ensures var t := Next(s, Restart(e.head.number));
            && Agrees(Reborn(Broken(cfg, pl, e.world), e.head), t) && !t.skipped
            && t.origin == Reborn(Broken(cfg, pl, e.world), e.head).view.cursor.value.number
  {
    hide Reborn, AfterHandle, WorldFits, HeightsFit, DataFits, DeliveryFits, Committed, Broken, Fits, Next, NumbersOf;
    BrokenKeeps(cfg, pl, e.world);
    RebornAgrees(cfg.maxSize, Broken(cfg, pl, e.world), e.head, s);
  }

  /**
   * Every event is a run of the protocol that ends in the agreeing state.  The run drops a batch exactly when the tick
   * forgets one, and opens a gap exactly when a batch is inserted on top of stored blocks after such a drop.
   */
  lemma EventIsARun(cfg: Config, pl: Pipeline, e: Event, s: State) returns (steps: seq<Step>)
    requires Sane(cfg, e) && Agrees(pl, s) && Inv(cfg.maxSize, s)
    ensures Valid(cfg.maxSize, s, steps) && Agrees(AfterEvent(cfg, pl, e), Run(s, steps))
    ensures Marks(s, steps, SkippedNext(cfg, pl, e, s.skipped), OpensGap(pl, e, s.skipped), Drops(cfg, pl, e),
                  OriginAfter(cfg, pl, e, s.origin))
  {
    if e.Tick? && pl.loop.AtRest? {
      steps := TickIsARun(cfg, pl, e, s);
    } else {
      steps := OtherIsARun(cfg, pl, e, s);
    }
  }

  lemma OtherIsARun(cfg: Config, pl: Pipeline, e: Event, s: State) returns (steps: seq<Step>)
    requires Sane(cfg, e) && Agrees(pl, s) && Inv(cfg.maxSize, s) && !(e.Tick? && pl.loop.AtRest?)
    ensures Valid(cfg.maxSize, s, steps) && Agrees(AfterEvent(cfg, pl, e), Run(s, steps))
    ensures Marks(s, steps, SkippedNext(cfg, pl, e, s.skipped), OpensGap(pl, e, s.skipped), Drops(cfg, pl, e),
                  OriginAfter(cfg, pl, e, s.origin))
  {
    hide Inv, Agrees, Marks, Enabled, Next, Run, Valid, WorldFits, Handled, Broken, Reborn, LeavesGap;
    NothingRuns(cfg.maxSize, s);
    steps := [];
    match e {
      case Take =>
        if pl.loop.Offers? && pl.hands.Free? {
          TakeIsARun(cfg, pl, s);
          OneStepRuns(cfg.maxSize, s, Receive);
          NoGapBut(s, Receive);
          steps := [Receive];
        }
      case Insert(_) =>
        if pl.loop.Sent? {
          var step := if Stores(pl, e) then StoreOk else StoreFail;
          InsertIsARun(cfg, pl, e, s);
          NoGapBut(s, Resume);
          TwoStepsRun(cfg.maxSize, s, Resume, step);
          steps := [Resume, step];
        }
      case Handle(world) =>
        if pl.hands.Busy? {
          HandleIsARun(cfg, pl, e, s);
          var ok := AfterHandle(cfg.policy, pl.db, pl.hands.batch, cfg.confirms, world).1;
          var step := if ok then HandleOk else HandleFail;
          OneStepRuns(cfg.maxSize, s, step);
          NoGapBut(s, step);
          steps := [step];
        }
      case Shut(step) =>
        if IsShutdown(step) && Enabled(cfg.maxSize, s, step) {
          ShutIsARun(cfg.maxSize, pl, step, s);
          OneStepRuns(cfg.maxSize, s, step);
          NoGapBut(s, step);
          steps := [step];
        } else if IsShutdown(step) {
          ShutIsARun(cfg.maxSize, pl, step, s);
        }
      case Crash(head, _) =>
        var step := Restart(head.number);
        CrashIsARun(cfg, pl, e, s);
        CanRestart(cfg.maxSize, s, head.number);
        OneStepRuns(cfg.maxSize, s, step);
        NoGapBut(s, step);
        steps := [step];
      case _ =>
    }
  }

  lemma CanRestart(size: nat, s: State, head: nat)
    ensures Enabled(size, s, Restart(head))
  {
  }

  lemma NoGapBut(s: State, step: Step)
    ensures LeavesGap(s, step) ==> step.StoreOk?
  {
  }

  // ---------------------------------------------------------------------------------------------
  // Any number of events
  // ---------------------------------------------------------------------------------------------

  ghost predicate AllSane(cfg: Config, events: seq<Event>) {
    (forall e | e in events :: Playable(cfg, e)) && (forall e | e in events :: Sane(cfg, e))
  }

  /** No event inserts on top of stored blocks after an event of the same process that dropped a batch. */
  predicate NoGapOpens(cfg: Config, pl: Pipeline, skipped: bool, events: seq<Event>)
    requires forall e | e in events :: Playable(cfg, e)
    decreases |events|
  {
    events == []
    || (!OpensGap(pl, events[0], skipped)
        && NoGapOpens(cfg, AfterEvent(cfg, pl, events[0]), SkippedNext(cfg, pl, events[0], skipped), events[1..]))
  }

  function OriginAfterAll(cfg: Config, pl: Pipeline, origin: nat, events: seq<Event>): nat
    requires forall e | e in events :: Playable(cfg, e)
    decreases |events|
  {
    if events == [] then origin
    else OriginAfterAll(cfg, AfterEvent(cfg, pl, events[0]), OriginAfter(cfg, pl, events[0], origin), events[1..])
  }

  lemma {:induction false} EventsAreARun(cfg: Config, pl: Pipeline, events: seq<Event>, s: State)
    returns (steps: seq<Step>)
    requires AllSane(cfg, events) && Agrees(pl, s) && Inv(cfg.maxSize, s)
    ensures Valid(cfg.maxSize, s, steps) && Agrees(AfterAll(cfg, pl, events), Run(s, steps))
    ensures Gapless(s, steps) <==> NoGapOpens(cfg, pl, s.skipped, events)
    ensures cfg.policy.AsMeant? ==> Propagates(steps)
    ensures Run(s, steps).origin == OriginAfterAll(cfg, pl, s.origin, events)
    decreases |events|
  {
    hide Enabled, Next, Inv, Agrees, AfterEvent, OpensGap, SkippedNext, OriginAfter, LeavesGap, Playable, Sane;
    if events == [] {
      NoSteps(cfg.maxSize, s);
      steps := [];
    } else {
      var e := events[0];
      assert Sane(cfg, e) && AllSane(cfg, events[1..]);
      var first := EventIsARun(cfg, pl, e, s);
      InvRun(cfg.maxSize, s, first);
      hide Run, Valid, Gapless, AllSane;
      var rest := EventsAreARun(cfg, AfterEvent(cfg, pl, e), events[1..], Run(s, first));
      RunAppend(cfg.maxSize, s, first, rest);
      GaplessAppend(s, first, rest);
      if cfg.policy.AsMeant? {
        PropagatesAppend(first, rest);
      }
      steps := first + rest;
    }
  }

  lemma FromTheStart(cfg: Config, from: Header, db: Database, events: seq<Event>) returns (steps: seq<Step>)
    requires AllSane(cfg, events)
    ensures var s := Initial(from.number);
            && Valid(cfg.maxSize, s, steps) && Inv(cfg.maxSize, s)
            && Agrees(AfterAll(cfg, Start(from, db), events), Run(s, steps))
            && (Gapless(s, steps) <==> NoGapOpens(cfg, Start(from, db), false, events))
            && (cfg.policy.AsMeant? ==> Propagates(steps))
            && Run(s, steps).origin == OriginAfterAll(cfg, Start(from, db), from.number, events)
  {
    var s := Initial(from.number);
    InvInitial(cfg.maxSize, from.number);
    assert Agrees(Start(from, db), s);
    hide Inv, Playable, Sane, AllSane, Run, Valid, Gapless, NoGapOpens, AfterAll, Agrees, OriginAfterAll;
    steps := EventsAreARun(cfg, Start(from, db), events, s);
  }

  /** The code from the first process on: the stored heights are one interval exactly when no gap opens. */
  lemma EventsContiguousIff(cfg: Config, from: Header, db: Database, events: seq<Event>)
    requires AllSane(cfg, events)
    ensures var v := AfterAll(cfg, Start(from, db), events).view;
            Contiguous(Numbers(v.blocks)) <==> NoGapOpens(cfg, Start(from, db), false, events)
  {
    var steps := FromTheStart(cfg, from, db, events);
    hide Inv, Playable, Sane, AllSane, Run, Valid, Gapless, NoGapOpens, AfterAll, OriginAfterAll;
    ContiguousIff(cfg.maxSize, Initial(from.number), steps);
  }

  /** One interval of stored heights, and retained headers that fill the distance from there to the cursor. */
  predicate Interval(v: View, origin: nat) {
    && v.cursor.Some?
    && Contiguous(Numbers(v.blocks))
    && Numbers(v.headers)
       == Heights((if v.blocks == [] then origin else Last(Numbers(v.blocks))) + 1, v.cursor.value.number + 1)
  }

  lemma AgreedInterval(pl: Pipeline, s: State)
    requires Agrees(pl, s) && Contiguous(s.blocks) && s.headers == Heights(Top(s) + 1, s.last + 1)
    ensures Interval(pl.view, s.origin)
  {
  }

  lemma RunInterval(pl: Pipeline, size: nat, head: nat, steps: seq<Step>)
    requires Valid(size, Initial(head), steps) && Propagates(steps) && Agrees(pl, Run(Initial(head), steps))
    ensures Interval(pl.view, Run(Initial(head), steps).origin)
  {
    hide Interval, Agrees, Run, Valid, Propagates;
    NothingIsSkipped(size, head, steps);
    AgreedInterval(pl, Run(Initial(head), steps));
  }

  /**
   * With faults propagated, whatever fails, panics, crashes or is shut down, at any point of any interleaving: the
   * stored heights are one interval without repeats, and the retained headers are exactly those between it and the
   * cursor.
   */
  lemma EventsKeepTheInterval(cfg: Config, from: Header, db: Database, events: seq<Event>)
    requires AllSane(cfg, events) && cfg.policy.AsMeant?
    ensures Interval(AfterAll(cfg, Start(from, db), events).view,
                     OriginAfterAll(cfg, Start(from, db), from.number, events))
  {
    var steps := FromTheStart(cfg, from, db, events);
    hide Inv, Playable, Sane, AllSane, Run, Valid, Gapless, NoGapOpens, AfterAll, OriginAfterAll, Agrees, Interval,
         Propagates, Start;
    RunInterval(AfterAll(cfg, Start(from, db), events), cfg.maxSize, from.number, steps);
  }
}
