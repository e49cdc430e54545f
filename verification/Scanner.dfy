/**
 * The scanner as two goroutines and a shutdown: worker/synchronizer.go and common/clock/loop.go
 * produce, worker/deposit.go consumes and closes.  One step is one atomic action of one of them;
 * a run is any sequence of enabled steps, so a theorem about runs covers every interleaving.
 */
module Scanner {
  import opened Prelude

  /** The loop goroutine.  `Taken`: the consumer has the batch, the sender has not resumed yet. */
  datatype Producer = Idle | Classifying | Offering | Taken | Storing | Exited

  /** The goroutine that ranges over the channel. */
  datatype Consumer = Waiting | Handling | Failed | Finished

  /** Deposit.Close: cancel the loop, wait for it and close the channel, cancel the resources, await the consumer. */
  datatype Closer = Running | Cancelled | Closed | Released | Done

  datatype State = State(
    // the database
    blocks: seq<nat>,               // blocks table, in insertion order
    done: set<nat>,                 // heights whose business data handleBatch has completely persisted
    // the process
    origin: nat,                    // height the process resumed from
    last: nat,                      // lastTraversedHeader
    headers: seq<nat>,              // the batch in work or retained for retry
    producer: Producer,
    consumer: Consumer,
    closer: Closer,
    panicked: bool,
    // history
    sent: seq<seq<nat>>,            // sends that completed in this process
    received: seq<seq<nat>>,        // batches the consumer took in this process
    skipped: bool,                  // a batch was dropped since the last insert of this process
    restarts: nat,
    abandoned: seq<seq<nat>>)       // batches in the consumer's hands when an earlier process ended

  datatype Step =
    | BeginTick(fetched: seq<nat>)  // tick: NextHeaders, unless a batch is retained
    | ClassifyFail                  // processBatch returns an error before the send
    | ClassifyDrop                  // processBatch returns nil before the send
    | ClassifyOk
    | Receive                       // the consumer takes the offered batch
    | Resume                        // the send returns
    | SendOnClosed                  // a send on a closed channel panics
    | StoreOk | StoreFail
    | LoopExit                      // the loop sees its context cancelled
    | HandleOk | HandleFail
    | Drain                         // the range over the closed channel ends
    | Cancel | CloseChannel | Release | Join
    | Restart(head: nat)            // the process ends at any point, a new one starts; head serves an empty table

  function Last<T>(s: seq<T>): T
    requires s != []
  {
    s[|s| - 1]
  }

  function Initial(head: nat): State {
    State([], {}, head, head, [], Idle, Waiting, Running, false, [], [], false, 0, [])
  }

  predicate ChannelOpen(s: State) {
    s.closer.Running? || s.closer.Cancelled?
  }

  /** The stored maximum, or the height the process started from. */
  function Top(s: State): nat {
    if s.blocks == [] then s.origin else Last(s.blocks)
  }

  predicate InHand(s: State) {
    s.consumer.Handling? || s.consumer.Failed?
  }

  predicate Enabled(size: nat, s: State, step: Step) {
    if step.Restart? then true
    else
      && !s.panicked
      && match step
         case BeginTick(fetched) =>
           && s.producer.Idle?
           && |fetched| <= size
           && fetched == Heights(s.last + 1, s.last + 1 + |fetched|)
           && (s.headers != [] ==> fetched == [])
         case ClassifyFail => s.producer.Classifying?
         case ClassifyDrop => s.producer.Classifying?
         case ClassifyOk => s.producer.Classifying?
         case Receive => s.producer.Offering? && s.consumer.Waiting? && ChannelOpen(s)
         case Resume => s.producer.Taken?
         case SendOnClosed => s.producer.Offering? && !ChannelOpen(s)
         case StoreOk => s.producer.Storing?
         case StoreFail => s.producer.Storing?
         case LoopExit => s.producer.Idle? && !s.closer.Running?
         case HandleOk => s.consumer.Handling?
         case HandleFail => s.consumer.Handling?
         case Drain => s.consumer.Waiting? && !ChannelOpen(s)
         case Cancel => s.closer.Running?
         case CloseChannel => s.closer.Cancelled? && s.producer.Exited?
         case Release => s.closer.Closed?
         case Join => s.closer.Released? && (s.consumer.Failed? || s.consumer.Finished?)
         case Restart(_) => true
  }

  function Members(batch: seq<nat>): set<nat> {
    set h | h in batch
  }

  function Next(s: State, step: Step): State {
    match step
    case BeginTick(fetched) =>
      var headers := if s.headers != [] then s.headers else fetched;
      s.(headers := headers, last := s.last + |fetched|, producer := if headers == [] then Idle else Classifying)
    case ClassifyFail => s.(producer := Idle)
    case ClassifyDrop => s.(producer := Idle, headers := [], skipped := true)
    case ClassifyOk => s.(producer := Offering)
    case Receive => s.(producer := Taken, consumer := Handling, received := s.received + [s.headers])
    case Resume => s.(producer := Storing, sent := s.sent + [s.headers])
    case SendOnClosed => s.(panicked := true)
    case StoreOk => s.(producer := Idle, blocks := s.blocks + s.headers, headers := [], skipped := false)
    case StoreFail => s.(producer := Idle)
    case LoopExit => s.(producer := Exited)
    case HandleOk =>
      s.(consumer := Waiting, done := s.done + (if s.received == [] then {} else Members(Last(s.received))))
    case HandleFail => s.(consumer := Failed)
    case Drain => s.(consumer := Finished)
    case Cancel => s.(closer := Cancelled)
    case CloseChannel => s.(closer := Closed)
    case Release => s.(closer := Released)
    case Join => s.(closer := Done)
    case Restart(head) =>
      var origin := if s.blocks == [] then head else Last(s.blocks);
      State(s.blocks, s.done, origin, origin, [], Idle, Waiting, Running, false, [], [], false, s.restarts + 1,
            if InHand(s) && s.received != [] then s.abandoned + [Last(s.received)] else s.abandoned)
  }

  predicate Valid(size: nat, s: State, steps: seq<Step>)
    decreases |steps|
  {
    steps == [] || (Enabled(size, s, steps[0]) && Valid(size, Next(s, steps[0]), steps[1..]))
  }

  function Run(s: State, steps: seq<Step>): State
    decreases |steps|
  {
    if steps == [] then s else Run(Next(s, steps[0]), steps[1..])
  }

  // ---------------------------------------------------------------------------------------------
  // Invariants
  // ---------------------------------------------------------------------------------------------

  /** Cursor, retained batch and blocks table fit together. */
  predicate HeightsFit(size: nat, s: State) {
    && Ascending(s.blocks)
    && |s.headers| <= s.last && |s.headers| <= size
    && s.headers == Heights(s.last + 1 - |s.headers|, s.last + 1)
    && s.origin <= s.last - |s.headers|
    && Top(s) <= s.last - |s.headers|
    && (s.skipped <==> Top(s) < s.last - |s.headers|)
    && ((s.producer.Classifying? || s.producer.Offering? || s.producer.Taken? || s.producer.Storing?)
        ==> s.headers != [])
  }

  /** Every send is received, in order; a batch comes again only unchanged and directly after itself. */
  predicate DeliveryFits(s: State) {
    && s.received == s.sent + (if s.producer.Taken? then [s.headers] else [])
    && (s.producer.Storing? ==> s.sent != [] && Last(s.sent) == s.headers)
    && InOrder(s.received)
    && (s.received != [] && s.headers != Last(s.received) ==> EndsBy(Last(s.received), s.last - |s.headers|))
  }

  predicate EndsBy(batch: seq<nat>, h: int) {
    batch != [] && Last(batch) <= h
  }

  predicate InOrder(received: seq<seq<nat>>) {
    && (forall i | 0 <= i < |received| :: received[i] != [])
    && (forall i | 0 < i < |received| :: Follows(received[i - 1], received[i]))
  }

  predicate Follows(earlier: seq<nat>, later: seq<nat>) {
    later == earlier || (earlier != [] && later != [] && Last(earlier) < later[0])
  }

  predicate ShutdownFits(s: State) {
    && !s.panicked
    && (!ChannelOpen(s) ==> s.producer.Exited?)
    && (s.producer.Exited? ==> !s.closer.Running?)
    && (s.consumer.Finished? ==> !ChannelOpen(s))
    && (s.closer.Done? ==> s.consumer.Finished? || s.consumer.Failed?)
    && (InHand(s) ==> s.received != [])
    && (s.producer.Taken? ==> s.received != [])
  }

  predicate Within(batch: seq<nat>, done: set<nat>) {
    forall h | h in batch :: h in done
  }

  /**
   * The batches received in this process are handled, except for the last one while it is in hand; and a stored
   * height is handled, or belongs to the last batch received, or to a batch abandoned by an earlier process.
   */
  predicate Accounts(size: nat, blocks: seq<nat>, done: set<nat>, received: seq<seq<nat>>, inHand: bool,
                     abandoned: seq<seq<nat>>, restarts: nat) {
    && (forall i | 0 <= i < |received| && (i < |received| - 1 || !inHand) :: Within(received[i], done))
    && |abandoned| <= restarts
    && (forall b | b in abandoned :: |b| <= size)
    && (forall b | b in received :: |b| <= size)
    && (forall h | h in blocks :: Accounted(done, received, abandoned, h))
  }

  predicate Accounted(done: set<nat>, received: seq<seq<nat>>, abandoned: seq<seq<nat>>, h: nat) {
    h in done || (exists b | b in abandoned :: h in b) || (received != [] && h in Last(received))
  }

  predicate DataFits(size: nat, s: State) {
    Accounts(size, s.blocks, s.done, s.received, InHand(s), s.abandoned, s.restarts)
  }

  predicate Inv(size: nat, s: State) {
    HeightsFit(size, s) && DeliveryFits(s) && ShutdownFits(s) && DataFits(size, s)
  }

  lemma AppendedHeightsAscend(blocks: seq<nat>, lo: nat, hi: nat)
    requires Ascending(blocks) && (blocks != [] ==> Last(blocks) < lo)
    ensures Ascending(blocks + Heights(lo, hi))
  {
    forall i | 0 <= i < |blocks| ensures blocks[i] < lo {
      if i < |blocks| - 1 {
        assert blocks[i] < blocks[|blocks| - 1];
      }
    }
  }

  lemma HeightsStep(size: nat, s: State, step: Step)
    requires HeightsFit(size, s) && Enabled(size, s, step)
    ensures HeightsFit(size, Next(s, step))
  {
    if step.StoreOk? {
      StoreFits(size, s);
    } else {
      hide Ascending;
    }
  }

  lemma StoreFits(size: nat, s: State)
    requires HeightsFit(size, s) && Enabled(size, s, StoreOk)
    ensures HeightsFit(size, Next(s, StoreOk))
  {
    AppendedHeightsAscend(s.blocks, s.last + 1 - |s.headers|, s.last + 1);
    assert Last(s.blocks + s.headers) == Last(s.headers) == s.last;
  }

  lemma NextBatchFollows(size: nat, s: State)
    requires HeightsFit(size, s) && DeliveryFits(s) && s.headers != []
    ensures s.received != [] ==> Follows(Last(s.received), s.headers)
  {
    assert s.headers[0] == s.last + 1 - |s.headers|;
  }

  lemma InOrderExtends(received: seq<seq<nat>>, batch: seq<nat>)
    requires InOrder(received) && batch != [] && (received != [] ==> Follows(Last(received), batch))
    ensures InOrder(received + [batch])
  {
  }

  /** Forgetting or replacing the batch in work keeps the order of deliveries. */
  lemma DeliveredBelowCursor(size: nat, s: State)
    requires HeightsFit(size, s) && DeliveryFits(s) && s.received != []
    ensures EndsBy(Last(s.received), s.last)
    ensures s.headers == [] ==> EndsBy(Last(s.received), s.last - |s.headers|)
  {
    assert Last(s.received) != [];
    if s.headers == Last(s.received) {
      assert Last(s.headers) == s.last;
    }
  }

  lemma DeliveryStep(size: nat, s: State, step: Step)
    requires HeightsFit(size, s) && DeliveryFits(s) && Enabled(size, s, step)
    ensures DeliveryFits(Next(s, step))
  {
    if step.Receive? {
      ReceiveDelivers(size, s);
    } else if !step.Restart? {
      OthersDeliver(size, s, step);
    }
  }

  lemma ReceiveDelivers(size: nat, s: State)
    requires HeightsFit(size, s) && DeliveryFits(s) && Enabled(size, s, Receive)
    ensures DeliveryFits(Next(s, Receive))
  {
    NextBatchFollows(size, s);
    InOrderExtends(s.received, s.headers);
    hide InOrder, EndsBy, Heights, Follows, Ascending;
  }

  lemma OthersDeliver(size: nat, s: State, step: Step)
    requires HeightsFit(size, s) && DeliveryFits(s) && Enabled(size, s, step)
    requires !step.Receive? && !step.Restart?
    ensures DeliveryFits(Next(s, step))
  {
    hide InOrder, EndsBy, Heights, Ascending;
    if s.received != [] {
      DeliveredBelowCursor(size, s);
    }
    assert Next(s, step).received == s.received;
  }

  lemma ShutdownStep(size: nat, s: State, step: Step)
    requires ShutdownFits(s) && Enabled(size, s, step)
    ensures ShutdownFits(Next(s, step))
  {
  }

  lemma ReceiveAccounts(size: nat, s: State)
    requires Inv(size, s) && Enabled(size, s, Receive)
    ensures DataFits(size, Next(s, Receive))
  {
    var t := Next(s, Receive);
    assert forall i | 0 <= i < |s.received| :: t.received[i] == s.received[i];
    forall h | h in t.blocks ensures Accounted(t.done, t.received, t.abandoned, h) {
      assert Accounted(s.done, s.received, s.abandoned, h);
      if s.received != [] && h in Last(s.received) {
        assert Within(s.received[|s.received| - 1], s.done);
      }
    }
  }

  lemma HandleAccounts(size: nat, s: State)
    requires Inv(size, s) && Enabled(size, s, HandleOk)
    ensures DataFits(size, Next(s, HandleOk))
  {
    var t := Next(s, HandleOk);
    forall h | h in t.blocks ensures Accounted(t.done, t.received, t.abandoned, h) {
      assert Accounted(s.done, s.received, s.abandoned, h);
    }
    forall i | 0 <= i < |t.received| ensures Within(t.received[i], t.done) {
      assert i < |s.received| - 1 ==> Within(s.received[i], s.done);
    }
  }

  lemma StoreAccounts(size: nat, s: State)
    requires Inv(size, s) && Enabled(size, s, StoreOk)
    ensures DataFits(size, Next(s, StoreOk))
  {
    forall h | h in Next(s, StoreOk).blocks ensures Accounted(s.done, s.received, s.abandoned, h) {
      assert h in s.blocks || h in s.headers;
      assert Last(s.received) == s.headers;
    }
  }

  lemma RestartAccounts(size: nat, s: State, head: nat)
    requires Inv(size, s)
    ensures DataFits(size, Next(s, Restart(head)))
  {
    var t := Next(s, Restart(head));
    forall h | h in t.blocks ensures Accounted(t.done, t.received, t.abandoned, h) {
      assert Accounted(s.done, s.received, s.abandoned, h);
      if s.received != [] && h in Last(s.received) {
        if InHand(s) {
          assert Last(s.received) in t.abandoned;
        } else {
          assert Within(s.received[|s.received| - 1], s.done);
        }
      }
    }
  }

  lemma DataStep(size: nat, s: State, step: Step)
    requires Inv(size, s) && Enabled(size, s, step)
    ensures DataFits(size, Next(s, step))
  {
    match step
    case Receive => ReceiveAccounts(size, s);
    case HandleOk => HandleAccounts(size, s);
    case StoreOk => StoreAccounts(size, s);
    case Restart(head) => RestartAccounts(size, s, head);
    case _ =>
      hide Accounts, HeightsFit, DeliveryFits;
  }

  lemma InvStep(size: nat, s: State, step: Step)
    requires Inv(size, s) && Enabled(size, s, step)
    ensures Inv(size, Next(s, step))
  {
    HeightsStep(size, s, step);
    DeliveryStep(size, s, step);
    ShutdownStep(size, s, step);
    DataStep(size, s, step);
  }

  lemma {:induction false} InvRun(size: nat, s: State, steps: seq<Step>)
    requires Inv(size, s) && Valid(size, s, steps)
    ensures Inv(size, Run(s, steps))
    decreases |steps|
  {
    if steps != [] {
      InvStep(size, s, steps[0]);
      InvRun(size, Next(s, steps[0]), steps[1..]);
    }
  }

  lemma InvInitial(size: nat, head: nat)
    ensures Inv(size, Initial(head))
  {
  }

  // ---------------------------------------------------------------------------------------------
  // The blocks table covers one interval, exactly when no insert follows a dropped batch
  // ---------------------------------------------------------------------------------------------

  /** An insert after a dropped batch, on top of stored blocks, leaves the dropped heights out for good. */
  predicate LeavesGap(s: State, step: Step) {
    step.StoreOk? && s.skipped && s.blocks != []
  }

  predicate Gapless(s: State, steps: seq<Step>)
    decreases |steps|
  {
    steps == [] || (!LeavesGap(s, steps[0]) && Gapless(Next(s, steps[0]), steps[1..]))
  }

  lemma ContiguousStep(size: nat, s: State, step: Step)
    requires HeightsFit(size, s) && Enabled(size, s, step)
    ensures Contiguous(Next(s, step).blocks) <==> Contiguous(s.blocks) && !LeavesGap(s, step)
  {
    if step.StoreOk? {
      var n, t := |s.blocks|, s.blocks + s.headers;
      assert forall i | 0 <= i < n :: t[i] == s.blocks[i];
      assert t[n] == s.headers[0] == s.last + 1 - |s.headers|;
      if Contiguous(t) && n > 0 {
        assert t[n] == t[n - 1] + 1;
      }
      if Contiguous(s.blocks) && !LeavesGap(s, step) {
        forall i | 0 < i < |t| ensures t[i] == t[i - 1] + 1 {
          if i > n {
            assert t[i] == s.headers[i - n] && t[i - 1] == s.headers[i - n - 1];
          }
        }
      }
    }
  }

  /** Over every run, with any failures, crashes and restarts: one interval, unless an insert followed a drop. */
  lemma {:induction false} ContiguousIff(size: nat, s: State, steps: seq<Step>)
    requires Inv(size, s) && Valid(size, s, steps)
    ensures Contiguous(Run(s, steps).blocks) <==> Contiguous(s.blocks) && Gapless(s, steps)
    decreases |steps|
  {
    if steps != [] {
      ContiguousStep(size, s, steps[0]);
      InvStep(size, s, steps[0]);
      ContiguousIff(size, Next(s, steps[0]), steps[1..]);
    }
  }

  predicate Propagates(steps: seq<Step>) {
    forall i | 0 <= i < |steps| :: !steps[i].ClassifyDrop?
  }

  lemma {:induction false} NoDropNoGap(s: State, steps: seq<Step>)
    requires !s.skipped && Propagates(steps)
    ensures Gapless(s, steps) && !Run(s, steps).skipped
    decreases |steps|
  {
    if steps != [] {
      assert !steps[0].ClassifyDrop?;
      forall i | 0 <= i < |steps[1..]| ensures !steps[1..][i].ClassifyDrop? {
        assert !steps[i + 1].ClassifyDrop?;
      }
      NoDropNoGap(Next(s, steps[0]), steps[1..]);
    }
  }

  /**
   * With lookup faults propagated: whatever else fails, crashes and restarts, the stored heights are one
   * interval without repeats, and the retained batch is exactly what lies between it and the cursor.
   */
  lemma NothingIsSkipped(size: nat, head: nat, steps: seq<Step>)
    requires Valid(size, Initial(head), steps) && Propagates(steps)
    ensures var s := Run(Initial(head), steps);
            && Contiguous(s.blocks)
            && s.headers == Heights(Top(s) + 1, s.last + 1)
  {
    hide Next, Enabled, Run, Valid, Gapless, DeliveryFits, DataFits, ShutdownFits;
    InvInitial(size, head);
    InvRun(size, Initial(head), steps);
    NoDropNoGap(Initial(head), steps);
    ContiguousIff(size, Initial(head), steps);
    assert HeightsFit(size, Run(Initial(head), steps));
  }

  /** An insert on top of stored blocks after a dropped batch leaves a gap, and no later run repairs it. */
  lemma DropThenStoreBreaks(size: nat, s: State, steps: seq<Step>)
    requires Inv(size, s) && s.skipped && s.blocks != [] && s.producer.Storing?
    requires Valid(size, Next(s, StoreOk), steps)
    ensures !Contiguous(Run(Next(s, StoreOk), steps).blocks)
  {
    InvStep(size, s, StoreOk);
    ContiguousStep(size, s, StoreOk);
    ContiguousIff(size, Next(s, StoreOk), steps);
  }

  /** From any resting scanner with stored blocks, a dropping tick and a storing tick lead to a gap. */
  lemma DropIsReachable(size: nat, s: State) returns (steps: seq<Step>)
    requires size >= 1 && Inv(size, s) && s.blocks != []
    requires s.producer.Idle? && s.consumer.Waiting? && s.closer.Running? && s.headers == []
    ensures Valid(size, s, steps)
    ensures !Contiguous(Run(s, steps).blocks)
  {
    assert !s.panicked;
    hide Run, Valid, Inv, Contiguous;
    var drop := DropAndBegin(size, s);
    var b := Run(s, drop);
    InvRun(size, s, drop);
    var store := BatchGoesThrough(size, b, StoreOk);
    RunAppend(size, s, drop, store);
    GapByStore(size, b, store);
    steps := drop + store;
  }

  /** Drop the next height, and fetch the one after it. */
  lemma DropAndBegin(size: nat, s: State) returns (steps: seq<Step>)
    requires size >= 1 && s.producer.Idle? && !s.panicked && s.headers == []
    ensures Valid(size, s, steps)
    ensures Run(s, steps) == s.(last := s.last + 2, headers := [s.last + 2], producer := Classifying, skipped := true)
  {
    var drop := DropOne(size, s);
    var a := Run(s, drop);
    var begin := BeginTick([a.last + 1]);
    assert [a.last + 1] == Heights(a.last + 1, a.last + 2);
    assert Enabled(size, a, begin);
    NoSteps(size, Next(a, begin));
    Chain(size, a, begin, []);
    assert [begin] + [] == [begin];
    hide Enabled, Valid, Run;
    RunAppend(size, s, drop, [begin]);
    steps := drop + [begin];
  }

  lemma DropOne(size: nat, s: State) returns (steps: seq<Step>)
    requires size >= 1 && s.producer.Idle? && !s.panicked && s.headers == []
    ensures steps == [BeginTick([s.last + 1]), ClassifyDrop]
    ensures Valid(size, s, steps)
    ensures Run(s, steps) == s.(last := s.last + 1, skipped := true)
  {
    var begin := BeginTick([s.last + 1]);
    assert [s.last + 1] == Heights(s.last + 1, s.last + 2);
    var a := s.(headers := [s.last + 1], last := s.last + 1, producer := Classifying);
    assert Enabled(size, s, begin) && Next(s, begin) == a;
    assert Enabled(size, a, ClassifyDrop) && Next(a, ClassifyDrop) == s.(last := s.last + 1, skipped := true);
    hide Enabled, Next;
    steps := TwoSteps(size, s, begin, ClassifyDrop, []);
  }

  lemma GapByStore(size: nat, b: State, store: seq<Step>)
    requires Inv(size, b) && b.skipped && b.blocks != [] && Valid(size, b, store)
    requires b.producer.Classifying? && b.consumer.Waiting? && ChannelOpen(b)
    requires store == [ClassifyOk, Receive, HandleOk, Resume, StoreOk]
    requires Run(b, store).blocks == b.blocks + b.headers
    ensures !Contiguous(Run(b, store).blocks)
  {
    var n, t := |b.blocks|, b.blocks + b.headers;
    assert t[n] == b.headers[0] == b.last + 1 - |b.headers|;
    assert t[n - 1] == Last(b.blocks);
  }

  /** A classified batch goes through: taken, handled, and stored or not. */
  lemma BatchGoesThrough(size: nat, s: State, store: Step) returns (steps: seq<Step>)
    requires s.producer.Classifying? && s.consumer.Waiting? && ChannelOpen(s) && !s.panicked
    requires store == StoreOk || store == StoreFail
    ensures steps == [ClassifyOk, Receive, HandleOk, Resume, store]
    ensures Valid(size, s, steps)
    ensures Run(s, steps)
            == Next(s.(producer := Storing, done := s.done + Members(s.headers),
                       sent := s.sent + [s.headers], received := s.received + [s.headers]), store)
  {
    var a := s.(producer := Offering);
    var b := s.(producer := Taken, consumer := Handling, received := s.received + [s.headers]);
    var c := b.(consumer := Waiting, done := s.done + Members(s.headers));
    var d := c.(producer := Storing, sent := s.sent + [s.headers]);
    assert Enabled(size, s, ClassifyOk) && Next(s, ClassifyOk) == a;
    assert Enabled(size, a, Receive) && Next(a, Receive) == b;
    assert Enabled(size, b, HandleOk) && Next(b, HandleOk) == c;
    assert Enabled(size, c, Resume) && Next(c, Resume) == d;
    assert Enabled(size, d, store);
    hide Next, Enabled;
    Chain(size, d, store, []);
    steps := TwoSteps(size, b, HandleOk, Resume, [store]);
    steps := TwoSteps(size, s, ClassifyOk, Receive, steps);
  }

  lemma TwoSteps(size: nat, s: State, first: Step, second: Step, rest: seq<Step>) returns (steps: seq<Step>)
    ensures steps == [first] + ([second] + rest)
    ensures Valid(size, s, steps) == (Enabled(size, s, first) && Enabled(size, Next(s, first), second)
                                      && Valid(size, Next(Next(s, first), second), rest))
    ensures Run(s, steps) == Run(Next(Next(s, first), second), rest)
  {
    hide Next, Enabled;
    steps := [first] + ([second] + rest);
    Chain(size, s, first, [second] + rest);
    Chain(size, Next(s, first), second, rest);
  }

  lemma NoSteps(size: nat, s: State)
    ensures Valid(size, s, []) && Run(s, []) == s
  {
  }

  /** Run and Valid, one step at a time from the front. */
  lemma Chain(size: nat, s: State, step: Step, rest: seq<Step>)
    ensures Valid(size, s, [step] + rest) == (Enabled(size, s, step) && Valid(size, Next(s, step), rest))
    ensures Run(s, [step] + rest) == Run(Next(s, step), rest)
  {
    assert ([step] + rest)[0] == step && ([step] + rest)[1..] == rest;
  }

  lemma {:induction false} RunAppend(size: nat, s: State, a: seq<Step>, b: seq<Step>)
    ensures Run(s, a + b) == Run(Run(s, a), b)
    ensures Valid(size, s, a + b) == (Valid(size, s, a) && Valid(size, Run(s, a), b))
    decreases |a|
  {
    hide Next, Enabled;
    if a == [] {
      assert a + b == b;
    } else {
      RunAppend(size, Next(s, a[0]), a[1..], b);
      assert a + b == [a[0]] + (a[1..] + b);
      Chain(size, s, a[0], a[1..] + b);
    }
  }

  // ---------------------------------------------------------------------------------------------
  // The blocks table against the persisted business data
  // ---------------------------------------------------------------------------------------------

  predicate OneProcess(steps: seq<Step>) {
    forall i | 0 <= i < |steps| :: !steps[i].Restart?
  }

  lemma {:induction false} OneProcessAbandonsNothing(s: State, steps: seq<Step>)
    requires OneProcess(steps)
    ensures Run(s, steps).abandoned == s.abandoned && Run(s, steps).restarts == s.restarts
    decreases |steps|
  {
    if steps != [] {
      assert !steps[0].Restart?;
      forall i | 0 <= i < |steps[1..]| ensures !steps[1..][i].Restart? {
        assert !steps[i + 1].Restart?;
      }
      OneProcessAbandonsNothing(Next(s, steps[0]), steps[1..]);
    }
  }

  lemma LastIsHandled(size: nat, s: State)
    requires Inv(size, s)
    ensures s.received != [] ==> |Last(s.received)| <= size
    ensures s.received != [] && !InHand(s) ==> Within(Last(s.received), s.done)
  {
    if s.received != [] {
      assert Last(s.received) == s.received[|s.received| - 1];
      assert Last(s.received) in s.received;
    }
  }

  /** Within one process, a stored height outside the batch in the consumer's hands is completely handled. */
  lemma StoredIsHandled(size: nat, head: nat, steps: seq<Step>, h: nat)
    requires Valid(size, Initial(head), steps) && OneProcess(steps)
    requires h in Run(Initial(head), steps).blocks
    ensures var s := Run(Initial(head), steps);
            h in s.done || (InHand(s) && s.received != [] && h in Last(s.received) && |Last(s.received)| <= size)
  {
    var s := Run(Initial(head), steps);
    InvInitial(size, head);
    InvRun(size, Initial(head), steps);
    OneProcessAbandonsNothing(Initial(head), steps);
    LastIsHandled(size, s);
    assert Accounted(s.done, s.received, s.abandoned, h);
  }

  /** Across processes, what is stored but not handled lies in at most one batch per restart, and the one in hand. */
  lemma LossIsOneBatchPerRestart(size: nat, head: nat, steps: seq<Step>, h: nat)
    requires Valid(size, Initial(head), steps)
    requires var s := Run(Initial(head), steps); h in s.blocks && h !in s.done
    ensures var s := Run(Initial(head), steps);
            && |s.abandoned| <= s.restarts
            && (forall b | b in s.abandoned :: |b| <= size)
            && ((exists b | b in s.abandoned :: h in b) || (InHand(s) && s.received != [] && h in Last(s.received)))
  {
    var s := Run(Initial(head), steps);
    InvInitial(size, head);
    InvRun(size, Initial(head), steps);
    LastIsHandled(size, s);
    assert Accounted(s.done, s.received, s.abandoned, h);
  }
}
