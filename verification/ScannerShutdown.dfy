/** The shutdown of the scanner: what Close keeps, when it can return, and when it can hang. */
module ScannerShutdown {
  import opened Prelude
  import opened Scanner

  /**
   * No run sends on a closed channel; after the close the loop is gone and every completed send was received, in
   * order.
   */
  lemma CloseIsOrderly(size: nat, head: nat, steps: seq<Step>)
    requires Valid(size, Initial(head), steps)
    ensures var s := Run(Initial(head), steps);
            && !s.panicked && !Enabled(size, s, SendOnClosed)
            && (!ChannelOpen(s) ==> s.producer.Exited? && s.received == s.sent)
            && InOrder(s.received)
            && (s.consumer.Finished? ==> forall b | b in s.sent :: Within(b, s.done))
            && (s.closer.Done? && !s.consumer.Finished? ==>
                  s.consumer.Failed? && s.sent != [] && forall i | 0 <= i < |s.sent| - 1 :: Within(s.sent[i], s.done))
  {
    hide Inv, Run, Valid, Enabled, InOrder, Within, ChannelOpen;
    InvInitial(size, head);
    InvRun(size, Initial(head), steps);
    OrderlyState(size, Run(Initial(head), steps));
  }

  lemma OrderlyState(size: nat, s: State)
    requires Inv(size, s)
    ensures !s.panicked && !Enabled(size, s, SendOnClosed) && InOrder(s.received)
    ensures !ChannelOpen(s) ==> s.producer.Exited? && s.received == s.sent
    ensures s.consumer.Finished? ==> forall b | b in s.sent :: Within(b, s.done)
    ensures s.closer.Done? && !s.consumer.Finished? ==>
              s.consumer.Failed? && s.sent != [] && forall i | 0 <= i < |s.sent| - 1 :: Within(s.sent[i], s.done)
  {
    hide HeightsFit, InOrder;
    assert ShutdownFits(s) && DeliveryFits(s) && DataFits(size, s);
    if s.consumer.Finished? {
      forall b | b in s.sent ensures Within(b, s.done) {
        var i :| 0 <= i < |s.sent| && s.sent[i] == b;
        assert Within(s.received[i], s.done);
      }
    }
  }

  /** The consumer is dead while the loop offers a batch: nobody will ever take it. */
  predicate Stuck(s: State) {
    s.consumer.Failed? && s.producer.Offering?
  }

  lemma {:induction false} StuckForever(size: nat, s: State, steps: seq<Step>)
    requires Inv(size, s) && Stuck(s) && Valid(size, s, steps) && OneProcess(steps)
    ensures Stuck(Run(s, steps)) && !Run(s, steps).closer.Done?
    decreases |steps|
  {
    if steps != [] {
      var t := Next(s, steps[0]);
      InvStep(size, s, steps[0]);
      assert !steps[0].Restart?;
      assert Stuck(t) by { assert ChannelOpen(s); }
      forall i | 0 <= i < |steps[1..]| ensures !steps[1..][i].Restart? {
        assert !steps[i + 1].Restart?;
      }
      StuckForever(size, t, steps[1..]);
    }
  }

  /** A step towards a finished shutdown. */
  function TowardsDone(s: State): Step {
    match s.closer
    case Running => Cancel
    case Cancelled =>
      (match s.producer
       case Idle => LoopExit
       case Classifying => ClassifyFail
       case Offering => if s.consumer.Handling? then HandleOk else Receive
       case Taken => Resume
       case Storing => StoreFail
       case Exited => CloseChannel)
    case Closed => Release
    case Released => if s.consumer.Handling? then HandleOk else if s.consumer.Waiting? then Drain else Join
    case Done => Join
  }

  function Distance(s: State): nat {
    (match s.closer case Running => 400 case Cancelled => 300 case Closed => 200 case Released => 100 case Done => 0)
    + (match s.producer case Offering => 50 case Taken => 40 case Storing => 30
        case Classifying => 20 case Idle => 10 case Exited => 0)
    + (match s.consumer case Handling => 2 case Waiting => 1 case _ => 0)
  }

  lemma TowardsDoneWorks(size: nat, s: State)
    requires Inv(size, s) && !Stuck(s) && !s.closer.Done?
    ensures var step := TowardsDone(s);
            && Enabled(size, s, step) && !step.Restart?
            && !Stuck(Next(s, step))
            && Distance(Next(s, step)) < Distance(s)
  {
    hide DeliveryFits, DataFits, HeightsFit;
  }

  lemma {:induction false} FinishFrom(size: nat, s: State) returns (steps: seq<Step>)
    requires Inv(size, s) && !Stuck(s)
    ensures Valid(size, s, steps) && OneProcess(steps) && Run(s, steps).closer.Done?
    decreases Distance(s)
  {
    hide Inv, Enabled, Next, TowardsDone, Distance, Stuck, Run, Valid;
    if s.closer.Done? {
      NoSteps(size, s);
      steps := [];
    } else {
      var step := TowardsDone(s);
      TowardsDoneWorks(size, s);
      InvStep(size, s, step);
      var rest := FinishFrom(size, Next(s, step));
      Chain(size, s, step, rest);
      steps := [step] + rest;
    }
  }

  ghost predicate CanFinish(size: nat, s: State) {
    exists steps :: Valid(size, s, steps) && OneProcess(steps) && Run(s, steps).closer.Done?
  }

  /** Some schedule lets Close return exactly when the loop is not already waiting for a consumer that has given up. */
  lemma CanFinishIff(size: nat, s: State)
    requires Inv(size, s)
    ensures CanFinish(size, s) <==> !Stuck(s)
  {
    if Stuck(s) {
      forall steps | Valid(size, s, steps) && OneProcess(steps) ensures !Run(s, steps).closer.Done? {
        StuckForever(size, s, steps);
      }
    } else {
      var steps := FinishFrom(size, s);
    }
  }

  // ---------------------------------------------------------------------------------------------
  // When Close can hang
  // ---------------------------------------------------------------------------------------------

  ghost predicate CanHang(size: nat, s: State) {
    exists steps :: Valid(size, s, steps) && OneProcess(steps) && Stuck(Run(s, steps))
  }

  /** A step towards an offer that nobody takes. */
  function TowardsStuck(s: State): Step {
    if s.consumer.Handling? then HandleFail
    else
      match s.producer
      case Idle => BeginTick(if s.headers == [] then [s.last + 1] else [])
      case Classifying => ClassifyOk
      case Offering => Receive
      case Taken => Resume
      case Storing => StoreFail
      case Exited => LoopExit
  }

  function FromStuck(s: State): nat {
    (match s.consumer case Waiting => 20 case Handling => 10 case _ => 0)
    + (match s.producer case Offering => 0 case Classifying => 1 case Idle => 2
        case Storing => 3 case Taken => 4 case Exited => 5)
  }

  lemma TowardsStuckWorks(size: nat, s: State)
    requires size >= 1 && Inv(size, s) && !s.producer.Exited? && !Stuck(s)
    ensures var step := TowardsStuck(s);
            && Enabled(size, s, step) && !step.Restart?
            && !Next(s, step).producer.Exited?
            && FromStuck(Next(s, step)) < FromStuck(s)
  {
    hide DeliveryFits, DataFits;
    if s.headers == [] {
      assert [s.last + 1] == Heights(s.last + 1, s.last + 2);
    } else {
      assert Heights(s.last + 1, s.last + 1) == [];
    }
  }

  lemma {:induction false} HangFrom(size: nat, s: State) returns (steps: seq<Step>)
    requires size >= 1 && Inv(size, s) && !s.producer.Exited?
    ensures Valid(size, s, steps) && OneProcess(steps) && Stuck(Run(s, steps))
    decreases FromStuck(s)
  {
    hide Inv, Enabled, Next, TowardsStuck, FromStuck, Stuck, Run, Valid;
    if Stuck(s) {
      NoSteps(size, s);
      steps := [];
    } else {
      var step := TowardsStuck(s);
      TowardsStuckWorks(size, s);
      InvStep(size, s, step);
      var rest := HangFrom(size, Next(s, step));
      Chain(size, s, step, rest);
      steps := [step] + rest;
    }
  }

  lemma {:induction false} ExitedStays(size: nat, s: State, steps: seq<Step>)
    requires s.producer.Exited? && Valid(size, s, steps) && OneProcess(steps)
    ensures Run(s, steps).producer.Exited?
    decreases |steps|
  {
    if steps != [] {
      assert !steps[0].Restart?;
      OneProcessTail(steps);
      ExitedStays(size, Next(s, steps[0]), steps[1..]);
    }
  }

  lemma OneProcessTail(steps: seq<Step>)
    requires steps != [] && OneProcess(steps)
    ensures !steps[0].Restart? && OneProcess(steps[1..])
  {
    forall i | 0 <= i < |steps[1..]| ensures !steps[1..][i].Restart? {
      assert !steps[i + 1].Restart?;
    }
  }

  /** Close can hang exactly as long as the loop has not exited, whatever the consumer and the closer have done. */
  lemma CanHangIff(size: nat, s: State)
    requires size >= 1 && Inv(size, s)
    ensures CanHang(size, s) <==> !s.producer.Exited?
  {
    if s.producer.Exited? {
      forall steps | Valid(size, s, steps) && OneProcess(steps) ensures !Stuck(Run(s, steps)) {
        ExitedStays(size, s, steps);
      }
    } else {
      var steps := HangFrom(size, s);
    }
  }

  /** After the loop has exited every step leads closer to the end, so that no schedule keeps Close from returning. */
  lemma ExitedStepFinishes(size: nat, s: State, step: Step)
    requires Inv(size, s) && s.producer.Exited? && Enabled(size, s, step) && !step.Restart?
    ensures Distance(Next(s, step)) < Distance(s) && Next(s, step).producer.Exited?
  {
    hide DeliveryFits, DataFits, HeightsFit;
  }

  /** From there every run is short, and a run that cannot go on has finished. */
  lemma {:induction false} CloseMustReturn(size: nat, s: State, steps: seq<Step>)
    requires Inv(size, s) && s.producer.Exited? && Valid(size, s, steps) && OneProcess(steps)
    ensures |steps| <= Distance(s)
    ensures var t := Run(s, steps);
            t.closer.Done? || exists step: Step :: !step.Restart? && Enabled(size, t, step)
    decreases |steps|
  {
    hide Inv, Enabled, Next, Distance;
    if steps == [] {
      if !s.closer.Done? {
        TowardsDoneWorks(size, s);
      }
    } else {
      OneProcessTail(steps);
      InvStep(size, s, steps[0]);
      ExitedStepFinishes(size, s, steps[0]);
      CloseMustReturn(size, Next(s, steps[0]), steps[1..]);
    }
  }

  /** The consumer gives up only after the loop has exited. */
  predicate FailsLate(s: State, steps: seq<Step>)
    decreases |steps|
  {
    steps == [] || ((steps[0].HandleFail? ==> s.producer.Exited?) && FailsLate(Next(s, steps[0]), steps[1..]))
  }

  predicate DeadOnlyAfterLoop(s: State) {
    s.consumer.Failed? ==> s.producer.Exited?
  }

  /** A run in which the consumer never gives up before the loop exits reaches no hang. */
  lemma {:induction false} NoEarlyFailureNoHang(size: nat, s: State, steps: seq<Step>)
    requires DeadOnlyAfterLoop(s) && Valid(size, s, steps) && FailsLate(s, steps)
    ensures DeadOnlyAfterLoop(Run(s, steps)) && !Stuck(Run(s, steps))
    decreases |steps|
  {
    if steps != [] {
      NoEarlyFailureNoHang(size, Next(s, steps[0]), steps[1..]);
    }
  }

  // ---------------------------------------------------------------------------------------------
  // Close with a batch in hand
  // ---------------------------------------------------------------------------------------------

  /** How the loop ends its tick and exits, when it need not wait for the consumer. */
  function WindDown(producer: Producer): seq<Step> {
    match producer
    case Classifying => [ClassifyFail, LoopExit]
    case Taken => [Resume, StoreFail, LoopExit]
    case Storing => [StoreFail, LoopExit]
    case _ => [LoopExit]
  }

  /** The loop has exited; a send that was under way has returned. */
  function WoundDown(s: State): State {
    s.(producer := Exited, sent := if s.producer.Taken? then s.sent + [s.headers] else s.sent)
  }

  /** The loop at rest again, about to exit. */
  function Rested(s: State): State {
    WoundDown(s).(producer := Idle)
  }

  lemma WindDownSteps(size: nat, s: State)
    requires s.closer.Cancelled? && !s.panicked
    ensures Enabled(size, Rested(s), LoopExit) && Next(Rested(s), LoopExit) == WoundDown(s)
    ensures s.producer.Idle? ==> Rested(s) == s
    ensures s.producer.Classifying? ==> Enabled(size, s, ClassifyFail) && Next(s, ClassifyFail) == Rested(s)
    ensures s.producer.Storing? ==> Enabled(size, s, StoreFail) && Next(s, StoreFail) == Rested(s)
    ensures s.producer.Taken? ==>
              && Enabled(size, s, Resume) && Enabled(size, Next(s, Resume), StoreFail)
              && Next(Next(s, Resume), StoreFail) == Rested(s)
  {
  }

  lemma WindsDown(size: nat, s: State, rest: seq<Step>) returns (steps: seq<Step>)
    requires s.closer.Cancelled? && !s.panicked && !s.producer.Offering? && !s.producer.Exited?
    ensures steps == WindDown(s.producer) + rest
    ensures Valid(size, s, steps) == Valid(size, WoundDown(s), rest) && Run(s, steps) == Run(WoundDown(s), rest)
  {
    hide Enabled, Next, Run, Valid, Rested, WoundDown;
    WindDownSteps(size, s);
    Chain(size, Rested(s), LoopExit, rest);
    steps := [LoopExit] + rest;
    match s.producer {
      case Classifying =>
        Chain(size, s, ClassifyFail, steps);
        steps := [ClassifyFail] + steps;
      case Storing =>
        Chain(size, s, StoreFail, steps);
        steps := [StoreFail] + steps;
      case Taken =>
        steps := TwoSteps(size, s, Resume, StoreFail, steps);
      case _ =>
    }
  }

  lemma CloseSteps(size: nat, s: State)
    requires s.closer.Running? && !s.panicked
    ensures var a, b := s.(closer := Cancelled), WoundDown(s).(closer := Cancelled);
            && Enabled(size, s, Cancel) && Next(s, Cancel) == a && WoundDown(a) == b
            && Enabled(size, b, CloseChannel) && Enabled(size, Next(b, CloseChannel), Release)
            && Next(Next(b, CloseChannel), Release) == WoundDown(s).(closer := Released)
  {
  }

  /** Close, up to the point where the consumer is awaited. */
  lemma ReleasedWithBatch(size: nat, s: State, rest: seq<Step>) returns (steps: seq<Step>)
    requires s.consumer.Handling? && s.closer.Running? && !s.panicked
    requires !s.producer.Offering? && !s.producer.Exited?
    ensures steps == [Cancel] + WindDown(s.producer) + [CloseChannel, Release] + rest
    ensures var t := WoundDown(s).(closer := Released);
            Valid(size, s, steps) == Valid(size, t, rest) && Run(s, steps) == Run(t, rest)
  {
    hide Next, Enabled, Run, Valid, WoundDown, WindDown;
    CloseSteps(size, s);
    var a, b := s.(closer := Cancelled), WoundDown(s).(closer := Cancelled);
    var tail := TwoSteps(size, b, CloseChannel, Release, rest);
    var middle := WindsDown(size, a, tail);
    Chain(size, s, Cancel, middle);
    steps := [Cancel] + middle;
    assert [CloseChannel] + ([Release] + rest) == [CloseChannel, Release] + rest;
  }

  /** A shutdown in which the handler fails after the resources are cancelled: the batch in hand is abandoned. */
  lemma OrderlyCloseCanLoseTheBatch(size: nat, s: State) returns (steps: seq<Step>)
    requires s.consumer.Handling? && s.closer.Running? && !s.panicked
    requires !s.producer.Offering? && !s.producer.Exited?
    ensures Valid(size, s, steps)
    ensures steps == [Cancel] + WindDown(s.producer) + [CloseChannel, Release] + [HandleFail, Join]
    ensures Run(s, steps) == WoundDown(s).(consumer := Failed, closer := Done)
  {
    var b := WoundDown(s).(closer := Released);
    assert Enabled(size, b, HandleFail) && Enabled(size, Next(b, HandleFail), Join);
    assert Next(Next(b, HandleFail), Join) == WoundDown(s).(consumer := Failed, closer := Done);
    hide Next, Enabled, Run, Valid, WoundDown;
    var tail := TwoSteps(size, b, HandleFail, Join, []);
    assert tail == [HandleFail, Join];
    NoSteps(size, Next(Next(b, HandleFail), Join));
    steps := ReleasedWithBatch(size, s, tail);
  }

  /** A shutdown in which the handler still succeeds: the consumer drains the closed channel and finishes. */
  lemma OrderlyCloseKeepsTheBatch(size: nat, s: State) returns (steps: seq<Step>)
    requires s.consumer.Handling? && s.closer.Running? && !s.panicked && s.received != []
    requires !s.producer.Offering? && !s.producer.Exited?
    ensures Valid(size, s, steps)
    ensures steps == [Cancel] + WindDown(s.producer) + [CloseChannel, Release] + [HandleOk, Drain, Join]
    ensures Run(s, steps)
            == WoundDown(s).(consumer := Finished, closer := Done, done := s.done + Members(Last(s.received)))
  {
    var b := WoundDown(s).(closer := Released);
    var done := s.done + Members(Last(s.received));
    var c := b.(consumer := Finished, done := done);
    hide Members;
    assert Enabled(size, b, HandleOk) && Enabled(size, Next(b, HandleOk), Drain) && Next(Next(b, HandleOk), Drain) == c;
    assert Enabled(size, c, Join) && Next(c, Join) == c.(closer := Done);
    hide Next, Enabled, Run, Valid, WoundDown;
    NoSteps(size, Next(c, Join));
    Chain(size, c, Join, []);
    assert [Join] + [] == [Join];
    var tail := TwoSteps(size, b, HandleOk, Drain, [Join]);
    assert tail == [HandleOk, Drain, Join];
    steps := ReleasedWithBatch(size, s, tail);
  }

  /** While the batch in hand is the last one received and the loop offers the next, nothing else can have happened. */
  predicate StillOffers(s: State, t: State) {
    && s.received <= t.received
    && (|t.received| == |s.received| ==> t.producer.Offering?)
  }

  lemma {:induction false} OfferWaits(size: nat, s: State, t: State, steps: seq<Step>)
    requires StillOffers(s, t) && Inv(size, t) && Valid(size, t, steps) && OneProcess(steps)
    ensures StillOffers(s, Run(t, steps)) && Inv(size, Run(t, steps))
    decreases |steps|
  {
    if steps != [] {
      OneProcessTail(steps);
      InvStep(size, t, steps[0]);
      assert StillOffers(s, Next(t, steps[0])) by {
        hide HeightsFit, DeliveryFits, DataFits;
        assert !Enabled(size, t, SendOnClosed);
      }
      OfferWaits(size, s, Next(t, steps[0]), steps[1..]);
    }
  }

  /**
   * When the loop offers the next batch, it cannot exit before the consumer has taken it: whenever Close gets as far as
   * closing the channel, the batch that was in hand has been handled.
   */
  lemma OfferedCloseHandles(size: nat, s: State, steps: seq<Step>)
    requires Inv(size, s) && s.producer.Offering? && s.consumer.Handling?
    requires Valid(size, s, steps) && OneProcess(steps) && !ChannelOpen(Run(s, steps))
    ensures s.received != [] && Within(Last(s.received), Run(s, steps).done)
  {
    OfferWaits(size, s, s, steps);
    hide Run, Valid;
    var t := Run(s, steps);
    var i := |s.received| - 1;
    assert t.producer.Exited? && i < |t.received| - 1;
    assert Within(t.received[i], t.done);
    assert t.received[i] == s.received[i];
  }
}
