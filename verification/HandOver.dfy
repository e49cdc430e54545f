/**
 * How often a height reaches the consumer.  The scanner's set of handled heights forgets repetitions; the counts here
 * do not, and they are exact for every run.
 */
module HandOver {
  import opened Prelude
  import opened Scanner

  /** The height is in the hands of the sender: taken by the consumer, not inserted yet. */
  predicate Pending(s: State, h: nat) {
    (s.producer.Taken? || s.producer.Storing?) && h in s.headers
  }

  /** The height is in the batch that the consumer works on. */
  predicate InWork(s: State, h: nat) {
    s.consumer.Handling? && s.received != [] && h in Last(s.received)
  }

  function One(b: bool): nat {
    if b then 1 else 0
  }

  /** Counts the steps of a run at which something happens to a height. */
  function HandedOver(s: State, steps: seq<Step>, h: nat): nat
    decreases |steps|
  {
    if steps == [] then 0
    else One(steps[0].Receive? && h in s.headers) + HandedOver(Next(s, steps[0]), steps[1..], h)
  }

  /** The insert fails, or the process ends, between the hand-over and the insert. */
  function Interrupted(s: State, steps: seq<Step>, h: nat): nat
    decreases |steps|
  {
    if steps == [] then 0
    else One((steps[0].StoreFail? || steps[0].Restart?) && Pending(s, h))
         + Interrupted(Next(s, steps[0]), steps[1..], h)
  }

  /** handleBatch succeeds on a batch with the height. */
  function Handled(s: State, steps: seq<Step>, h: nat): nat
    decreases |steps|
  {
    if steps == [] then 0
    else One(steps[0].HandleOk? && InWork(s, h)) + Handled(Next(s, steps[0]), steps[1..], h)
  }

  /** handleBatch fails on a batch with the height, or the process ends while it works on it. */
  function Spoiled(s: State, steps: seq<Step>, h: nat): nat
    decreases |steps|
  {
    if steps == [] then 0
    else One((steps[0].HandleFail? || steps[0].Restart?) && InWork(s, h)) + Spoiled(Next(s, steps[0]), steps[1..], h)
  }

  /** One step: a hand-over is pending until it is inserted or interrupted. */
  lemma PendingStep(size: nat, s: State, step: Step, h: nat)
    requires Inv(size, s) && Enabled(size, s, step)
    ensures var t := Next(s, step);
            One(step.Receive? && h in s.headers) + One(Pending(s, h)) + One(h in s.blocks)
            == One(Pending(t, h)) + One(h in t.blocks) + One((step.StoreFail? || step.Restart?) && Pending(s, h))
  {
    hide DeliveryFits, DataFits, ShutdownFits;
    if step.StoreOk? && h in s.headers {
      NewAreNotStored(size, s, h);
    }
  }

  lemma NewAreNotStored(size: nat, s: State, h: nat)
    requires HeightsFit(size, s) && h in s.headers
    ensures h !in s.blocks
  {
    forall i | 0 <= i < |s.blocks| ensures s.blocks[i] <= Top(s) {
      assert i < |s.blocks| - 1 ==> s.blocks[i] < s.blocks[|s.blocks| - 1];
    }
    var j :| 0 <= j < |s.headers| && s.headers[j] == h;
    assert h > Top(s);
  }

  /** One step: a batch is in work until it is handled or spoiled. */
  lemma WorkStep(size: nat, s: State, step: Step, h: nat)
    requires Inv(size, s) && Enabled(size, s, step)
    ensures var t := Next(s, step);
            One(step.Receive? && h in s.headers) + One(InWork(s, h))
            == One(InWork(t, h)) + One(step.HandleOk? && InWork(s, h))
               + One((step.HandleFail? || step.Restart?) && InWork(s, h))
  {
    hide DeliveryFits, DataFits, HeightsFit;
  }

  /** Over every run, with any failures, crashes and restarts: hand-overs are inserts plus interruptions. */
  lemma {:induction false} HandOversAreInserts(size: nat, s: State, steps: seq<Step>, h: nat)
    requires Inv(size, s) && Valid(size, s, steps)
    ensures var t := Run(s, steps);
            HandedOver(s, steps, h) + One(Pending(s, h)) + One(h in s.blocks)
            == One(Pending(t, h)) + One(h in t.blocks) + Interrupted(s, steps, h)
    decreases |steps|
  {
    if steps != [] {
      hide Inv, Enabled, Pending, One;
      var next := Next(s, steps[0]);
      InvStep(size, s, steps[0]);
      PendingStep(size, s, steps[0], h);
      hide Next;
      HandOversAreInserts(size, next, steps[1..], h);
    }
  }

  /** And hand-overs are successful handlings plus spoiled ones. */
  lemma {:induction false} HandOversAreHandled(size: nat, s: State, steps: seq<Step>, h: nat)
    requires Inv(size, s) && Valid(size, s, steps)
    ensures HandedOver(s, steps, h) + One(InWork(s, h))
            == One(InWork(Run(s, steps), h)) + Handled(s, steps, h) + Spoiled(s, steps, h)
    decreases |steps|
  {
    if steps != [] {
      hide Inv, Enabled, InWork, One;
      var next := Next(s, steps[0]);
      InvStep(size, s, steps[0]);
      WorkStep(size, s, steps[0], h);
      hide Next;
      HandOversAreHandled(size, next, steps[1..], h);
    }
  }

  /**
   * A stored height was handed over once more than its insert was interrupted.  So it was handed over exactly once
   * when no insert failed and no process ended between a hand-over of it and the insert, and handled exactly once when
   * the interruptions are as many as the handlings that came to nothing.
   */
  lemma StoredHeightIsHandled(size: nat, head: nat, steps: seq<Step>, h: nat)
    requires Valid(size, Initial(head), steps) && h in Run(Initial(head), steps).blocks
    ensures var s0, s := Initial(head), Run(Initial(head), steps);
            && HandedOver(s0, steps, h) == 1 + Interrupted(s0, steps, h)
            && (HandedOver(s0, steps, h) == 1 <==> Interrupted(s0, steps, h) == 0)
            && (Handled(s0, steps, h) == 1
                <==> Interrupted(s0, steps, h) == Spoiled(s0, steps, h) + One(InWork(s, h)))
            && (!InWork(s, h) && Spoiled(s0, steps, h) == 0 ==>
                  (Handled(s0, steps, h) == 1 <==> Interrupted(s0, steps, h) == 0))
  {
    var s0, s := Initial(head), Run(Initial(head), steps);
    InvInitial(size, head);
    InvRun(size, s0, steps);
    HandOversAreInserts(size, s0, steps, h);
    HandOversAreHandled(size, s0, steps, h);
    hide Run, Valid, HandedOver, Interrupted, Handled, Spoiled;
    if Pending(s, h) {
      NewAreNotStored(size, s, h);
    }
  }

  // ---------------------------------------------------------------------------------------------
  // A run that hands a stored height over twice
  // ---------------------------------------------------------------------------------------------

  lemma {:induction false} CountsAppend(s: State, a: seq<Step>, b: seq<Step>, h: nat)
    ensures HandedOver(s, a + b, h) == HandedOver(s, a, h) + HandedOver(Run(s, a), b, h)
    ensures Handled(s, a + b, h) == Handled(s, a, h) + Handled(Run(s, a), b, h)
    decreases |a|
  {
    hide Next, One, InWork;
    if a == [] {
      assert a + b == b;
    } else {
      assert (a + b)[0] == a[0] && (a + b)[1..] == a[1..] + b;
      CountsAppend(Next(s, a[0]), a[1..], b, h);
    }
  }

  lemma CountsChain(s: State, step: Step, rest: seq<Step>, h: nat)
    ensures HandedOver(s, [step] + rest, h)
            == One(step.Receive? && h in s.headers) + HandedOver(Next(s, step), rest, h)
    ensures Handled(s, [step] + rest, h) == One(step.HandleOk? && InWork(s, h)) + Handled(Next(s, step), rest, h)
  {
    assert ([step] + rest)[0] == step && ([step] + rest)[1..] == rest;
  }

  /** A batch that goes through is handed over and handled once, stored or not. */
  lemma GoingThroughCounts(s: State, store: Step, h: nat)
    requires s.producer.Classifying? && s.consumer.Waiting? && h in s.headers
    ensures var steps := [ClassifyOk, Receive, HandleOk, Resume, store];
            HandedOver(s, steps, h) >= 1 && Handled(s, steps, h) >= 1
  {
    var a := Next(s, ClassifyOk);
    var b := Next(a, Receive);
    assert InWork(b, h);
    hide Next;
    CountsChain(s, ClassifyOk, [Receive, HandleOk, Resume, store], h);
    CountsChain(a, Receive, [HandleOk, Resume, store], h);
    CountsChain(b, HandleOk, [Resume, store], h);
    assert [ClassifyOk] + [Receive, HandleOk, Resume, store] == [ClassifyOk, Receive, HandleOk, Resume, store];
    assert [Receive] + [HandleOk, Resume, store] == [Receive, HandleOk, Resume, store];
    assert [HandleOk] + [Resume, store] == [HandleOk, Resume, store];
  }

  lemma FetchAndGo(size: nat, s: State, begin: Step, store: Step, h: nat) returns (steps: seq<Step>)
    requires begin.BeginTick? && Enabled(size, s, begin) && Next(s, begin).producer.Classifying?
    requires s.consumer.Waiting? && ChannelOpen(s) && (store == StoreOk || store == StoreFail)
    requires h in Next(s, begin).headers
    ensures Valid(size, s, steps) && HandedOver(s, steps, h) >= 1 && Handled(s, steps, h) >= 1
    ensures var mid := Next(s, begin);
            Run(s, steps) == Next(mid.(producer := Storing, done := mid.done + Members(mid.headers),
                                       sent := mid.sent + [mid.headers], received := mid.received + [mid.headers]),
                                  store)
  {
    var mid := Next(s, begin);
    assert mid.consumer.Waiting? && ChannelOpen(mid) && !mid.panicked;
    var rest := BatchGoesThrough(size, mid, store);
    GoingThroughCounts(mid, store, h);
    hide Enabled, Next, Run, Valid, HandedOver, Handled;
    Chain(size, s, begin, rest);
    CountsChain(s, begin, rest, h);
    steps := [begin] + rest;
  }

  lemma FirstAttempt() returns (steps: seq<Step>)
    ensures Valid(2, Initial(0), steps)
    ensures var s := Run(Initial(0), steps);
            && s.blocks == [] && s.producer.Idle? && s.consumer.Waiting?
            && HandedOver(Initial(0), steps, 1) >= 1 && Handled(Initial(0), steps, 1) >= 1
  {
    assert [1, 2] == Heights(1, 3);
    var begin := BeginTick([1, 2]);
    assert Enabled(2, Initial(0), begin) && 1 in Next(Initial(0), begin).headers;
    steps := FetchAndGo(2, Initial(0), begin, StoreFail, 1);
    hide Run, Valid, HandedOver, Handled, Enabled;
  }

  lemma SecondAttempt(s: State) returns (steps: seq<Step>)
    requires s.blocks == []
    ensures Valid(2, s, [Restart(0)] + steps)
    ensures var t := Run(s, [Restart(0)] + steps);
            && t.blocks == [1] && t.received == [[1]]
            && HandedOver(s, [Restart(0)] + steps, 1) >= 1 && Handled(s, [Restart(0)] + steps, 1) >= 1
  {
    assert [1] == Heights(1, 2);
    var r, begin := Next(s, Restart(0)), BeginTick([1]);
    assert r.blocks == [] && r.received == [] && r.last == 0 && r.headers == [] && !r.panicked;
    assert Enabled(2, r, begin) && Next(r, begin).headers == [1];
    steps := FetchAndGo(2, r, begin, StoreOk, 1);
    assert Run(r, steps).blocks == [] + [1] && Run(r, steps).received == [] + [[1]];
    assert Enabled(2, s, Restart(0));
    hide Enabled, Next, Run, Valid, HandedOver, Handled;
    Chain(2, s, Restart(0), steps);
    CountsChain(s, Restart(0), steps, 1);
  }

  /** The insert of the heights 1 and 2 fails, the process is restarted, and height 1 comes again by itself. */
  lemma RestartHandsOverTwice() returns (steps: seq<Step>)
    ensures Valid(2, Initial(0), steps)
    ensures Run(Initial(0), steps).blocks == [1] && Run(Initial(0), steps).received == [[1]]
    ensures HandedOver(Initial(0), steps, 1) >= 2 && Handled(Initial(0), steps, 1) >= 2
  {
    hide Enabled, Next, Run, Valid, HandedOver, Handled;
    var first := FirstAttempt();
    var second := SecondAttempt(Run(Initial(0), first));
    RunAppend(2, Initial(0), first, [Restart(0)] + second);
    CountsAppend(Initial(0), first, [Restart(0)] + second, 1);
    steps := first + ([Restart(0)] + second);
  }
}
