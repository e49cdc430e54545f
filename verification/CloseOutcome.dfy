/** worker/deposit.go: what handleBatch means for the consumer, and what Close does to the batch in hand. */
module CloseOutcome {
  import opened Prelude
  import opened Retry
  import opened Classifier
  import opened Synchronizer
  import opened DepositWorker
  import opened MessageOutcome
  import opened Scanner
  import opened ScannerShutdown

  /** The consumer's step after a call of handleBatch: it ranges on, or gives up. */
  function HandleStep(policy: Policy, db: Database, batch: Batch, confirms: nat, world: World): Step
    requires WorldFits(world)
  {
    if AfterHandle(policy, db, batch, confirms, world).1 then HandleOk else HandleFail
  }

  /** In whatever state the consumer works, the outcome of handleBatch is the step it takes. */
  lemma HandleIsStep(size: nat, s: State, policy: Policy, db: Database, batch: Batch, confirms: nat, world: World)
    requires s.consumer.Handling? && !s.panicked && WorldFits(world) && s.received != []
    ensures var step := HandleStep(policy, db, batch, confirms, world);
            var t := Next(s, step);
            && Enabled(size, s, step)
            && (t.consumer.Waiting? <==> Handles(policy, db, batch, confirms, world))
            && (t.consumer.Failed? <==> !Handles(policy, db, batch, confirms, world))
            && t.done == s.done + (if Handles(policy, db, batch, confirms, world)
                                     then Members(Last(s.received)) else {})
  {
    hide Handles, AfterHandle, WorldFits;
    HandlesIff(policy, db, batch, confirms, world);
  }

  // ---------------------------------------------------------------------------------------------
  // Cancellation
  // ---------------------------------------------------------------------------------------------

  /** The resources are cancelled just before attempt `m` for the n-th listed business, and stay cancelled. */
  predicate CancelledFrom(world: World, n: nat, m: nat)
    requires WorldFits(world)
  {
    world.businesses.Some? ==>
      forall i, j | 0 <= i < |world.tries| && 0 <= j < MAX_ATTEMPTS ::
        world.tries[i][j].cancelled <==> i > n || (i == n && j >= m)
  }

  /** How many attempts the i-th business has before that. */
  function AttemptsBefore(n: nat, m: nat, i: nat): nat {
    if i < n || (i == n && m > MAX_ATTEMPTS) then MAX_ATTEMPTS else if i == n then m else 0
  }

  lemma CommitsBeforeCancel(world: World, n: nat, m: nat, i: nat)
    requires WorldFits(world) && world.businesses.Some? && CancelledFrom(world, n, m) && i < |world.tries|
    ensures SomeGoesThrough(world.tries[i]) <==> exists j | 0 <= j < AttemptsBefore(n, m, i) :: !world.tries[i][j].fault
  {
    var tries := world.tries[i];
    assert TriesFit(tries);
    if SomeGoesThrough(tries) {
      var j :| 0 <= j < |tries| && GoesThrough(tries, j);
      assert !tries[j].cancelled;
      assert j < AttemptsBefore(n, m, i);
    }
    if j :| 0 <= j < AttemptsBefore(n, m, i) && !tries[j].fault {
      assert GoesThrough(tries, j);
    }
  }

  /** The outside is healthy but for the cancellation: the business list is read, lookups and bodies succeed. */
  predicate Healthy(policy: Policy, db: Database, batch: Batch, confirms: nat, world: World)
    requires WorldFits(world)
  {
    && world.businesses.Some?
    && (forall i | 0 <= i < |world.lookups| :: world.lookups[i])
    && CommitAll(policy, db, batch, confirms, world.businesses.value).Some?
  }

  /** Every present business has a committing attempt before the cancellation. */
  predicate InTime(batch: Batch, world: World, n: nat, m: nat)
    requires WorldFits(world) && world.businesses.Some?
  {
    forall i | 0 <= i < |world.businesses.value| && world.businesses.value[i] in batch ::
      exists j | 0 <= j < AttemptsBefore(n, m, i) :: !world.tries[i][j].fault
  }

  /** The batch is handled exactly then; if the database does not fault either, no present business may come later. */
  lemma CancelDecides(policy: Policy, db: Database, batch: Batch, confirms: nat, world: World, n: nat, m: nat)
    requires WorldFits(world) && CancelledFrom(world, n, m) && Healthy(policy, db, batch, confirms, world)
    ensures Handles(policy, db, batch, confirms, world) <==> InTime(batch, world, n, m)
    ensures (forall i, j | 0 <= i < |world.tries| && 0 <= j < MAX_ATTEMPTS :: !world.tries[i][j].fault) ==>
              (Handles(policy, db, batch, confirms, world)
               <==> forall i | n <= i < |world.businesses.value| && world.businesses.value[i] in batch
                      :: i == n && m > 0)
  {
    hide CommitAll, CancelledFrom, SomeGoesThrough;
    var uids := world.businesses.value;
    assert forall i | 0 <= i < |uids| :: TriesFit(world.tries[i]);
    forall i | 0 <= i < |uids| && uids[i] in batch
      ensures LetThrough(world, i) <==> exists j | 0 <= j < AttemptsBefore(n, m, i) :: !world.tries[i][j].fault
    {
      AllowedIs(world, i);
      CommitsBeforeCancel(world, n, m, i);
    }
    hide Allowed, LetThrough;
    if forall i, j | 0 <= i < |world.tries| && 0 <= j < MAX_ATTEMPTS :: !world.tries[i][j].fault {
      forall i | 0 <= i < |uids|
        ensures (exists j | 0 <= j < AttemptsBefore(n, m, i) :: !world.tries[i][j].fault)
                <==> AttemptsBefore(n, m, i) > 0
      {
        assert !world.tries[i][0].fault;
      }
    }
  }

  /**
   * Close with a batch in hand, in the order of the code: cancel the loop, wait until it has ended its tick, close the
   * channel, cancel the resources, await the consumer.  Wherever the loop is, short of waiting in a send, Close has a
   * schedule that returns; with a healthy database the batch is then handled exactly when every present business
   * commits before the resources are cancelled, and abandoned otherwise.  While the loop waits in a send, the batch in
   * hand is handled before the resources can be cancelled at all.
   */
  lemma CloseKeepsTheBatchIff(size: nat, s: State, policy: Policy, db: Database, batch: Batch, confirms: nat,
                              world: World, n: nat, m: nat) returns (steps: seq<Step>)
    requires Inv(size, s) && s.consumer.Handling? && s.closer.Running?
    requires WorldFits(world) && CancelledFrom(world, n, m) && Healthy(policy, db, batch, confirms, world)
    ensures !s.producer.Offering? ==>
              && (exists rest :: steps == [Cancel] + WindDown(s.producer) + [CloseChannel, Release]
                                          + [HandleStep(policy, db, batch, confirms, world)] + rest)
              && Valid(size, s, steps) && Run(s, steps).closer.Done?
              && (InTime(batch, world, n, m) ==>
                    Run(s, steps).consumer.Finished? && Run(s, steps).done == s.done + Members(Last(s.received)))
              && (!InTime(batch, world, n, m) ==>
                    Run(s, steps).consumer.Failed? && Run(s, steps).done == s.done)
    ensures s.producer.Offering? ==>
              forall run :: Valid(size, s, run) && OneProcess(run) && !ChannelOpen(Run(s, run)) ==>
                Within(Last(s.received), Run(s, run).done)
  {
    assert s.received != [] && !s.panicked && !s.producer.Exited?;
    hide WorldFits, CancelledFrom, Healthy, InTime, AfterHandle, Inv, Run, Valid, WindDown, Within, HandleStep;
    steps := [];
    if s.producer.Offering? {
      forall run | Valid(size, s, run) && OneProcess(run) && !ChannelOpen(Run(s, run))
        ensures Within(Last(s.received), Run(s, run).done)
      {
        OfferedCloseHandles(size, s, run);
      }
    } else {
      steps := SomeClose(size, s, policy, db, batch, confirms, world, n, m);
    }
  }

  lemma SomeClose(size: nat, s: State, policy: Policy, db: Database, batch: Batch, confirms: nat, world: World,
                  n: nat, m: nat) returns (steps: seq<Step>)
    requires s.consumer.Handling? && s.closer.Running? && s.received != [] && !s.panicked
    requires !s.producer.Offering? && !s.producer.Exited?
    requires WorldFits(world) && CancelledFrom(world, n, m) && Healthy(policy, db, batch, confirms, world)
    ensures exists rest :: steps == [Cancel] + WindDown(s.producer) + [CloseChannel, Release]
                                    + [HandleStep(policy, db, batch, confirms, world)] + rest
    ensures Valid(size, s, steps) && Run(s, steps).closer.Done?
    ensures InTime(batch, world, n, m) ==>
              Run(s, steps).consumer.Finished? && Run(s, steps).done == s.done + Members(Last(s.received))
    ensures !InTime(batch, world, n, m) ==> Run(s, steps).consumer.Failed? && Run(s, steps).done == s.done
  {
    assert world.businesses.Some?;
    hide WorldFits, CancelledFrom, Healthy, InTime, AfterHandle, Run, Valid, WoundDown, WindDown;
    HandlesIff(policy, db, batch, confirms, world);
    CancelDecides(policy, db, batch, confirms, world, n, m);
    WoundDownKeeps(s);
    hide Handles;
    var before := [Cancel] + WindDown(s.producer) + [CloseChannel, Release];
    if InTime(batch, world, n, m) {
      steps := OrderlyCloseKeepsTheBatch(size, s);
      assert steps == before + [HandleStep(policy, db, batch, confirms, world)] + [Drain, Join];
    } else {
      steps := OrderlyCloseCanLoseTheBatch(size, s);
      assert steps == before + [HandleStep(policy, db, batch, confirms, world)] + [Join];
    }
  }

  lemma WoundDownKeeps(s: State)
    ensures WoundDown(s).done == s.done && WoundDown(s).received == s.received
  {
  }
}
