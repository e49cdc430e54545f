/** What every single call does to every action: which actions fire, which stay silent, and what each call records. */
module ClockBehaviour {
  import opened Prelude
  import opened ClockModel

  // ---------------------------------------------------------------------------------------------
  // Firing
  // ---------------------------------------------------------------------------------------------

  /** The action has a firing to come, and room for it. */
  predicate Ready(a: Act) {
    && !a.stopped
    && (a.kind.Ticker? ==> a.buffer == None)
    && (!a.kind.Ticker? ==> forall k | 0 <= k < |a.events| :: a.events[k].Armed?)
  }

  /** What one firing at `now` leaves: one more event, the time in the channel, one more run of a callback. */
  predicate FiredAt(a: Act, t: Act, now: int) {
    && t.events == a.events + [Fired(now)]
    && t.kind == a.kind && t.period == a.period && t.stopped == a.stopped && t.stopTrue == a.stopTrue
    && (a.kind.Callback? ==> t.calls == a.calls + 1 && t.buffer == a.buffer)
    && (!a.kind.Callback? ==> t.calls == a.calls && t.buffer == Some(now))
    && (a.kind.Ticker? ==> t.due == now + a.period)
    && (!a.kind.Ticker? ==> t.due == a.due)
    && (a.kind.Task? ==> t.closed)
    && (a.kind.Callback? || a.kind.Timer? ==> t.run)
  }

  lemma AdvancedIs(a: Act, pending: bool, now: int)
    requires ActFits(a, pending)
    ensures var t := if pending then Advanced(a, now) else a;
            && (a.due <= now && Ready(a) ==> FiredAt(a, t, now))
            && (!(a.due <= now && Ready(a)) ==> t == a)
  {
    hide Spaced, Earliest, Span, LastFired;
    if !a.kind.Ticker? {
      assert Ready(a) <==> !a.stopped && |a.events| == 1;
    }
  }

  lemma ClockAdvances(c: Clock, d: int, id: nat)
    requires Inv(c) && id < |c.acts|
    ensures var t := Next(c, DoAdvance(d));
            && t.now == c.now + d && |t.acts| == |c.acts|
            && (c.acts[id].due <= c.now + d && Ready(c.acts[id]) ==> FiredAt(c.acts[id], t.acts[id], c.now + d))
            && (!(c.acts[id].due <= c.now + d && Ready(c.acts[id])) ==> t.acts[id] == c.acts[id])
  {
    hide ActFits, Survivors, DueOnes, SomeBlocks, Advanced, Ready, FiredAt;
    AdvancedIs(c.acts[id], id in c.pending, c.now + d);
  }

  /**
   * Over every sequence of calls, AdvanceTime fires exactly the actions that are due, not stopped and have a firing to
   * come; every other action is left as it is.
   */
  lemma AdvanceFires(now: int, ops: seq<Op>, d: int, id: nat)
    requires id < |Run(now, ops).acts|
    ensures var c := Run(now, ops);
            var t := Next(c, DoAdvance(d));
            && t.now == c.now + d && |t.acts| == |c.acts|
            && (c.acts[id].due <= c.now + d && Ready(c.acts[id]) ==> FiredAt(c.acts[id], t.acts[id], c.now + d))
            && (!(c.acts[id].due <= c.now + d && Ready(c.acts[id])) ==> t.acts[id] == c.acts[id])
  {
    hide Run, Next, Inv, Ready, FiredAt;
    ClockAdvances(Run(now, ops), d, id);
  }

  /** A running ticker whose tick was read, or a one-shot that nobody has stopped. */
  predicate Unhindered(a: Act) {
    !a.stopped && (a.kind.Ticker? ==> a.buffer == None)
  }

  lemma PendingActIsReady(a: Act, pending: bool)
    requires ActFits(a, pending)
    ensures pending && Unhindered(a) ==> Ready(a)
    ensures Ready(a) ==> pending
  {
    hide Spaced, Earliest, Span, LastFired;
  }

  /** The actions that the next AdvanceTime visits. */
  ghost predicate Visited(c: Clock, d: int, id: nat)
    requires Inv(c)
  {
    var t := Next(c, DoAdvance(d));
    |c.visits| <= |t.visits| && id in t.visits[|c.visits|..]
  }

  lemma VisitedIff(c: Clock, d: int, id: nat)
    requires Inv(c)
    ensures Visited(c, d, id) <==> id in c.pending && id < |c.acts| && c.acts[id].due <= c.now + d
  {
    hide ActFits, Survivors, AdvanceActs, SomeBlocks, DueOnes, Ascending;
    var due := DueOnes(c.acts, c.pending, c.now + d);
    SurvivorsAre(c.acts, c.pending, c.now + d, id);
    assert (c.visits + due)[|c.visits|..] == due;
  }

  lemma ClockVisits(c: Clock, d: int, id: nat)
    requires Inv(c) && id < |c.acts|
    ensures var t := Next(c, DoAdvance(d));
            && |t.acts| == |c.acts|
            && (Visited(c, d, id) && Unhindered(c.acts[id]) ==> FiredAt(c.acts[id], t.acts[id], t.now))
            && (t.acts[id] != c.acts[id] ==> Visited(c, d, id))
  {
    assert ActFits(c.acts[id], id in c.pending);
    hide Next, ActFits, Unhindered, Ready, FiredAt, Inv, Visited;
    ClockAdvances(c, d, id);
    PendingActIsReady(c.acts[id], id in c.pending);
    VisitedIff(c, d, id);
  }

  /** So a due action that is visited fires, unless it was stopped or its tick is unread; and what fires was visited. */
  lemma VisitedFires(now: int, ops: seq<Op>, d: int, id: nat)
    requires id < |Run(now, ops).acts|
    ensures var c := Run(now, ops);
            var t := Next(c, DoAdvance(d));
            && |t.acts| == |c.acts|
            && (Visited(c, d, id) && Unhindered(c.acts[id]) ==> FiredAt(c.acts[id], t.acts[id], t.now))
            && (t.acts[id] != c.acts[id] ==> Visited(c, d, id))
  {
    hide Run, Next, Inv, Visited, Unhindered, FiredAt;
    ClockVisits(Run(now, ops), d, id);
  }

  // ---------------------------------------------------------------------------------------------
  // Callbacks and Stop
  // ---------------------------------------------------------------------------------------------

  function Firings(events: seq<Event>): nat {
    if events == [] then 0
    else Firings(events[..|events| - 1]) + (if events[|events| - 1].Fired? then 1 else 0)
  }

  lemma OneShotFirings(events: seq<Event>)
    requires OneShotHistory(events)
    ensures Firings(events) == |events| - 1
  {
    assert events[..|events| - 1] == if |events| == 2 then [events[0]] else [];
    assert [events[0]][..0] == [];
  }

  /** Over every sequence of calls, the function of a timer runs at most once, and never if some Stop returned true. */
  lemma CallbackRunsOnce(now: int, ops: seq<Op>, id: nat)
    requires id < |Run(now, ops).acts| && Run(now, ops).acts[id].kind.Callback?
    ensures var a := Run(now, ops).acts[id];
            && a.calls == Firings(a.events) <= 1
            && (a.calls == 1 <==> a.run)
            && !(a.calls >= 1 && a.stopTrue)
  {
    var c := Run(now, ops);
    assert ActFits(c.acts[id], id in c.pending);
    OneShotFirings(c.acts[id].events);
  }

  /** The same for a timer with a channel: a Stop that returned true and a value sent exclude each other. */
  lemma SendExcludesStop(now: int, ops: seq<Op>, id: nat)
    requires id < |Run(now, ops).acts| && Run(now, ops).acts[id].kind.Timer?
    ensures var a := Run(now, ops).acts[id];
            && Firings(a.events) <= 1 && (Firings(a.events) == 1 <==> a.run)
            && !(Firings(a.events) == 1 && a.stopTrue)
  {
    var c := Run(now, ops);
    assert ActFits(c.acts[id], id in c.pending);
    OneShotFirings(c.acts[id].events);
  }

  /** Some earlier call has stopped the action. */
  ghost predicate StoppedBefore(now: int, ops: seq<Op>, id: nat) {
    exists k | 0 <= k < |ops| :: StopsAt(now, ops, id, k)
  }

  ghost predicate StopsAt(now: int, ops: seq<Op>, id: nat, k: nat)
    requires k < |ops|
  {
    ops[k] == DoStop(id) && id < |Run(now, ops[..k]).acts| && !Run(now, ops[..k]).acts[id].kind.Task?
  }

  lemma NextStops(c: Clock, op: Op, id: nat)
    requires Inv(c)
    ensures |c.acts| <= |Next(c, op).acts|
    ensures id < |c.acts| ==>
              (Next(c, op).acts[id].stopped
               <==> c.acts[id].stopped || (op == DoStop(id) && !c.acts[id].kind.Task?))
    ensures |c.acts| <= id < |Next(c, op).acts| ==> !Next(c, op).acts[id].stopped
  {
    hide ActFits, Survivors, DueOnes, SomeBlocks;
  }

  lemma RunStep(now: int, ops: seq<Op>, n: nat)
    requires n < |ops|
    ensures Run(now, ops[..n + 1]) == Next(Run(now, ops[..n]), ops[n])
  {
    hide Next, Inv;
    assert ops[..n + 1][..n] == ops[..n];
  }

  lemma OneMoreCall(now: int, ops: seq<Op>, id: nat, n: nat)
    requires n < |ops|
    ensures var a, b := Run(now, ops[..n]).acts, Run(now, ops[..n + 1]).acts;
            && |a| <= |b|
            && (id < |a| ==> (b[id].stopped <==> a[id].stopped || StopsAt(now, ops, id, n)))
            && (|a| <= id < |b| ==> !b[id].stopped)
            && (|a| <= id ==> !StopsAt(now, ops, id, n))
  {
    hide Run, Next, Inv;
    RunStep(now, ops, n);
    NextStops(Run(now, ops[..n]), ops[n], id);
  }

  lemma {:induction false} NoStopBefore(now: int, ops: seq<Op>, id: nat, n: nat, k: nat)
    requires k < n <= |ops| && id >= |Run(now, ops[..n]).acts|
    ensures !StopsAt(now, ops, id, k)
    decreases n
  {
    hide Run, StopsAt;
    OneMoreCall(now, ops, id, n - 1);
    if k < n - 1 {
      NoStopBefore(now, ops, id, n - 1, k);
    }
  }

  /** Stopped after n calls: one of them was a Stop of this action. */
  lemma {:induction false} StoppedAfter(now: int, ops: seq<Op>, id: nat, n: nat)
    requires n <= |ops| && id < |Run(now, ops[..n]).acts|
    ensures Run(now, ops[..n]).acts[id].stopped <==> exists k | 0 <= k < n :: StopsAt(now, ops, id, k)
    decreases n
  {
    NoCalls(now, ops);
    hide Run, StopsAt;
    if n > 0 {
      OneMoreCall(now, ops, id, n - 1);
      if id < |Run(now, ops[..n - 1]).acts| {
        StoppedAfter(now, ops, id, n - 1);
      } else {
        forall k | 0 <= k < n - 1 ensures !StopsAt(now, ops, id, k) {
          NoStopBefore(now, ops, id, n - 1, k);
        }
      }
    }
  }

  lemma NoCalls(now: int, ops: seq<Op>)
    ensures Run(now, ops[..0]).acts == []
  {
    assert ops[..0] == [];
  }

  lemma StoppedIff(now: int, ops: seq<Op>, id: nat)
    requires id < |Run(now, ops).acts|
    ensures Run(now, ops).acts[id].stopped <==> StoppedBefore(now, ops, id)
  {
    hide Run;
    assert ops[..|ops|] == ops;
    StoppedAfter(now, ops, id, |ops|);
  }

  /** Stop answers true exactly when the timer has not fired and nobody has stopped it before. */
  lemma StopAnswersIff(now: int, ops: seq<Op>, id: nat)
    requires id < |Run(now, ops).acts|
    requires Run(now, ops).acts[id].kind.Callback? || Run(now, ops).acts[id].kind.Timer?
    ensures StopReturns(Run(now, ops).acts[id])
            <==> Firings(Run(now, ops).acts[id].events) == 0 && !StoppedBefore(now, ops, id)
  {
    var c := Run(now, ops);
    assert ActFits(c.acts[id], id in c.pending);
    OneShotFirings(c.acts[id].events);
    StoppedIff(now, ops, id);
  }

  /** No call makes a stopped action fire: its firings, its callback and what is in its channel stay, or are read. */
  lemma StoppedStaysSilent(c: Clock, op: Op, id: nat)
    requires Inv(c) && id < |c.acts| && c.acts[id].stopped && !c.acts[id].kind.Task?
    ensures var a, t := c.acts[id], Next(c, op).acts[id];
            && t.stopped && t.calls == a.calls && t.run == a.run
            && (t.events == a.events || (op.DoReset? && t.events == a.events + [Armed(c.now, op.d)]))
            && (t.buffer == a.buffer || t.buffer == None)
  {
    NextStops(c, op, id);
    hide ActFits, Survivors, DueOnes, SomeBlocks;
  }

  // ---------------------------------------------------------------------------------------------
  // What the other calls record
  // ---------------------------------------------------------------------------------------------

  /** A new action records when and with what argument it was made. */
  predicate Made(a: Act, kind: Kind, now: int, d: int) {
    && a.kind == kind && a.due == now + d && a.period == d && a.events == [Armed(now, d)]
    && a.buffer == None && a.calls == 0 && !a.closed && !a.stopped && !a.run && !a.stopTrue
  }

  function KindMade(op: Op): Kind {
    match op
    case DoAfter(_) => Task
    case DoAfterFunc(_) => Callback
    case DoNewTimer(_) => Timer
    case _ => Ticker
  }

  /**
   * The four calls that make an action: a zero delay fires After and AfterFunc on the spot, a ticker needs a positive
   * period, everything else is scheduled behind the rest; no other action notices.
   */
  lemma CreationRecords(c: Clock, op: Op)
    requires WellIndexed(c) && (op.DoAfter? || op.DoAfterFunc? || op.DoNewTimer? || op.DoNewTicker?)
    ensures var t := Next(c, op);
            var kind, n := KindMade(op), |c.acts|;
            && t.now == c.now
            && (op.DoNewTicker? && op.d <= 0 ==> t == c)
            && (!(op.DoNewTicker? && op.d <= 0) ==>
                  && |t.acts| == n + 1 && t.acts[..n] == c.acts
                  && ((op.DoAfter? || op.DoAfterFunc?) && op.d == 0 ==>
                        && t.pending == c.pending
                        && exists a :: Made(a, kind, c.now, 0) && FiredAt(a, t.acts[n], c.now))
                  && (!((op.DoAfter? || op.DoAfterFunc?) && op.d == 0) ==>
                        t.pending == c.pending + [n] && Made(t.acts[n], kind, c.now, op.d)))
  {
    var t, n := Next(c, op), |c.acts|;
    if (op.DoAfter? || op.DoAfterFunc?) && op.d == 0 {
      var a := NewAct(KindMade(op), c.now, 0);
      assert Made(a, KindMade(op), c.now, 0) && FiredAt(a, t.acts[n], c.now);
    }
  }

  /** Reset arms a ticker with its argument, from now on; Stop and a receive touch one action; no other notices. */
  lemma TouchRecords(c: Clock, op: Op, id: nat)
    requires WellIndexed(c) && id < |c.acts|
    requires op == DoStop(id) || op == DoReceive(id) || (op.DoReset? && op.id == id)
    ensures var a, t := c.acts[id], Next(c, op).acts[id];
            && Next(c, op).now == c.now && Next(c, op).pending == c.pending
            && |Next(c, op).acts| == |c.acts|
            && (forall i | 0 <= i < |c.acts| && i != id :: Next(c, op).acts[i] == c.acts[i])
            && (op.DoReset? && a.kind.Ticker? && op.d > 0 ==>
                  t == a.(due := c.now + op.d, period := op.d, events := a.events + [Armed(c.now, op.d)]))
            && (op.DoReset? && (!a.kind.Ticker? || op.d <= 0) ==> t == a)
            && (op.DoReceive? ==> t == a.(buffer := None))
            && (op.DoStop? && a.kind.Ticker? ==> t == a.(stopped := true))
            && (op.DoStop? && a.kind.Task? ==> t == a)
            && (op.DoStop? && (a.kind.Callback? || a.kind.Timer?) ==>
                  t == a.(stopped := true, stopTrue := a.stopTrue || (!a.stopped && !a.run)))
  {
  }
}
