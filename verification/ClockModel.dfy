/**
 * The deterministic clock as a transition system: what any sequence of calls can make of the scheduled actions.
 * The classes of DeterministicClock.dfy are verified against the functions of this file.
 */
module ClockModel {
  import opened Prelude

  /** After, AfterFunc, NewTimer and NewTicker. */
  datatype Kind = Task | Callback | Timer | Ticker

  /** History of one action: (re)armed at a time with a delay or period, and fired at a time. */
  datatype Event = Armed(at: int, span: int) | Fired(at: int)

  /** One action; `due` is also the ticker's nextDue, `buffer` a channel's slot, `calls` counts callback runs. */
  datatype Act = Act(kind: Kind, due: int, period: int, buffer: Option<int>, closed: bool, stopped: bool, run: bool,
                     calls: nat, stopTrue: bool, events: seq<Event>)

  function NewAct(kind: Kind, now: int, d: int): Act {
    Act(kind, now + d, d, None, false, false, false, 0, false, [Armed(now, d)])
  }

  predicate IsDue(a: Act, now: int) {
    a.due <= now
  }

  /** An unconditional send that finds no free slot, or a closed channel. */
  predicate Blocks(a: Act) {
    match a.kind
    case Task => a.buffer.Some? || a.closed
    case Timer => !a.stopped && a.buffer.Some?
    case _ => false
  }

  function FireAct(a: Act, now: int): Act {
    match a.kind
    case Task => a.(buffer := Some(now), closed := true, events := a.events + [Fired(now)])
    case Callback =>
      if a.stopped then a else a.(run := true, calls := a.calls + 1, events := a.events + [Fired(now)])
    case Timer => if a.stopped then a else a.(buffer := Some(now), run := true, events := a.events + [Fired(now)])
    case Ticker =>
      if a.stopped || a.buffer.Some? then a
      else a.(buffer := Some(now), due := now + a.period, events := a.events + [Fired(now)])
  }

  /** What fire returns: the action has to be looked at again. */
  predicate FireKeeps(a: Act) {
    a.kind.Ticker? && !a.stopped
  }

  function Advanced(a: Act, now: int): Act {
    if IsDue(a, now) then FireAct(a, now) else a
  }

  predicate Stays(a: Act, now: int) {
    !IsDue(a, now) || FireKeeps(a)
  }

  function StopAct(a: Act): Act {
    a.(stopped := true, stopTrue := a.stopTrue || StopReturns(a))
  }

  /** The result of Timer.Stop. */
  predicate StopReturns(a: Act) {
    !a.kind.Ticker? && !a.stopped && !a.run
  }

  function ResetAct(a: Act, now: int, d: int): Act {
    a.(period := d, due := now + d, events := a.events + [Armed(now, d)])
  }

  // ---------------------------------------------------------------------------------------------
  // The clock
  // ---------------------------------------------------------------------------------------------

  /** `acts` are all actions ever made, `pending` indexes those the clock still holds, `visits` the fire calls. */
  datatype Clock = Clock(now: int, acts: seq<Act>, pending: seq<nat>, blocked: bool, visits: seq<nat>)

  datatype Op =
    | DoAfter(d: int) | DoAfterFunc(d: int) | DoNewTimer(d: int) | DoNewTicker(d: int)
    | DoStop(id: nat) | DoReset(id: nat, d: int) | DoReceive(id: nat)
    | DoAdvance(d: int)

  predicate Indexes(pending: seq<nat>, acts: seq<Act>) {
    forall k | 0 <= k < |pending| :: pending[k] < |acts|
  }

  function Survivors(acts: seq<Act>, pending: seq<nat>, now: int): seq<nat>
    requires Indexes(pending, acts)
  {
    if pending == [] then []
    else
      var init, id := Survivors(acts, pending[..|pending| - 1], now), pending[|pending| - 1];
      if Stays(acts[id], now) then init + [id] else init
  }

  function DueOnes(acts: seq<Act>, pending: seq<nat>, now: int): seq<nat>
    requires Indexes(pending, acts)
  {
    if pending == [] then []
    else
      var init, id := DueOnes(acts, pending[..|pending| - 1], now), pending[|pending| - 1];
      if IsDue(acts[id], now) then init + [id] else init
  }

  /** Every pending action, fired if it is due. */
  function AdvanceActs(acts: seq<Act>, pending: seq<nat>, now: int): (r: seq<Act>)
    ensures |r| == |acts|
    ensures forall i | 0 <= i < |acts| :: r[i] == if i in pending then Advanced(acts[i], now) else acts[i]
  {
    seq(|acts|, i requires 0 <= i < |acts| => if i in pending then Advanced(acts[i], now) else acts[i])
  }

  predicate SomeBlocks(acts: seq<Act>, pending: seq<nat>, now: int)
    requires Indexes(pending, acts)
  {
    exists k | 0 <= k < |pending| :: IsDue(acts[pending[k]], now) && Blocks(acts[pending[k]])
  }

  predicate WellIndexed(c: Clock) {
    Indexes(c.pending, c.acts)
  }

  function Schedule(c: Clock, a: Act): Clock {
    c.(acts := c.acts + [a], pending := c.pending + [|c.acts|])
  }

  /** An action that fires on the spot is never pending. */
  function FireAtOnce(c: Clock, a: Act): Clock {
    c.(acts := c.acts + [FireAct(a, c.now)], blocked := c.blocked || Blocks(a), visits := c.visits + [|c.acts|])
  }

  function Next(c: Clock, op: Op): Clock
    requires WellIndexed(c)
  {
    match op
    case DoAfter(d) =>
      var a := NewAct(Task, c.now, d);
      if d == 0 then FireAtOnce(c, a) else Schedule(c, a)
    case DoAfterFunc(d) =>
      var a := NewAct(Callback, c.now, d);
      if d == 0 then FireAtOnce(c, a) else Schedule(c, a)
    case DoNewTimer(d) => Schedule(c, NewAct(Timer, c.now, d))
    case DoNewTicker(d) => if d <= 0 then c else Schedule(c, NewAct(Ticker, c.now, d))
    case DoStop(id) =>
      if id < |c.acts| && !c.acts[id].kind.Task? then c.(acts := c.acts[id := StopAct(c.acts[id])]) else c
    case DoReset(id, d) =>
      if id < |c.acts| && c.acts[id].kind.Ticker? && d > 0
        then c.(acts := c.acts[id := ResetAct(c.acts[id], c.now, d)]) else c
    case DoReceive(id) =>
      if id < |c.acts| then c.(acts := c.acts[id := c.acts[id].(buffer := None)]) else c
    case DoAdvance(d) =>
      var now := c.now + d;
      Clock(now, AdvanceActs(c.acts, c.pending, now), Survivors(c.acts, c.pending, now),
            c.blocked || SomeBlocks(c.acts, c.pending, now), c.visits + DueOnes(c.acts, c.pending, now))
  }

  function NewClock(now: int): Clock {
    Clock(now, [], [], false, [])
  }

  // ---------------------------------------------------------------------------------------------
  // Invariants
  // ---------------------------------------------------------------------------------------------

  /** Period in force after a history, and the earliest time the next firing may carry. */
  function Span(events: seq<Event>): int {
    if events == [] then 0
    else if events[|events| - 1].Armed? then events[|events| - 1].span
    else Span(events[..|events| - 1])
  }

  function Earliest(events: seq<Event>): int
    requires events != []
  {
    events[|events| - 1].at + Span(events)
  }

  /** No firing comes earlier than one span after the event before it. */
  predicate Spaced(events: seq<Event>) {
    events != []
    && (if |events| == 1 then events[0].Armed?
        else Spaced(events[..|events| - 1])
             && (events[|events| - 1].Fired? ==> events[|events| - 1].at >= Earliest(events[..|events| - 1])))
  }

  /** A one-shot is armed once and fires at most once. */
  predicate OneShotHistory(events: seq<Event>) {
    (|events| == 1 && events[0].Armed?) || (|events| == 2 && events[0].Armed? && events[1].Fired?)
  }

  /** Time of the latest firing. */
  function LastFired(events: seq<Event>): Option<int> {
    if events == [] then None
    else if events[|events| - 1].Fired? then Some(events[|events| - 1].at)
    else LastFired(events[..|events| - 1])
  }

  /** Something is still to come: a running ticker, or a one-shot that was neither fired nor stopped. */
  predicate Live(a: Act) {
    !a.stopped && (a.kind.Ticker? || |a.events| == 1)
  }

  predicate ActFits(a: Act, pending: bool) {
    && Spaced(a.events)
    && (Live(a) ==> pending)
    && (a.kind.Task? ==> !a.stopped)
    && a.calls == (if a.kind.Callback? && a.run then 1 else 0)
    && (a.buffer.Some? ==> a.buffer == LastFired(a.events))
    && (a.stopTrue ==> a.stopped)
    && (!a.kind.Ticker? ==>
          && OneShotHistory(a.events)
          && a.due == a.events[0].at + a.events[0].span
          && (pending ==> |a.events| == 1)
          && (|a.events| == 1 ==> a.buffer.None? && !a.closed && !a.run)
          && (!a.kind.Task? ==> (a.run <==> |a.events| == 2))
          && !(a.run && a.stopTrue))
    && (a.kind.Ticker? ==> a.period == Span(a.events) > 0 && a.due == Earliest(a.events) && !a.closed && !a.stopTrue)
  }

  predicate Inv(c: Clock) {
    && WellIndexed(c)
    && Ascending(c.pending)
    && !c.blocked
    && forall i | 0 <= i < |c.acts| :: ActFits(c.acts[i], i in c.pending)
  }

  lemma EventsPrefix(events: seq<Event>, e: Event)
    ensures (events + [e])[..|events + [e]| - 1] == events && (events + [e])[|events + [e]| - 1] == e
  {
  }

  lemma NewActFits(kind: Kind, now: int, d: int)
    requires kind.Ticker? ==> d > 0
    ensures ActFits(NewAct(kind, now, d), true)
  {
  }

  lemma FiredActFits(a: Act, now: int)
    requires ActFits(a, true) && IsDue(a, now)
    ensures !Blocks(a)
    ensures ActFits(FireAct(a, now), FireKeeps(a))
  {
    EventsPrefix(a.events, Fired(now));
    if !a.kind.Ticker? {
      assert a.events == [a.events[0]];
      assert Earliest(a.events) == a.due;
    }
  }

  lemma StoppedActFits(a: Act, pending: bool)
    requires ActFits(a, pending) && !a.kind.Task?
    ensures ActFits(StopAct(a), pending)
  {
  }

  lemma ResetActFits(a: Act, pending: bool, now: int, d: int)
    requires ActFits(a, pending) && a.kind.Ticker? && d > 0
    ensures ActFits(ResetAct(a, now, d), pending)
  {
    EventsPrefix(a.events, Armed(now, d));
  }

  lemma ReceivedActFits(a: Act, pending: bool)
    requires ActFits(a, pending)
    ensures ActFits(a.(buffer := None), pending)
  {
  }

  lemma {:induction false} SurvivorsAre(acts: seq<Act>, pending: seq<nat>, now: int, id: nat)
    requires Indexes(pending, acts)
    ensures id in Survivors(acts, pending, now) <==> id in pending && Stays(acts[id], now)
    ensures id in DueOnes(acts, pending, now) <==> id in pending && IsDue(acts[id], now)
  {
    if pending != [] {
      var init := pending[..|pending| - 1];
      SurvivorsAre(acts, init, now, id);
      assert pending == init + [pending[|pending| - 1]];
    }
  }

  lemma AppendAscends(s: seq<nat>, x: nat)
    requires Ascending(s) && forall k | 0 <= k < |s| :: s[k] < x
    ensures Ascending(s + [x])
  {
  }

  lemma EarlierIsSmaller(acts: seq<Act>, pending: seq<nat>, now: int, id: nat)
    requires Ascending(pending) && Indexes(pending, acts) && pending != []
    requires id in Survivors(acts, pending[..|pending| - 1], now) || id in DueOnes(acts, pending[..|pending| - 1], now)
    ensures id < pending[|pending| - 1]
  {
    var init := pending[..|pending| - 1];
    SurvivorsAre(acts, init, now, id);
    var j :| 0 <= j < |init| && init[j] == id;
    assert pending[j] < pending[|pending| - 1];
  }

  lemma {:induction false} SurvivorsAscend(acts: seq<Act>, pending: seq<nat>, now: int)
    requires Ascending(pending) && Indexes(pending, acts)
    ensures Ascending(Survivors(acts, pending, now)) && Ascending(DueOnes(acts, pending, now))
    ensures Indexes(Survivors(acts, pending, now), acts)
  {
    if pending != [] {
      var init, last := pending[..|pending| - 1], pending[|pending| - 1];
      SurvivorsAscend(acts, init, now);
      var kept, due := Survivors(acts, init, now), DueOnes(acts, init, now);
      forall k | 0 <= k < |kept| ensures kept[k] < last {
        EarlierIsSmaller(acts, pending, now, kept[k]);
      }
      forall k | 0 <= k < |due| ensures due[k] < last {
        EarlierIsSmaller(acts, pending, now, due[k]);
      }
      hide Ascending;
      AppendAscends(kept, last);
      AppendAscends(due, last);
    }
  }

  lemma ScheduleKeeps(c: Clock, a: Act)
    requires Inv(c) && ActFits(a, true)
    ensures Inv(Schedule(c, a))
  {
    var t := Schedule(c, a);
    forall i | 0 <= i < |t.acts| ensures ActFits(t.acts[i], i in t.pending) {
      if i < |c.acts| {
        assert i in t.pending <==> i in c.pending;
      }
    }
  }

  lemma FireAtOnceKeeps(c: Clock, a: Act)
    requires Inv(c) && ActFits(a, true) && IsDue(a, c.now) && !a.kind.Ticker?
    ensures Inv(FireAtOnce(c, a))
  {
    FiredActFits(a, c.now);
  }

  lemma UpdateKeeps(c: Clock, id: nat, a: Act)
    requires Inv(c) && id < |c.acts| && ActFits(a, id in c.pending)
    ensures Inv(c.(acts := c.acts[id := a]))
  {
  }

  lemma AdvanceKeeps(c: Clock, d: int)
    requires Inv(c)
    ensures Inv(Next(c, DoAdvance(d)))
  {
    hide ActFits, Advanced, Stays, Survivors, DueOnes, IsDue, Blocks;
    var now := c.now + d;
    var acts, pending := AdvanceActs(c.acts, c.pending, now), Survivors(c.acts, c.pending, now);
    SurvivorsAscend(c.acts, c.pending, now);
    forall i | 0 <= i < |acts| ensures ActFits(acts[i], i in pending) {
      SurvivorsAre(c.acts, c.pending, now, i);
      AdvancedActFits(c.acts[i], i in c.pending, now);
    }
    forall k | 0 <= k < |c.pending| && IsDue(c.acts[c.pending[k]], now) ensures !Blocks(c.acts[c.pending[k]]) {
      AdvancedActFits(c.acts[c.pending[k]], true, now);
    }
  }

  lemma AdvancedActFits(a: Act, pending: bool, now: int)
    requires ActFits(a, pending)
    ensures ActFits(if pending then Advanced(a, now) else a, pending && Stays(a, now))
    ensures pending && IsDue(a, now) ==> !Blocks(a)
  {
    if pending && IsDue(a, now) {
      FiredActFits(a, now);
    }
  }

  lemma InvStep(c: Clock, op: Op)
    requires Inv(c)
    ensures Inv(Next(c, op))
  {
    match op
    case DoAfter(d) =>
      NewActFits(Task, c.now, d);
      if d == 0 { FireAtOnceKeeps(c, NewAct(Task, c.now, d)); } else { ScheduleKeeps(c, NewAct(Task, c.now, d)); }
    case DoAfterFunc(d) =>
      NewActFits(Callback, c.now, d);
      var a := NewAct(Callback, c.now, d);
      if d == 0 { FireAtOnceKeeps(c, a); } else { ScheduleKeeps(c, a); }
    case DoNewTimer(d) =>
      NewActFits(Timer, c.now, d);
      ScheduleKeeps(c, NewAct(Timer, c.now, d));
    case DoNewTicker(d) =>
      if d > 0 {
        NewActFits(Ticker, c.now, d);
        ScheduleKeeps(c, NewAct(Ticker, c.now, d));
      }
    case DoStop(id) =>
      if id < |c.acts| && !c.acts[id].kind.Task? {
        StoppedActFits(c.acts[id], id in c.pending);
        UpdateKeeps(c, id, StopAct(c.acts[id]));
      }
    case DoReset(id, d) =>
      if id < |c.acts| && c.acts[id].kind.Ticker? && d > 0 {
        ResetActFits(c.acts[id], id in c.pending, c.now, d);
        UpdateKeeps(c, id, ResetAct(c.acts[id], c.now, d));
      }
    case DoReceive(id) =>
      if id < |c.acts| {
        ReceivedActFits(c.acts[id], id in c.pending);
        UpdateKeeps(c, id, c.acts[id].(buffer := None));
      }
    case DoAdvance(d) =>
      AdvanceKeeps(c, d);
  }

  /** The clock after a sequence of calls. */
  ghost function Run(now: int, ops: seq<Op>): (c: Clock)
    ensures Inv(c)
  {
    if ops == [] then NewClock(now)
    else
      var c := Run(now, ops[..|ops| - 1]);
      InvStep(c, ops[|ops| - 1]);
      Next(c, ops[|ops| - 1])
  }

  // ---------------------------------------------------------------------------------------------
  // Theorems over every sequence of calls
  // ---------------------------------------------------------------------------------------------

  /** AdvanceTime never blocks: every unconditional send found a free slot of an open channel. */
  lemma NeverBlocks(now: int, ops: seq<Op>)
    ensures !Run(now, ops).blocked
  {
  }

  /** No action fires before it is due, and a one-shot fires at most once. */
  lemma FiringsAreOnTime(now: int, ops: seq<Op>, id: nat, k: nat)
    requires id < |Run(now, ops).acts|
    requires k < |Run(now, ops).acts[id].events| && Run(now, ops).acts[id].events[k].Fired?
    ensures var a := Run(now, ops).acts[id];
            && k > 0 && a.events[k].at >= Earliest(a.events[..k])
            && (!a.kind.Ticker? ==>
                  && k == 1 && |a.events| == 2 && a.events[0].Armed?
                  && a.events[1].at >= a.events[0].at + a.events[0].span)
  {
    var c := Run(now, ops);
    assert ActFits(c.acts[id], id in c.pending);
    SpacedAt(c.acts[id].events, k);
    if !c.acts[id].kind.Ticker? {
      assert c.acts[id].events[..1] == [c.acts[id].events[0]];
    }
  }

  lemma {:induction false} SpacedAt(events: seq<Event>, k: nat)
    requires Spaced(events) && k < |events|
    ensures Spaced(events[..k + 1])
    ensures events[k].Fired? ==> k > 0 && events[k].at >= Earliest(events[..k])
  {
    if k == |events| - 1 {
      assert events[..k + 1] == events;
    } else {
      var init := events[..|events| - 1];
      SpacedAt(init, k);
      assert init[..k + 1] == events[..k + 1] && init[..k] == events[..k];
    }
  }

  /** What a channel holds is the clock's time at the latest firing of its action. */
  lemma BufferHoldsFiringTime(now: int, ops: seq<Op>, id: nat)
    requires id < |Run(now, ops).acts| && Run(now, ops).acts[id].buffer.Some?
    ensures Run(now, ops).acts[id].buffer == LastFired(Run(now, ops).acts[id].events)
  {
    var c := Run(now, ops);
    assert ActFits(c.acts[id], id in c.pending);
  }

  /** For one timer, "its function ran" and "some Stop returned true" exclude each other. */
  lemma RunExcludesStop(now: int, ops: seq<Op>, id: nat)
    requires id < |Run(now, ops).acts| && !Run(now, ops).acts[id].kind.Ticker?
    ensures !(Run(now, ops).acts[id].run && Run(now, ops).acts[id].stopTrue)
  {
    var c := Run(now, ops);
    assert ActFits(c.acts[id], id in c.pending);
  }

  /** Ticks between two resets are at least one period apart. */
  lemma {:induction false} TicksAreSpaced(events: seq<Event>, i: nat, j: nat)
    requires Spaced(events) && i < j < |events| && Span(events[..i + 1]) >= 0
    requires forall k | i < k <= j :: events[k].Fired?
    ensures events[j].at >= events[i].at + Span(events[..i + 1])
    decreases j
  {
    SpacedAt(events, j);
    assert events[..j][|events[..j]| - 1] == events[j - 1];
    SpanStays(events, i, j - 1);
    if i < j - 1 {
      TicksAreSpaced(events, i, j - 1);
    }
  }

  lemma {:induction false} SpanStays(events: seq<Event>, i: nat, j: nat)
    requires i <= j < |events| && forall k | i < k <= j :: events[k].Fired?
    ensures Span(events[..j + 1]) == Span(events[..i + 1])
    decreases j
  {
    if i < j {
      assert events[..j + 1][..j] == events[..j - 1 + 1];
      SpanStays(events, i, j - 1);
    }
  }

  /** A ticker of any run: a tick comes at least one span after the tick, creation or reset before it. */
  lemma TickerSpacing(now: int, ops: seq<Op>, id: nat, i: nat, j: nat)
    requires id < |Run(now, ops).acts| && Run(now, ops).acts[id].kind.Ticker?
    requires i < j < |Run(now, ops).acts[id].events|
    requires forall k | i < k <= j :: Run(now, ops).acts[id].events[k].Fired?
    ensures var events := Run(now, ops).acts[id].events;
            Span(events[..i + 1]) > 0 && events[j].at >= events[i].at + Span(events[..i + 1])
  {
    TickerSpansArePositive(now, ops, id, i);
    var c := Run(now, ops);
    assert ActFits(c.acts[id], id in c.pending);
    TicksAreSpaced(c.acts[id].events, i, j);
  }

  /**
   * Written out: between an event of a ticker and any later tick, with no reset in between, lies at least the period
   * that the creation or reset before them has armed it with.
   */
  lemma PeriodBetweenTicks(now: int, ops: seq<Op>, id: nat, m: nat, i: nat, j: nat)
    requires id < |Run(now, ops).acts| && Run(now, ops).acts[id].kind.Ticker?
    requires m <= i < j < |Run(now, ops).acts[id].events| && Run(now, ops).acts[id].events[m].Armed?
    requires forall k | m < k <= j :: Run(now, ops).acts[id].events[k].Fired?
    ensures var events := Run(now, ops).acts[id].events;
            events[m].span > 0 && events[j].at - events[i].at >= events[m].span
  {
    hide Run, Spaced;
    TickerSpacing(now, ops, id, i, j);
    SpanOfArmed(Run(now, ops).acts[id].events, m, i);
  }

  lemma SpanOfArmed(events: seq<Event>, m: nat, i: nat)
    requires m <= i < |events| && events[m].Armed? && forall k | m < k <= i :: events[k].Fired?
    ensures Span(events[..i + 1]) == events[m].span
  {
    SpanStays(events, m, i);
    assert events[..m + 1][m] == events[m];
  }

  /** Every span a ticker was ever armed with is positive. */
  predicate SpansPositive(events: seq<Event>) {
    forall k | 0 <= k < |events| && events[k].Armed? :: events[k].span > 0
  }

  lemma {:induction false} PositiveSpan(events: seq<Event>)
    requires SpansPositive(events) && events != [] && events[0].Armed?
    ensures Span(events) > 0
  {
    if events[|events| - 1].Fired? {
      PositiveSpan(events[..|events| - 1]);
    }
  }

  lemma {:induction false} StartsArmed(events: seq<Event>)
    requires Spaced(events)
    ensures events[0].Armed?
  {
    if |events| > 1 {
      StartsArmed(events[..|events| - 1]);
    }
  }

  lemma {:induction false} TickersStayPositive(now: int, ops: seq<Op>)
    ensures forall id | 0 <= id < |Run(now, ops).acts| ::
              Run(now, ops).acts[id].kind.Ticker? ==> SpansPositive(Run(now, ops).acts[id].events)
  {
    if ops != [] {
      var c, op := Run(now, ops[..|ops| - 1]), ops[|ops| - 1];
      TickersStayPositive(now, ops[..|ops| - 1]);
      hide Run, Inv, ActFits;
      SpansStayPositive(c, op);
    }
  }

  lemma SpansStayPositive(c: Clock, op: Op)
    requires WellIndexed(c)
    requires forall id | 0 <= id < |c.acts| :: c.acts[id].kind.Ticker? ==> SpansPositive(c.acts[id].events)
    ensures forall id | 0 <= id < |Next(c, op).acts| ::
              Next(c, op).acts[id].kind.Ticker? ==> SpansPositive(Next(c, op).acts[id].events)
  {
    hide Survivors, DueOnes, SomeBlocks;
  }

  lemma PrefixPositive(events: seq<Event>, n: nat)
    requires SpansPositive(events) && n <= |events|
    ensures SpansPositive(events[..n])
  {
  }

  lemma TickerSpansArePositive(now: int, ops: seq<Op>, id: nat, i: nat)
    requires id < |Run(now, ops).acts| && Run(now, ops).acts[id].kind.Ticker? && i < |Run(now, ops).acts[id].events|
    ensures Span(Run(now, ops).acts[id].events[..i + 1]) > 0
  {
    var c := Run(now, ops);
    var events := c.acts[id].events;
    assert ActFits(c.acts[id], id in c.pending);
    TickersStayPositive(now, ops);
    StartsArmed(events);
    PrefixPositive(events, i + 1);
    PositiveSpan(events[..i + 1]);
  }

  /** One AdvanceTime publishes at most one tick, however many periods it spans. */
  lemma OneTickPerAdvance(now: int, ops: seq<Op>, d: int, id: nat)
    requires id < |Run(now, ops).acts|
    ensures var before := Run(now, ops).acts[id].events;
            var c := Next(Run(now, ops), DoAdvance(d));
            c.acts[id].events == before || c.acts[id].events == before + [Fired(c.now)]
  {
    hide Run, Inv, ActFits, DueOnes, Survivors, SomeBlocks;
  }

  /** After AdvanceTime, what is still pending lies strictly in the future, or is a ticker whose tick is unread. */
  lemma AdvanceLeavesTheFuture(now: int, ops: seq<Op>, d: int, id: nat)
    requires id in Next(Run(now, ops), DoAdvance(d)).pending
    ensures var c := Next(Run(now, ops), DoAdvance(d));
            && id < |c.acts|
            && (c.acts[id].due > c.now || (c.acts[id].kind.Ticker? && c.acts[id].buffer.Some? && !c.acts[id].stopped))
  {
    var c := Run(now, ops);
    hide Run, ActFits, AdvanceActs, DueOnes, Survivors, SomeBlocks;
    SurvivorsAre(c.acts, c.pending, c.now + d, id);
  }

  /** Due actions are visited, and survivors kept, in the order they were scheduled. */
  lemma AdvanceKeepsOrder(now: int, ops: seq<Op>, d: int)
    ensures var c := Run(now, ops);
            var t := Next(c, DoAdvance(d));
            && |c.visits| <= |t.visits| && t.visits[..|c.visits|] == c.visits
            && Ascending(t.visits[|c.visits|..])
            && (forall id: nat :: id in t.visits[|c.visits|..] <==> id in c.pending && c.acts[id].due <= t.now)
            && Ascending(t.pending)
            && (forall id: nat :: id in t.pending <==> id in c.pending && Stays(c.acts[id], t.now))
  {
    var c := Run(now, ops);
    hide Run, ActFits, AdvanceActs, SomeBlocks;
    var t := Next(c, DoAdvance(d));
    var due := DueOnes(c.acts, c.pending, t.now);
    SurvivorsAscend(c.acts, c.pending, t.now);
    assert t.visits == c.visits + due;
    assert t.visits[|c.visits|..] == due;
    forall id: nat ensures id in due <==> id in c.pending && c.acts[id].due <= t.now {
      SurvivorsAre(c.acts, c.pending, t.now, id);
    }
    forall id: nat ensures id in t.pending <==> id in c.pending && Stays(c.acts[id], t.now) {
      SurvivorsAre(c.acts, c.pending, t.now, id);
    }
  }
}
