/** common/clock/deterministic.go and common/clock/advancing.go: the code, against the functions of ClockModel. */
module DeterministicClocks {
  import opened Prelude
  import Model = ClockModel

  /** A one-shot with a buffered channel: After. */
  class Task {
    const due: int
    const span: int
    var buffer: Option<int>
    var closed: bool
    ghost var events: seq<Model.Event>

    constructor (now: int, d: int)
      ensures AsAct() == Model.NewAct(Model.Task, now, d)
    {
      due, span, buffer, closed := now + d, d, None, false;
      events := [Model.Armed(now, d)];
    }

    ghost function AsAct(): Model.Act
      reads this
    {
      Model.Act(Model.Task, due, span, buffer, closed, false, false, 0, false, events)
    }

    predicate IsDue(now: int)
      ensures IsDue(now) <==> Model.IsDue(AsAct(), now)
      reads this
    {
      due <= now
    }

    /** The send needs a free slot of an open channel: otherwise it would block, or panic. */
    method Fire(now: int) returns (again: bool)
      requires !Model.Blocks(AsAct())
      modifies this
      ensures AsAct() == Model.FireAct(old(AsAct()), now) && again == Model.FireKeeps(old(AsAct()))
    {
      buffer := Some(now);
      closed := true;
      events := events + [Model.Fired(now)];
      return false;
    }

    /** A receive by the owner of the channel; None when there is nothing to read. */
    method Receive() returns (r: Option<int>)
      modifies this
      ensures r == old(buffer) && AsAct() == old(AsAct()).(buffer := None)
    {
      r, buffer := buffer, None;
    }
  }

  /** AfterFunc and NewTimer: `callbacks` counts the runs of an opaque function, a channel timer sends instead. */
  class Timer {
    const hasChannel: bool
    const due: int
    const span: int
    var buffer: Option<int>
    var callbacks: nat
    var stopped: bool
    var run: bool
    ghost var stopTrue: bool
    ghost var events: seq<Model.Event>

    constructor (hasChannel: bool, now: int, d: int)
      ensures AsAct() == Model.NewAct(if hasChannel then Model.Timer else Model.Callback, now, d)
      ensures callbacks == 0
    {
      this.hasChannel := hasChannel;
      due, span, buffer, callbacks, stopped, run := now + d, d, None, 0, false, false;
      stopTrue, events := false, [Model.Armed(now, d)];
    }

    ghost function AsAct(): Model.Act
      reads this
    {
      Model.Act(if hasChannel then Model.Timer else Model.Callback, due, span, buffer, false,
                stopped, run, callbacks, stopTrue, events)
    }

    predicate IsDue(now: int)
      ensures IsDue(now) <==> Model.IsDue(AsAct(), now)
      reads this
    {
      due <= now
    }

    method Fire(now: int) returns (again: bool)
      requires !Model.Blocks(AsAct())
      modifies this
      ensures AsAct() == Model.FireAct(old(AsAct()), now) && again == Model.FireKeeps(old(AsAct()))
      ensures callbacks == old(callbacks) + if !hasChannel && !old(stopped) then 1 else 0
    {
      if !stopped {
        if hasChannel {
          buffer := Some(now);
        } else {
          callbacks := callbacks + 1;
        }
        run := true;
        events := events + [Model.Fired(now)];
      }
      return false;
    }

    method Stop() returns (r: bool)
      modifies this
      ensures r == Model.StopReturns(old(AsAct())) && AsAct() == Model.StopAct(old(AsAct()))
      ensures callbacks == old(callbacks)
    {
      r := !stopped && !run;
      stopTrue := stopTrue || r;
      stopped := true;
    }

    method Receive() returns (r: Option<int>)
      modifies this
      ensures r == old(buffer) && AsAct() == old(AsAct()).(buffer := None) && callbacks == old(callbacks)
    {
      r, buffer := buffer, None;
    }
  }

  class Ticker {
    var buffer: Option<int>
    var nextDue: int
    var period: int
    var stopped: bool
    ghost var events: seq<Model.Event>

    constructor (now: int, d: int)
      requires d > 0
      ensures AsAct() == Model.NewAct(Model.Ticker, now, d)
    {
      buffer, nextDue, period, stopped := None, now + d, d, false;
      events := [Model.Armed(now, d)];
    }

    ghost function AsAct(): Model.Act
      reads this
    {
      Model.Act(Model.Ticker, nextDue, period, buffer, false, stopped, false, 0, false, events)
    }

    predicate IsDue(now: int)
      ensures IsDue(now) <==> Model.IsDue(AsAct(), now)
      reads this
    {
      nextDue <= now
    }

    /** Publishes without blocking; the due time moves only when the tick is published. */
    method Fire(now: int) returns (again: bool)
      modifies this
      ensures AsAct() == Model.FireAct(old(AsAct()), now) && again == Model.FireKeeps(old(AsAct()))
    {
      if stopped {
        return false;
      }
      if buffer.None? {
        buffer := Some(now);
        nextDue := now + period;
        events := events + [Model.Fired(now)];
      }
      return true;
    }

    method Stop()
      modifies this
      ensures AsAct() == Model.StopAct(old(AsAct()))
    {
      stopped := true;
    }

    /** A period that is not positive panics and changes nothing. */
    method Reset(clockNow: int, d: int) returns (panicked: bool)
      modifies this
      ensures panicked <==> d <= 0
      ensures AsAct() == if d <= 0 then old(AsAct()) else Model.ResetAct(old(AsAct()), clockNow, d)
    {
      if d <= 0 {
        return true;
      }
      period := d;
      nextDue := clockNow + d;
      events := events + [Model.Armed(clockNow, d)];
      return false;
    }

    method Receive() returns (r: Option<int>)
      modifies this
      ensures r == old(buffer) && AsAct() == old(AsAct()).(buffer := None)
    {
      r, buffer := buffer, None;
    }
  }

  /** The action interface. */
  datatype Action = ATask(task: Task) | ATimer(timer: Timer) | ATicker(ticker: Ticker)
  {
    function Obj(): object {
      match this
      case ATask(t) => t
      case ATimer(t) => t
      case ATicker(t) => t
    }

    ghost function AsAct(): Model.Act
      reads Obj()
    {
      match this
      case ATask(t) => t.AsAct()
      case ATimer(t) => t.AsAct()
      case ATicker(t) => t.AsAct()
    }
  }

  ghost function Objects(actions: seq<Action>): set<object> {
    set i | 0 <= i < |actions| :: actions[i].Obj()
  }

  ghost function Acts(actions: seq<Action>): (acts: seq<Model.Act>)
    reads Objects(actions)
    ensures |acts| == |actions|
    ensures forall i | 0 <= i < |actions| :: acts[i] == actions[i].AsAct()
  {
    seq(|actions|, i requires 0 <= i < |actions| reads Objects(actions) => actions[i].AsAct())
  }

  /** The actions that AdvanceTime keeps, in their order. */
  ghost function Kept(actions: seq<Action>, acts: seq<Model.Act>, now: int): seq<Action>
    requires |acts| == |actions|
  {
    if actions == [] then []
    else
      var n := |actions| - 1;
      Kept(actions[..n], acts[..n], now) + (if Model.Stays(acts[n], now) then [actions[n]] else [])
  }

  /** The actions that AdvanceTime fires, in the order it visits them. */
  ghost function Due(actions: seq<Action>, acts: seq<Model.Act>, now: int): seq<Action>
    requires |acts| == |actions|
  {
    if actions == [] then []
    else
      var n := |actions| - 1;
      Due(actions[..n], acts[..n], now) + (if Model.IsDue(acts[n], now) then [actions[n]] else [])
  }

  lemma {:induction false} KeptAreActions(actions: seq<Action>, acts: seq<Model.Act>, now: int)
    requires |acts| == |actions|
    ensures forall a | a in Kept(actions, acts, now) ::
              exists i | 0 <= i < |actions| :: actions[i] == a && Model.Stays(acts[i], now)
  {
    if actions != [] {
      var n := |actions| - 1;
      KeptAreActions(actions[..n], acts[..n], now);
      forall a | a in Kept(actions, acts, now)
        ensures exists i | 0 <= i < |actions| :: actions[i] == a && Model.Stays(acts[i], now)
      {
        if a in Kept(actions[..n], acts[..n], now) {
          var i :| 0 <= i < n && actions[..n][i] == a && Model.Stays(acts[..n][i], now);
          assert actions[i] == a;
        } else {
          assert actions[n] == a;
        }
      }
    }
  }

  lemma {:induction false} KeptStayDistinct(actions: seq<Action>, acts: seq<Model.Act>, now: int)
    requires |acts| == |actions| && Distinct(actions)
    ensures Distinct(Kept(actions, acts, now))
  {
    if actions != [] {
      var n := |actions| - 1;
      KeptStayDistinct(actions[..n], acts[..n], now);
      KeptAreActions(actions[..n], acts[..n], now);
      var init := Kept(actions[..n], acts[..n], now);
      forall k | 0 <= k < |init| ensures init[k].Obj() != actions[n].Obj() {
        assert init[k] in init;
        var i :| 0 <= i < n && actions[..n][i] == init[k] && Model.Stays(acts[..n][i], now);
        assert actions[i].Obj() != actions[n].Obj();
      }
    }
  }

  lemma KeptFit(o: object, actions: seq<Action>, acts: seq<Model.Act>, now: int)
    requires |acts| == |actions| && Distinct(actions) && o !in Objects(actions)
    requires forall i | 0 <= i < |actions| ::
               Model.ActFits(acts[i], true) && actions[i].AsAct() == Model.Advanced(acts[i], now)
    ensures var kept := Kept(actions, acts, now);
            && Distinct(kept) && o !in Objects(kept)
            && forall k | 0 <= k < |kept| :: Model.ActFits(kept[k].AsAct(), true)
  {
    hide Model.Advanced, Model.Stays, Model.ActFits, Action.AsAct;
    KeptAreActions(actions, acts, now);
    KeptStayDistinct(actions, acts, now);
    var kept := Kept(actions, acts, now);
    forall k | 0 <= k < |kept| ensures Model.ActFits(kept[k].AsAct(), true) && kept[k].Obj() != o {
      assert kept[k] in kept;
      var j :| 0 <= j < |actions| && actions[j] == kept[k] && Model.Stays(acts[j], now);
      Model.AdvancedActFits(acts[j], true, now);
    }
  }

  ghost predicate Distinct(actions: seq<Action>) {
    forall i, j | 0 <= i < j < |actions| :: actions[i].Obj() != actions[j].Obj()
  }

  class DeterministicClock {
    var now: int
    var pending: seq<Action>
    ghost var visits: seq<Action>     // the fire calls so far

    constructor (now: int)
      ensures this.now == now && pending == [] && visits == [] && Valid()
    {
      this.now, pending, visits := now, [], [];
    }

    /** Pending actions are different objects, and none of their sends can block. */
    ghost predicate Valid()
      reads this, Objects(pending)
    {
      && Distinct(pending)
      && this !in Objects(pending)
      && forall i | 0 <= i < |pending| :: Model.ActFits(pending[i].AsAct(), true)
    }

    method After(d: int) returns (t: Task)
      requires Valid()
      modifies this
      ensures Valid() && now == old(now) && fresh(t)
      ensures var a := Model.NewAct(Model.Task, now, d);
              t.AsAct() == (if d == 0 then Model.FireAct(a, now) else a)
      ensures pending == old(pending) + (if d == 0 then [] else [ATask(t)])
      ensures visits == old(visits) + (if d == 0 then [ATask(t)] else [])
    {
      hide Model.ActFits, Model.FireAct;
      t := new Task(now, d);
      Model.NewActFits(Model.Task, now, d);
      if d == 0 {
        var again := t.Fire(now);
        visits := visits + [ATask(t)];
      } else {
        pending := pending + [ATask(t)];
      }
    }

    method AfterFunc(d: int) returns (t: Timer)
      requires Valid()
      modifies this
      ensures Valid() && now == old(now) && fresh(t)
      ensures var a := Model.NewAct(Model.Callback, now, d);
              t.AsAct() == (if d == 0 then Model.FireAct(a, now) else a)
      ensures pending == old(pending) + (if d == 0 then [] else [ATimer(t)])
      ensures visits == old(visits) + (if d == 0 then [ATimer(t)] else [])
    {
      hide Model.ActFits, Model.FireAct;
      t := new Timer(false, now, d);
      Model.NewActFits(Model.Callback, now, d);
      if d == 0 {
        var again := t.Fire(now);
        visits := visits + [ATimer(t)];
      } else {
        pending := pending + [ATimer(t)];
      }
    }

    method NewTimer(d: int) returns (t: Timer)
      requires Valid()
      modifies this
      ensures Valid() && now == old(now) && fresh(t)
      ensures t.AsAct() == Model.NewAct(Model.Timer, now, d) && pending == old(pending) + [ATimer(t)]
      ensures visits == old(visits)
    {
      t := new Timer(true, now, d);
      Model.NewActFits(Model.Timer, now, d);
      hide Model.ActFits;
      pending := pending + [ATimer(t)];
    }

    /** No ticker, and no change, when the period is not positive: the code panics. */
    method NewTicker(d: int) returns (t: Ticker?)
      requires Valid()
      modifies this
      ensures Valid() && now == old(now)
      ensures t == null <==> d <= 0
      ensures visits == old(visits) && (t == null ==> pending == old(pending))
      ensures t != null ==> fresh(t) && t.AsAct() == Model.NewAct(Model.Ticker, now, d)
                            && pending == old(pending) + [ATicker(t)]
    {
      if d <= 0 {
        return null;
      }
      var ticker := new Ticker(now, d);
      Model.NewActFits(Model.Ticker, now, d);
      hide Model.ActFits;
      pending := pending + [ATicker(ticker)];
      return ticker;
    }

    /** Moves time and fires what is due, in order; no send of it blocks. */
    method AdvanceTime(d: int)
      requires Valid()
      modifies this, Objects(pending)
      ensures Valid() && now == old(now) + d
      ensures visits == old(visits) + Due(old(pending), old(Acts(pending)), now)
      ensures forall i | 0 <= i < |old(pending)| ::
                old(pending)[i].AsAct() == Model.Advanced(old(Acts(pending))[i], now)
      ensures pending == Kept(old(pending), old(Acts(pending)), now)
    {
      hide Model.ActFits, Model.Blocks, Model.Advanced, Model.Stays, Model.IsDue, Kept, Due;
      now := now + d;
      ghost var acts := Acts(pending);
      forall i | 0 <= i < |pending| && Model.IsDue(pending[i].AsAct(), now) ensures !Model.Blocks(pending[i].AsAct()) {
        Model.AdvancedActFits(acts[i], true, now);
      }
      var remaining, visited := FireAll(pending, now);
      KeptFit(this, pending, acts, now);
      pending, visits := remaining, visits + visited;
    }

    /** The loop of AdvanceTime. */
    static method FireAll(actions: seq<Action>, now: int) returns (remaining: seq<Action>, ghost visited: seq<Action>)
      requires Distinct(actions)
      requires forall i | 0 <= i < |actions| && Model.IsDue(actions[i].AsAct(), now) ::
                 !Model.Blocks(actions[i].AsAct())
      modifies Objects(actions)
      ensures forall i | 0 <= i < |actions| :: actions[i].AsAct() == Model.Advanced(old(Acts(actions))[i], now)
      ensures remaining == Kept(actions, old(Acts(actions)), now)
      ensures visited == Due(actions, old(Acts(actions)), now)
    {
      ghost var acts := Acts(actions);
      hide Model.Advanced, Model.Stays, Model.IsDue, Model.Blocks, Kept, Due, Action.AsAct;
      assert Kept(actions[..0], acts[..0], now) == [] && Due(actions[..0], acts[..0], now) == []
        by { KeptNothing(now); }
      remaining, visited := [], [];
      var i := 0;
      while i < |actions|
        invariant 0 <= i <= |actions|
        invariant forall j | 0 <= j < i :: actions[j].AsAct() == Model.Advanced(acts[j], now)
        invariant forall j | i <= j < |actions| :: actions[j].AsAct() == acts[j]
        invariant remaining == Kept(actions[..i], acts[..i], now)
        invariant visited == Due(actions[..i], acts[..i], now)
      {
        assert actions[i].AsAct() == acts[i];
        var stays := FireIfDue(actions[i], now);
        KeptStep(actions, acts, now, i);
        if Model.IsDue(acts[i], now) {
          visited := visited + [actions[i]];
        }
        if stays {
          remaining := remaining + [actions[i]];
        }
        i := i + 1;
      }
      assert actions[..i] == actions && acts[..i] == acts;
    }

    static lemma KeptNothing(now: int)
      ensures Kept([], [], now) == [] && Due([], [], now) == []
    {
    }

    static lemma KeptStep(actions: seq<Action>, acts: seq<Model.Act>, now: int, i: nat)
      requires |acts| == |actions| && i < |actions|
      ensures Kept(actions[..i + 1], acts[..i + 1], now)
              == Kept(actions[..i], acts[..i], now) + (if Model.Stays(acts[i], now) then [actions[i]] else [])
      ensures Due(actions[..i + 1], acts[..i + 1], now)
              == Due(actions[..i], acts[..i], now) + (if Model.IsDue(acts[i], now) then [actions[i]] else [])
    {
      assert actions[..i + 1][..i] == actions[..i] && acts[..i + 1][..i] == acts[..i];
    }

    /** !a.isDue(now) || a.fire(now) */
    static method FireIfDue(a: Action, now: int) returns (stays: bool)
      requires Model.IsDue(a.AsAct(), now) ==> !Model.Blocks(a.AsAct())
      modifies a.Obj()
      ensures a.AsAct() == Model.Advanced(old(a.AsAct()), now)
      ensures stays == Model.Stays(old(a.AsAct()), now)
    {
      stays := true;
      match a {
        case ATask(t) =>
          if t.IsDue(now) { stays := t.Fire(now); }
        case ATimer(t) =>
          if t.IsDue(now) { stays := t.Fire(now); }
        case ATicker(t) =>
          if t.IsDue(now) { stays := t.Fire(now); }
      }
    }
  }

  // ---------------------------------------------------------------------------------------------
  // The advancing clock
  // ---------------------------------------------------------------------------------------------

  class AdvancingClock {
    const clock: DeterministicClock
    var lastTick: int
    var running: bool

    constructor (clock: DeterministicClock, lastTick: int)
      ensures this.clock == clock && this.lastTick == lastTick && !running
    {
      this.clock, this.lastTick, running := clock, lastTick, false;
    }

    method Start()
      modifies this
      ensures running && lastTick == old(lastTick)
    {
      if !running {
        running := true;
      }
    }

    method Stop()
      modifies this
      ensures !running && lastTick == old(lastTick)
    {
      if running {
        running := false;
      }
    }

    method OnTick(now: int)
      requires clock.Valid() && this !in Objects(clock.pending)
      modifies this, clock, Objects(clock.pending)
      ensures clock.Valid() && running == old(running) && Objects(clock.pending) <= old(Objects(clock.pending))
      ensures AsDrift() == AfterTick(old(AsDrift()), now)
    {
      if now <= lastTick {
        return;
      }
      var advanceBy := now - lastTick;
      KeptObjects(clock.pending, Acts(clock.pending), clock.now + advanceBy);
      clock.AdvanceTime(advanceBy);
      lastTick := now;
    }

    function AsDrift(): Drift
      reads this, clock
    {
      Drift(clock.now, lastTick)
    }
  }

  datatype Drift = Drift(now: int, lastTick: int)

  /** A tick of the system clock; a stale one is ignored. */
  function AfterTick(s: Drift, tick: int): Drift {
    if tick <= s.lastTick then s else Drift(s.now + (tick - s.lastTick), tick)
  }

  datatype ClockOp = OpStart | OpStop | OpTick(tick: int) | OpAdvance(d: int)

  function After(s: Drift, op: ClockOp): Drift {
    match op
    case OpStart => s
    case OpStop => s
    case OpTick(tick) => AfterTick(s, tick)
    case OpAdvance(d) => s.(now := s.now + d)
  }

  function AfterAll(s: Drift, ops: seq<ClockOp>): Drift {
    if ops == [] then s else After(AfterAll(s, ops[..|ops| - 1]), ops[|ops| - 1])
  }

  function Explicit(ops: seq<ClockOp>): int {
    if ops == [] then 0
    else Explicit(ops[..|ops| - 1]) + (match ops[|ops| - 1] case OpAdvance(d) => d case _ => 0)
  }

  function LatestTick(start: int, ops: seq<ClockOp>): int {
    if ops == [] then start
    else
      var t := LatestTick(start, ops[..|ops| - 1]);
      match ops[|ops| - 1] case OpTick(tick) => (if tick > t then tick else t) case _ => t
  }

  /** However starts, stops, ticks and explicit advances mix, the clock follows the latest tick seen, without drift. */
  lemma {:induction false} NoDrift(s: Drift, ops: seq<ClockOp>)
    ensures var t := AfterAll(s, ops);
            && t.lastTick == LatestTick(s.lastTick, ops) >= s.lastTick
            && t.now - s.now == (t.lastTick - s.lastTick) + Explicit(ops)
  {
    if ops != [] {
      NoDrift(s, ops[..|ops| - 1]);
    }
  }

  lemma KeptObjects(actions: seq<Action>, acts: seq<Model.Act>, now: int)
    requires |acts| == |actions|
    ensures Objects(Kept(actions, acts, now)) <= Objects(actions)
  {
    KeptAreActions(actions, acts, now);
    var kept := Kept(actions, acts, now);
    forall k | 0 <= k < |kept| ensures kept[k].Obj() in Objects(actions) {
      assert kept[k] in kept;
    }
  }

  /**
   * The code under any mix of starts, stops, system ticks and explicit advances follows the system clock without
   * drift.
   */
  method Drive(c: AdvancingClock, ops: seq<ClockOp>)
    requires c.clock.Valid() && c !in Objects(c.clock.pending)
    modifies c, c.clock, Objects(c.clock.pending)
    ensures c.clock.Valid() && c.AsDrift() == AfterAll(old(c.AsDrift()), ops)
    ensures c.clock.now - old(c.clock.now) == (c.lastTick - old(c.lastTick)) + Explicit(ops)
  {
    var i := 0;
    while i < |ops|
      invariant 0 <= i <= |ops|
      invariant c.clock.Valid() && Objects(c.clock.pending) <= old(Objects(c.clock.pending))
      invariant c.AsDrift() == AfterAll(old(c.AsDrift()), ops[..i])
    {
      assert ops[..i + 1][..i] == ops[..i];
      Act(c, ops[i]);
      i := i + 1;
    }
    assert ops[..i] == ops;
    NoDrift(old(c.AsDrift()), ops);
  }

  method Act(c: AdvancingClock, op: ClockOp)
    requires c.clock.Valid() && c !in Objects(c.clock.pending)
    modifies c, c.clock, Objects(c.clock.pending)
    ensures c.clock.Valid() && Objects(c.clock.pending) <= old(Objects(c.clock.pending))
    ensures c.AsDrift() == After(old(c.AsDrift()), op)
  {
    ghost var actions, acts := c.clock.pending, Acts(c.clock.pending);
    match op {
      case OpStart => c.Start();
      case OpStop => c.Stop();
      case OpTick(tick) =>
        c.OnTick(tick);
      case OpAdvance(d) =>
        KeptObjects(actions, acts, c.clock.now + d);
        c.clock.AdvanceTime(d);
    }
  }
}
