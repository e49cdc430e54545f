/** The code of DeterministicClock.dfy plays every sequence of calls exactly as ClockModel runs it. */
module ClockRefinement {
  import opened Prelude
  import opened DeterministicClocks
  import Model = ClockModel

  /** `all` lists the actions ever made; the clock holds those the model indexes, and each looks as the model says. */
  ghost predicate Agrees(clock: DeterministicClock, all: seq<Action>, m: Model.Clock)
    reads clock, Objects(all)
  {
    && Distinct(all) && clock !in Objects(all)
    && clock.now == m.now
    && Acts(all) == m.acts
    && Pick(all, m.pending) == Some(clock.pending)
    && Pick(all, m.visits) == Some(clock.visits)
  }

  /** The actions at the given positions. */
  ghost function Pick(all: seq<Action>, ids: seq<nat>): Option<seq<Action>> {
    if ids == [] then Some([])
    else
      var init, id := Pick(all, ids[..|ids| - 1]), ids[|ids| - 1];
      if init.Some? && id < |all| then Some(init.value + [all[id]]) else None
  }

  lemma {:induction false} PickAt(all: seq<Action>, ids: seq<nat>, k: nat)
    requires Pick(all, ids).Some? && k < |ids|
    ensures |Pick(all, ids).value| == |ids| && ids[k] < |all| && Pick(all, ids).value[k] == all[ids[k]]
  {
    if k < |ids| - 1 {
      PickAt(all, ids[..|ids| - 1], k);
    } else if |ids| > 1 {
      PickAt(all, ids[..|ids| - 1], 0);
    }
  }

  lemma PickOneMore(all: seq<Action>, ids: seq<nat>, id: nat)
    requires Pick(all, ids).Some? && id < |all|
    ensures Pick(all, ids + [id]) == Some(Pick(all, ids).value + [all[id]])
  {
    assert (ids + [id])[..|ids|] == ids;
  }

  lemma {:induction false} PickInTwo(all: seq<Action>, a: seq<nat>, b: seq<nat>)
    requires Pick(all, a).Some? && Pick(all, b).Some?
    ensures Pick(all, a + b) == Some(Pick(all, a).value + Pick(all, b).value)
  {
    if b == [] {
      assert a + b == a && Pick(all, a).value + [] == Pick(all, a).value;
    } else {
      var n := |b| - 1;
      PickInTwo(all, a, b[..n]);
      assert a + b == (a + b[..n]) + [b[n]];
      PickOneMore(all, a + b[..n], b[n]);
      AppendAssociates(Pick(all, a).value, Pick(all, b[..n]).value, [all[b[n]]]);
    }
  }

  /** An action made later does not move the earlier ones. */
  lemma {:induction false} PickAmongMore(all: seq<Action>, x: Action, ids: seq<nat>)
    requires Pick(all, ids).Some?
    ensures Pick(all + [x], ids) == Pick(all, ids)
  {
    if ids != [] {
      PickAmongMore(all, x, ids[..|ids| - 1]);
    }
  }

  /** Keeping and firing actions, and keeping and firing their positions, is the same. */
  lemma {:induction false} KeptIsSurvivors(all: seq<Action>, ids: seq<nat>, acts: seq<Model.Act>, actions: seq<Action>,
                                           views: seq<Model.Act>, now: int)
    requires |all| == |acts| && Pick(all, ids) == Some(actions)
             && |views| == |actions| == |ids| && Model.Indexes(ids, acts)
    requires forall k | 0 <= k < |ids| :: views[k] == acts[ids[k]]
    ensures Pick(all, Model.Survivors(acts, ids, now)) == Some(Kept(actions, views, now))
    ensures Pick(all, Model.DueOnes(acts, ids, now)) == Some(Due(actions, views, now))
  {
    if ids != [] {
      var n := |ids| - 1;
      hide Model.Stays, Model.IsDue;
      assert actions[..n] == Pick(all, ids[..n]).value && actions[n] == all[ids[n]];
      KeptIsSurvivors(all, ids[..n], acts, actions[..n], views[..n], now);
      var init := Model.Survivors(acts, ids[..n], now);
      assert Kept(actions, views, now)
             == Kept(actions[..n], views[..n], now) + (if Model.Stays(views[n], now) then [actions[n]] else []);
      assert Kept(actions[..n], views[..n], now) + [] == Kept(actions[..n], views[..n], now);
      assert Due(actions[..n], views[..n], now) + [] == Due(actions[..n], views[..n], now);
      PickOneMore(all, init, ids[n]);
      PickOneMore(all, Model.DueOnes(acts, ids[..n], now), ids[n]);
    }
  }

  /** AdvanceTime, seen from all actions ever made: those that are pending advance, the others are left alone. */
  method AdvanceAmong(clock: DeterministicClock, d: int, ghost all: seq<Action>, ghost ids: seq<nat>)
    requires clock.Valid() && Distinct(all) && clock !in Objects(all) && Pick(all, ids) == Some(clock.pending)
    modifies clock, Objects(clock.pending)
    ensures clock.Valid() && clock.now == old(clock.now) + d
    ensures Acts(all) == Model.AdvanceActs(old(Acts(all)), ids, clock.now)
    ensures clock.pending == Kept(old(clock.pending), old(Acts(clock.pending)), clock.now)
    ensures clock.visits == old(clock.visits) + Due(old(clock.pending), old(Acts(clock.pending)), clock.now)
  {
    ghost var actions, acts, views := clock.pending, Acts(all), Acts(clock.pending);
    PickedAll(all, ids, actions);
    hide Model.Advanced, Model.ActFits, Kept, Due, Pick, Action.AsAct, Action.Obj,
         DeterministicClock.Valid, Model.AdvanceActs;
    assert forall k | 0 <= k < |ids| :: views[k] == acts[ids[k]];
    forall i | 0 <= i < |all| && i !in ids ensures all[i].Obj() !in Objects(actions) && all[i].Obj() != clock {
      NotPicked(all, ids, actions, i);
    }
    hide Objects, Distinct, Acts;
    clock.AdvanceTime(d);
    ghost var after := Acts(all);
    forall k | 0 <= k < |ids| ensures after[ids[k]] == Model.Advanced(views[k], clock.now) {
      assert actions[k].AsAct() == Model.Advanced(views[k], clock.now);
    }
    forall i | 0 <= i < |all| && i !in ids ensures after[i] == acts[i] {
      ghost var o := all[i].Obj();
      assert o !in Objects(actions) && o != clock;
      assert unchanged(o);
      Untouched(all[i]);
    }
    ByPosition(acts, after, ids, clock.now);
  }

  twostate lemma Untouched(a: Action)
    requires unchanged(a.Obj())
    ensures a.AsAct() == old(a.AsAct())
  {
  }

  lemma ByPosition(acts: seq<Model.Act>, after: seq<Model.Act>, ids: seq<nat>, now: int)
    requires |after| == |acts| && Model.Indexes(ids, acts)
    requires forall k | 0 <= k < |ids| :: after[ids[k]] == Model.Advanced(acts[ids[k]], now)
    requires forall i | 0 <= i < |acts| && i !in ids :: after[i] == acts[i]
    ensures after == Model.AdvanceActs(acts, ids, now)
  {
    hide Model.Advanced;
    forall i | 0 <= i < |acts| ensures after[i] == Model.AdvanceActs(acts, ids, now)[i] {
      if i in ids {
        var k :| 0 <= k < |ids| && ids[k] == i;
        assert after[ids[k]] == Model.Advanced(acts[ids[k]], now);
      }
    }
  }

  /** AdvanceTime is the step of the transition system. */
  method AdvanceSimulates(clock: DeterministicClock, d: int, ghost all: seq<Action>, ghost m: Model.Clock)
    requires clock.Valid() && Agrees(clock, all, m) && Model.Inv(m)
    modifies clock, Objects(clock.pending)
    ensures clock.Valid() && Agrees(clock, all, Model.Next(m, Model.DoAdvance(d)))
  {
    hide Model.Next, Model.Advanced, Model.ActFits, Kept, Due, Pick, Action.AsAct, Distinct, Acts,
         Model.Survivors, Model.DueOnes,
         Model.AdvanceActs, Ascending;
    AdvanceFields(m, d);
    KeptPick(clock, all, m, m.now + d);
    PickInTwo(all, m.visits, Model.DueOnes(m.acts, m.pending, m.now + d));
    hide Model.Inv, DeterministicClock.Valid;
    AdvanceAmong(clock, d, all, m.pending);
  }

  lemma KeptPick(clock: DeterministicClock, all: seq<Action>, m: Model.Clock, now: int)
    requires Agrees(clock, all, m) && Model.WellIndexed(m)
    ensures Pick(all, Model.Survivors(m.acts, m.pending, now)) == Some(Kept(clock.pending, Acts(clock.pending), now))
    ensures Pick(all, Model.DueOnes(m.acts, m.pending, now)) == Some(Due(clock.pending, Acts(clock.pending), now))
  {
    hide Action.AsAct, Kept, Due, Model.Survivors, Model.DueOnes, Pick, Distinct;
    PickedAll(all, m.pending, clock.pending);
    forall k | 0 <= k < |m.pending| ensures Acts(clock.pending)[k] == m.acts[m.pending[k]] {
      assert Acts(all)[m.pending[k]] == all[m.pending[k]].AsAct();
    }
    KeptIsSurvivors(all, m.pending, m.acts, clock.pending, Acts(clock.pending), now);
  }

  lemma AdvanceFields(m: Model.Clock, d: int)
    requires Model.WellIndexed(m)
    ensures var t := Model.Next(m, Model.DoAdvance(d));
            && t.now == m.now + d
            && t.acts == Model.AdvanceActs(m.acts, m.pending, m.now + d)
            && t.pending == Model.Survivors(m.acts, m.pending, m.now + d)
            && t.visits == m.visits + Model.DueOnes(m.acts, m.pending, m.now + d)
  {
  }

  lemma NotPicked(all: seq<Action>, ids: seq<nat>, actions: seq<Action>, i: nat)
    requires Distinct(all) && i < |all| && i !in ids && |actions| == |ids|
    requires forall k | 0 <= k < |ids| :: ids[k] < |all| && actions[k] == all[ids[k]]
    ensures all[i].Obj() !in Objects(actions)
  {
    forall k | 0 <= k < |actions| ensures actions[k].Obj() != all[i].Obj() {
      assert ids[k] != i;
    }
  }

  lemma PickedAll(all: seq<Action>, ids: seq<nat>, actions: seq<Action>)
    requires Pick(all, ids) == Some(actions)
    ensures |actions| == |ids| && forall k | 0 <= k < |ids| :: ids[k] < |all| && actions[k] == all[ids[k]]
  {
    forall k | 0 <= k < |ids| ensures |actions| == |ids| && ids[k] < |all| && actions[k] == all[ids[k]] {
      PickAt(all, ids, k);
    }
  }

  /** Whatever agrees with a state the model can reach is a well-formed clock. */
  lemma AgreeingIsValid(clock: DeterministicClock, all: seq<Action>, m: Model.Clock)
    requires Agrees(clock, all, m) && Model.Inv(m)
    ensures clock.Valid() && Objects(clock.pending) <= Objects(all)
  {
    hide Action.AsAct, Model.ActFits, Pick;
    PickedAll(all, m.pending, clock.pending);
    forall k | 0 <= k < |clock.pending|
      ensures Model.ActFits(clock.pending[k].AsAct(), true) && clock.pending[k].Obj() in Objects(all)
    {
      assert Acts(all)[m.pending[k]] == clock.pending[k].AsAct();
      assert m.pending[k] in m.pending;
    }
  }

  /** A new action that joins the pending ones. */
  lemma ScheduleAgrees(clock: DeterministicClock, all: seq<Action>, x: Action, before: seq<Action>, m: Model.Clock)
    requires Distinct(all + [x]) && clock !in Objects(all + [x]) && clock.now == m.now
    requires Acts(all) == m.acts && Pick(all, m.pending) == Some(before) && Pick(all, m.visits) == Some(clock.visits)
    requires clock.pending == before + [x]
    ensures Agrees(clock, all + [x], Model.Schedule(m, x.AsAct()))
  {
    hide Action.AsAct, Pick, Distinct;
    PickAmongMore(all, x, m.pending);
    PickAmongMore(all, x, m.visits);
    PickOneMore(all + [x], m.pending, |all|);
    assert Acts(all + [x]) == m.acts + [x.AsAct()];
  }

  /** A new action that fires at once and never becomes pending. */
  lemma FireAtOnceAgrees(clock: DeterministicClock, all: seq<Action>, x: Action, before: seq<Action>, m: Model.Clock,
                         a: Model.Act)
    requires Distinct(all + [x]) && clock !in Objects(all + [x]) && clock.now == m.now
    requires Acts(all) == m.acts && Pick(all, m.pending) == Some(clock.pending) && Pick(all, m.visits) == Some(before)
    requires clock.visits == before + [x] && x.AsAct() == Model.FireAct(a, m.now)
    ensures Agrees(clock, all + [x], Model.FireAtOnce(m, a))
  {
    hide Action.AsAct, Pick, Distinct;
    PickAmongMore(all, x, m.pending);
    PickAmongMore(all, x, m.visits);
    PickOneMore(all + [x], m.visits, |all|);
    assert Acts(all + [x]) == m.acts + [x.AsAct()];
  }

  lemma NewIsDistinct(all: seq<Action>, x: Action)
    requires Distinct(all) && x.Obj() !in Objects(all)
    ensures Distinct(all + [x])
  {
    hide Action.Obj;
    forall i | 0 <= i < |all| ensures all[i].Obj() != x.Obj() {
      assert all[i].Obj() in Objects(all);
    }
  }

  /** After and AfterFunc. */
  method MakeOneShot(clock: DeterministicClock, op: Model.Op, all: seq<Action>, ghost m: Model.Clock)
    returns (x: Action)
    requires Agrees(clock, all, m) && Model.Inv(m)
    requires op.DoAfter? || op.DoAfterFunc?
    modifies clock
    ensures Agrees(clock, all + [x], Model.Next(m, op)) && fresh(x.Obj())
  {
    AgreeingIsValid(clock, all, m);
    hide Model.Inv, Pick, Distinct, DeterministicClock.Valid, Model.FireAct, Acts;
    ghost var pending, visits := clock.pending, clock.visits;
    match op {
      case DoAfter(d) =>
        var t := clock.After(d);
        x := ATask(t);
      case DoAfterFunc(d) =>
        var t := clock.AfterFunc(d);
        x := ATimer(t);
    }
    ghost var a := Model.NewAct(if op.DoAfter? then Model.Task else Model.Callback, m.now, op.d);
    NewIsDistinct(all, x);
    assert Acts(all) == m.acts;
    assert pending + [] == pending && visits + [] == visits;
    if op.d == 0 {
      FireAtOnceAgrees(clock, all, x, visits, m, a);
    } else {
      ScheduleAgrees(clock, all, x, pending, m);
    }
  }

  /** NewTimer, and NewTicker with a positive period. */
  method MakeChannelled(clock: DeterministicClock, op: Model.Op, all: seq<Action>, ghost m: Model.Clock)
    returns (x: Action)
    requires Agrees(clock, all, m) && Model.Inv(m)
    requires op.DoNewTimer? || (op.DoNewTicker? && op.d > 0)
    modifies clock
    ensures Agrees(clock, all + [x], Model.Next(m, op)) && fresh(x.Obj())
  {
    AgreeingIsValid(clock, all, m);
    hide Model.Inv, Pick, Distinct, DeterministicClock.Valid, Acts;
    ghost var pending := clock.pending;
    match op {
      case DoNewTimer(d) =>
        var t := clock.NewTimer(d);
        x := ATimer(t);
      case DoNewTicker(d) =>
        var t := clock.NewTicker(d);
        x := ATicker(t);
    }
    NewIsDistinct(all, x);
    assert Acts(all) == m.acts;
    ScheduleAgrees(clock, all, x, pending, m);
  }

  /** Stop, Reset and a receive, on one action. */
  method Touch(x: Action, op: Model.Op, now: int)
    requires op.DoStop? || op.DoReset? || op.DoReceive?
    modifies x.Obj()
    ensures x.AsAct() == Touched(old(x.AsAct()), op, now)
  {
    match x {
      case ATask(t) =>
        if op.DoReceive? {
          var r := t.Receive();
        }
      case ATimer(t) =>
        if op.DoStop? {
          var r := t.Stop();
        } else if op.DoReceive? {
          var r := t.Receive();
        }
      case ATicker(t) =>
        match op {
          case DoStop(_) => t.Stop();
          case DoReset(_, d) => var panicked := t.Reset(now, d);
          case DoReceive(_) => var r := t.Receive();
        }
    }
  }

  /** What the three calls on an action make of it. */
  ghost function Touched(a: Model.Act, op: Model.Op, now: int): Model.Act
    requires op.DoStop? || op.DoReset? || op.DoReceive?
  {
    match op
    case DoStop(_) => if a.kind.Task? then a else Model.StopAct(a)
    case DoReset(_, d) => if a.kind.Ticker? && d > 0 then Model.ResetAct(a, now, d) else a
    case DoReceive(_) => a.(buffer := None)
  }

  lemma TouchedIsNext(m: Model.Clock, op: Model.Op)
    requires Model.WellIndexed(m) && (op.DoStop? || op.DoReset? || op.DoReceive?) && op.id < |m.acts|
    ensures Model.Next(m, op) == m.(acts := m.acts[op.id := Touched(m.acts[op.id], op, m.now)])
  {
    hide Model.StopAct, Model.ResetAct;
    assert m.acts[op.id := m.acts[op.id]] == m.acts;
  }

  /** Stop, Reset and a receive, in the clock: no other action notices. */
  method TouchAmong(clock: DeterministicClock, op: Model.Op, all: seq<Action>, ghost m: Model.Clock)
    requires Agrees(clock, all, m) && Model.Inv(m)
    requires (op.DoStop? || op.DoReset? || op.DoReceive?) && op.id < |all|
    modifies Objects(all)
    ensures Agrees(clock, all, Model.Next(m, op))
  {
    TouchedIsNext(m, op);
    hide Model.Inv, Pick, Model.Next, Touched, Action.AsAct;
    ghost var acts := Acts(all);
    Touch(all[op.id], op, clock.now);
    forall i | 0 <= i < |all| && i != op.id ensures all[i].AsAct() == acts[i] {
      assert unchanged(all[i].Obj());
      Untouched(all[i]);
    }
    assert Acts(all) == acts[op.id := Touched(acts[op.id], op, clock.now)];
  }

  /** One call of the code is one step of the model. */
  method Perform(clock: DeterministicClock, op: Model.Op, all: seq<Action>, ghost m: Model.Clock)
    returns (all': seq<Action>)
    requires Agrees(clock, all, m) && Model.Inv(m)
    modifies clock, Objects(all)
    ensures Agrees(clock, all', Model.Next(m, op)) && fresh(Objects(all') - Objects(all))
  {
    AgreeingIsValid(clock, all, m);
    hide Agrees, Model.Inv;
    all' := all;
    match op {
      case DoAfter(_) =>
        var x := MakeOneShot(clock, op, all, m);
        all' := all + [x];
      case DoAfterFunc(_) =>
        var x := MakeOneShot(clock, op, all, m);
        all' := all + [x];
      case DoNewTimer(_) =>
        var x := MakeChannelled(clock, op, all, m);
        all' := all + [x];
      case DoNewTicker(d) =>
        if d > 0 {
          var x := MakeChannelled(clock, op, all, m);
          all' := all + [x];
        }
      case DoAdvance(d) =>
        AdvanceSimulates(clock, d, all, m);
      case _ =>
        if op.id < |all| {
          TouchAmong(clock, op, all, m);
        }
    }
  }

  lemma NewAgrees(clock: DeterministicClock, now: int)
    requires clock.now == now && clock.pending == [] && clock.visits == []
    ensures Agrees(clock, [], Model.Run(now, []))
  {
    hide Model.Inv;
  }

  lemma RunOneMore(now: int, ops: seq<Model.Op>, i: nat)
    requires i < |ops|
    ensures Model.Run(now, ops[..i + 1]) == Model.Next(Model.Run(now, ops[..i]), ops[i])
  {
    hide Model.Next, Model.Inv;
    assert ops[..i + 1][..i] == ops[..i];
  }

  /** A new clock and any sequence of calls: the objects end up as the run of the model says. */
  method Play(now: int, ops: seq<Model.Op>) returns (clock: DeterministicClock, all: seq<Action>)
    ensures fresh(clock) && fresh(Objects(all))
    ensures Agrees(clock, all, Model.Run(now, ops)) && clock.Valid()
  {
    clock := new DeterministicClock(now);
    all := [];
    hide Agrees, Model.Run, Model.Next, Model.Inv, DeterministicClock.Valid;
    NewAgrees(clock, now);
    var i := 0;
    assert ops[..0] == [];
    while i < |ops|
      invariant 0 <= i <= |ops|
      invariant fresh(Objects(all)) && Agrees(clock, all, Model.Run(now, ops[..i]))
    {
      RunOneMore(now, ops, i);
      all := Perform(clock, ops[i], all, Model.Run(now, ops[..i]));
      i := i + 1;
    }
    assert ops[..i] == ops;
    AgreeingIsValid(clock, all, Model.Run(now, ops));
  }
}
