// The ATB scheduler: the time jump refines a tick-by-tick clock, never stalls,
// conserves gauge and serves units in proportion to their speed.
module Scheduler {
  import opened Common
  import opened Config
  import opened BattleModel
  import opened Choice
  import opened Frames

  ghost predicate AnyAlive(units: seq<UnitState>) {
    exists i :: 0 <= i < |units| && Alive(units[i])
  }

  ghost predicate AnyReady(threshold: int, units: seq<UnitState>) {
    exists i :: 0 <= i < |units| && IsReady(threshold, units[i])
  }

  // ---- the arithmetic of one unit ----

  lemma CeilingDivision(need: int, speed: int)
    requires need > 0 && speed > 0
    ensures var q := (need + speed - 1) / speed;
            q >= 1 && q * speed >= need && (q - 1) * speed < need && q <= need
  {
    var q := (need + speed - 1) / speed;
    var r := (need + speed - 1) % speed;
    assert need + speed - 1 == q * speed + r;
    assert (q - 1) * speed == q * speed - speed;
    if q < 1 {
      MulMonotone(q, 0, speed);
    }
    MulMonotone(1, speed, q - 1);
    assert (q - 1) * speed == speed * (q - 1);
  }

  // A living unit reaches the threshold after d ticks exactly when d is at least TicksNeeded.
  lemma ReadyAfter(threshold: int, u: UnitState, d: nat)
    requires Alive(u)
    ensures TicksNeeded(threshold, u) >= 0
    ensures IsReady(threshold, Charged(u, d)) <==> TicksNeeded(threshold, u) <= d
  {
    hide ModifierOf;
    var need, speed := threshold - u.gauge, SpeedOf(u);
    var q := TicksNeeded(threshold, u);
    if need > 0 {
      CeilingDivision(need, speed);
      if q <= d {
        MulMonotone(q, d, speed);
      } else {
        MulMonotone(d, q - 1, speed);
      }
    } else {
      MulMonotone(0, d, speed);
    }
  }

  lemma {:induction false} DeltaIsLeast(threshold: int, units: seq<UnitState>)
    ensures Delta(threshold, units) < 0 <==> !AnyAlive(units)
    ensures forall i :: 0 <= i < |units| && Alive(units[i]) ==> 0 <= Delta(threshold, units) <= TicksNeeded(threshold, units[i])
    ensures AnyAlive(units) ==>
              exists i :: 0 <= i < |units| && Alive(units[i]) && TicksNeeded(threshold, units[i]) == Delta(threshold, units)
  {
    if units != [] {
      var front, last := units[..|units| - 1], units[|units| - 1];
      DeltaIsLeast(threshold, front);
      if Alive(last) {
        ReadyAfter(threshold, last, 0);
      }
      hide TicksNeeded;
      if AnyAlive(front) {
        var i :| 0 <= i < |front| && Alive(front[i]) && TicksNeeded(threshold, front[i]) == Delta(threshold, front);
        assert units[i] == front[i];
      }
      forall i | 0 <= i < |units| && Alive(units[i])
        ensures 0 <= Delta(threshold, units) <= TicksNeeded(threshold, units[i])
      {
        if i < |front| {
          assert front[i] == units[i];
        }
      }
    }
  }

  // ---- the jump refines a clock that advances one tick at a time ----

  function OneTick(s: State): State {
    s.(units := ChargeAll(s.units, 1), tick := s.tick + 1)
  }

  // Somebody is ready after d ticks exactly when d >= Delta.
  lemma ReadyFromDeltaOn(threshold: int, units: seq<UnitState>, d: nat)
    requires AnyAlive(units)
    ensures AnyReady(threshold, ChargeAll(units, d)) <==> Delta(threshold, units) <= d
  {
    hide TicksNeeded, Delta;
    DeltaIsLeast(threshold, units);
    var charged := ChargeAll(units, d);
    if Delta(threshold, units) <= d {
      var i :| 0 <= i < |units| && Alive(units[i]) && TicksNeeded(threshold, units[i]) == Delta(threshold, units);
      ReadyAfter(threshold, units[i], d);
      assert IsReady(threshold, charged[i]);
    }
    if AnyReady(threshold, charged) {
      var i :| 0 <= i < |charged| && IsReady(threshold, charged[i]);
      ReadyAfter(threshold, units[i], d);
    }
  }

  lemma ChargeTwice(units: seq<UnitState>, d: nat, e: nat)
    ensures ChargeAll(ChargeAll(units, d), e) == ChargeAll(units, d + e)
    ensures AnyAlive(ChargeAll(units, d)) <==> AnyAlive(units)
  {
    forall i | 0 <= i < |units| ensures Charged(Charged(units[i], d), e) == Charged(units[i], d + e) {
      hide ModifierOf;
      var speed := SpeedOf(units[i]);
      assert SpeedOf(Charged(units[i], d)) == speed;
      assert d * speed + e * speed == (d + e) * speed;
    }
    assert forall i :: 0 <= i < |units| ==> Alive(ChargeAll(units, d)[i]) == Alive(units[i]);
    if AnyAlive(units) {
      var i :| 0 <= i < |units| && Alive(units[i]);
      assert Alive(ChargeAll(units, d)[i]);
    }
  }

  lemma ChargeNothing(units: seq<UnitState>)
    ensures ChargeAll(units, 0) == units
  {
  }

  // Delta is the first tick at which somebody is ready.
  lemma DeltaIs(threshold: int, units: seq<UnitState>, d: nat)
    requires AnyAlive(units) && AnyReady(threshold, ChargeAll(units, d))
    requires d > 0 ==> !AnyReady(threshold, ChargeAll(units, d - 1))
    ensures Delta(threshold, units) == d
  {
    hide Delta, ChargeAll, AnyReady, TicksNeeded;
    DeltaIsLeast(threshold, units);
    ReadyFromDeltaOn(threshold, units, d);
    if d > 0 {
      ReadyFromDeltaOn(threshold, units, d - 1);
    }
  }

  // Until somebody is ready, one tick brings the goal one tick nearer.
  lemma DeltaCountsDown(threshold: int, units: seq<UnitState>)
    requires AnyAlive(units) && !AnyReady(threshold, units)
    ensures Delta(threshold, units) >= 1
    ensures Delta(threshold, ChargeAll(units, 1)) == Delta(threshold, units) - 1
    ensures AnyAlive(ChargeAll(units, 1))
  {
    hide Delta, ChargeAll, AnyReady, AnyAlive, TicksNeeded;
    var delta, next := Delta(threshold, units), ChargeAll(units, 1);
    DeltaIsLeast(threshold, units);
    ChargeNothing(units);
    ReadyFromDeltaOn(threshold, units, 0);
    ReadyFromDeltaOn(threshold, units, delta);
    ReadyFromDeltaOn(threshold, units, delta - 1);
    ChargeTwice(units, 1, delta - 1);
    if delta > 1 {
      ChargeTwice(units, 1, delta - 2);
    }
    DeltaIs(threshold, next, delta - 1);
  }

  // The reference clock: tick until some living unit first reaches the threshold.
  ghost function TickUntilReady(threshold: int, s: State): State
    requires AnyAlive(s.units)
    decreases Delta(threshold, s.units)
  {
    if AnyReady(threshold, s.units) then s else
      DeltaCountsDown(threshold, s.units);
      TickUntilReady(threshold, OneTick(s))
  }

  // The event-driven jump lands exactly where the tick-by-tick clock stops.
  lemma {:induction false} JumpRefinesTicks(threshold: int, s: State)
    requires AnyAlive(s.units)
    ensures Jump(threshold, s) == TickUntilReady(threshold, s)
    decreases Delta(threshold, s.units)
  {
    hide Delta, ChargeAll;
    ChargeNothing(s.units);
    ReadyFromDeltaOn(threshold, s.units, 0);
    DeltaIsLeast(threshold, s.units);
    if !AnyReady(threshold, s.units) {
      DeltaCountsDown(threshold, s.units);
      var delta := Delta(threshold, s.units);
      JumpRefinesTicks(threshold, OneTick(s));
      ChargeTwice(s.units, 1, delta - 1);
      if delta == 1 {
        ChargeNothing(ChargeAll(s.units, 1));
      }
    }
  }

  // ---- the scheduler never stalls ----

  lemma SomeoneActs(env: Env, s: State)
    requires Roster(s.units) && !Decided(s)
    ensures Acting(env, s).Some? && Step(env, s).Some?
  {
    hide Delta, ChargeAll, Execute;
    var threshold := env.rules.atbThreshold;
    UndecidedIsAlive(s);
    DeltaIsLeast(threshold, s.units);
    ChargeNothing(s.units);
    ReadyFromDeltaOn(threshold, s.units, Max(0, Delta(threshold, s.units)));
    var jumped := Jump(threshold, s);
    assert AnyReady(threshold, jumped.units);
    var i :| 0 <= i < |jumped.units| && IsReady(threshold, jumped.units[i]);
    RosterJumps(threshold, s);
    PickedActsFirst(threshold, jumped.units, i);
  }

  lemma UndecidedIsAlive(s: State)
    requires !Decided(s)
    ensures AnyAlive(s.units) && TeamAlive(s.units, Attacker) && TeamAlive(s.units, Defender)
  {
  }

  lemma RosterJumps(threshold: int, s: State)
    requires Roster(s.units)
    ensures Roster(Jump(threshold, s).units)
  {
  }

  // On every run of a valid setup, whatever the dice: the error return is unreachable
  // and the loop computes the n-th head state.
  lemma {:induction false} HeadShift(env: Env, s: State, n: nat)
    requires Acting(env, s).Some?
    ensures Head(env, s, n + 1) == Head(env, Execute(env, Jumped(env, s), Acting(env, s).value), n)
  {
    hide Acting, Execute, Jump, Step, Decided;
    HeadStep(env, s, n);
    var next := Execute(env, Jumped(env, s), Acting(env, s).value);
    if n > 0 {
      HeadShift(env, s, n - 1);
      HeadStep(env, next, n - 1);
    }
  }

  lemma {:induction false} LoopIsHead(env: Env, s: State, n: nat)
    requires Roster(s.units)
    ensures Loop(env, s, n) == Some(Head(env, s, n))
    decreases n
  {
    hide Decided, Step, Acting, Jumped, Execute;
    if Decided(s) {
      HeadStays(env, s, n);
    } else if n > 0 {
      SomeoneActs(env, s);
      FirstStep(env, s);
      var next := Step(env, s).value;
      HeadShift(env, s, n - 1);
      LoopIsHead(env, next, n - 1);
    }
  }

  lemma FirstStep(env: Env, s: State)
    requires Roster(s.units) && Acting(env, s).Some?
    ensures Step(env, s) == Some(Execute(env, Jumped(env, s), Acting(env, s).value))
    ensures Roster(Step(env, s).value.units)
  {
    hide Jump, Execute, Decided, PickReady;
    HeadStep(env, s, 0);
    RosterIsKept(env, s, 1);
  }

  lemma {:induction false} HeadStays(env: Env, s: State, n: nat)
    requires Decided(s)
    ensures Head(env, s, n) == s
  {
    hide Decided, Step;
    if n > 0 {
      HeadStays(env, s, n - 1);
    }
  }

  // ---- gauge conservation ----

  function Acts(env: Env, s0: State, i: nat, k: nat): nat {
    if k == 0 then 0
    else Acts(env, s0, i, k - 1) + if Acting(env, Head(env, s0, k - 1)) == Some(i) then 1 else 0
  }

  function Supplied(env: Env, s0: State, i: nat, k: nat): int {
    if k == 0 then 0 else
      var s := Head(env, s0, k - 1);
      Supplied(env, s0, i, k - 1) + if Acting(env, s).Some? then Fed(env, s, i) else 0
  }

  // At every loop head, gauge held plus threshold paid equals gauge supplied, for every
  // unit living or dead; the clamp at zero never takes anything away.
  lemma {:induction false} GaugeIsConserved(env: Env, s0: State, i: nat, k: nat)
    requires i < |s0.units| && s0.units[i].gauge == 0
    ensures |Head(env, s0, k).units| == |s0.units|
    ensures Head(env, s0, k).units[i].gauge + env.rules.atbThreshold * Acts(env, s0, i, k) == Supplied(env, s0, i, k)
  {
    hide Head, Acting, Fed, Delta, Expired;
    if k > 0 {
      GaugeIsConserved(env, s0, i, k - 1);
      UnitStep(env, s0, i, k - 1);
      var t, acts := env.rules.atbThreshold, Acts(env, s0, i, k - 1);
      assert t * (acts + 1) == t * acts + t;
    } else {
      assert Head(env, s0, 0) == s0 by {
        HeadStart(env, s0);
      }
    }
  }

  lemma HeadStart(env: Env, s0: State)
    ensures Head(env, s0, 0) == s0
  {
  }

  // ---- bounds ----

  // The most that initial statuses could ever add to a unit's speed.
  function SpeedBonus(statuses: seq<ActiveStatus>): int {
    if statuses == [] then 0
    else SpeedBonus(statuses[..|statuses| - 1]) + Max(0, statuses[|statuses| - 1].config.modifier.speedFlat)
  }

  function SpeedCap(c: UnitConfig): int {
    Max(1, c.speed + SpeedBonus(Activated(c.initialStatus)))
  }

  lemma BonusOfAppend(statuses: seq<ActiveStatus>, last: ActiveStatus)
    ensures SpeedBonus(statuses + [last]) == SpeedBonus(statuses) + Max(0, last.config.modifier.speedFlat)
  {
  }

  lemma {:induction false} BonusBoundsModifier(statuses: seq<ActiveStatus>)
    ensures ModifierOf(statuses).speedFlat <= SpeedBonus(statuses)
    ensures 0 <= SpeedBonus(Expired(statuses)) <= SpeedBonus(statuses)
  {
    if statuses != [] {
      var front, last := statuses[..|statuses| - 1], statuses[|statuses| - 1];
      BonusBoundsModifier(front);
      BonusOfAppend(Expired(front), last.(remaining := last.remaining - 1));
    }
  }

  ghost predicate WithinBounds(setup: Setup, s: State, k: nat) {
    && |s.units| == |setup.units|
    && 0 <= s.tick <= k * setup.rules.atbThreshold
    && (forall i :: 0 <= i < |s.units| ==>
          && s.units[i].config == setup.units[i]
          && SpeedBonus(s.units[i].statuses) <= SpeedBonus(Activated(setup.units[i].initialStatus))
          && 0 <= s.units[i].gauge < setup.rules.atbThreshold + SpeedCap(setup.units[i]))
  }

  // Gauges stay in 0 .. threshold + the unit's largest possible speed, and the clock
  // advances by at most one threshold per action.
  lemma {:induction false} SchedulerBounds(env: Env, setup: Setup, k: nat)
    requires Valid(setup) && env.rules == setup.rules
    ensures WithinBounds(setup, Head(env, Initial(setup), k), k)
  {
    hide Execute, Expired, Delta, Jump, Acting, PickReady, Decided, SpeedBonus, SpeedCap, Activated;
    if k == 0 {
      InitialBounds(setup);
    } else {
      SchedulerBounds(env, setup, k - 1);
      HeadStep(env, Initial(setup), k - 1);
      var s := Head(env, Initial(setup), k - 1);
      var t := setup.rules.atbThreshold;
      assert k * t == (k - 1) * t + t;
      if Acting(env, s).Some? {
        StepKeepsBounds(env, setup, s, k - 1);
      }
    }
  }

  lemma InitialBounds(setup: Setup)
    requires Valid(setup)
    ensures WithinBounds(setup, Initial(setup), 0)
  {
  }

  // No living unit overshoots the threshold by more than one tick of its speed.
  lemma JumpBounds(threshold: int, s: State, i: nat)
    requires i < |s.units| && Alive(s.units[i]) && threshold > 0 && s.units[i].gauge >= 0
    ensures var delta := Delta(threshold, s.units);
            && 0 <= delta <= threshold
            && (delta > 0 ==> 0 < delta * SpeedOf(s.units[i]) < threshold - s.units[i].gauge + SpeedOf(s.units[i]))
  {
    hide Delta, ModifierOf;
    DeltaIsLeast(threshold, s.units);
    var need, speed, delta := threshold - s.units[i].gauge, SpeedOf(s.units[i]), Delta(threshold, s.units);
    if need > 0 {
      CeilingDivision(need, speed);
      var q := TicksNeeded(threshold, s.units[i]);
      MulMonotone(delta, q, speed);
      assert (q - 1) * speed == q * speed - speed;
      MulMonotone(1, speed, delta);
    }
    if delta > 0 {
      MulMonotone(1, delta, speed);
    }
  }

  lemma SpeedIsCapped(setup: Setup, s: State, i: nat, k: nat)
    requires WithinBounds(setup, s, k) && i < |s.units|
    ensures SpeedOf(s.units[i]) <= SpeedCap(setup.units[i])
  {
    hide ModifierOf, SpeedBonus, Activated;
    BonusBoundsModifier(s.units[i].statuses);
  }

  lemma StepKeepsBounds(env: Env, setup: Setup, s: State, k: nat)
    requires Valid(setup) && env.rules == setup.rules
    requires WithinBounds(setup, s, k) && Acting(env, s).Some?
    ensures WithinBounds(setup, Execute(env, Jumped(env, s), Acting(env, s).value), k + 1)
  {
    hide Execute, Expired, Delta, Jump, PickReady, Decided, SpeedOf, SpeedBonus, SpeedCap, Activated;
    var a, t := Acting(env, s).value, setup.rules.atbThreshold;
    StepFrame(env, s, a);
    var j := Jumped(env, s);
    var r := Execute(env, j, a);
    assert (k + 1) * t == k * t + t;
    forall i | 0 <= i < |s.units|
      ensures 0 <= j.units[i].gauge < t + SpeedCap(setup.units[i])
      ensures SpeedBonus(r.units[i].statuses) <= SpeedBonus(s.units[i].statuses)
    {
      SpeedIsCapped(setup, s, i, k);
      BonusBoundsModifier(s.units[i].statuses);
      if Alive(s.units[i]) {
        JumpBounds(t, s, i);
      }
    }
    assert Alive(s.units[a]) by {
      assert IsReady(t, j.units[a]);
    }
    JumpBounds(t, s, a);
  }

  // ---- 64-bit range ----

  const INT64_MAX: int := 0x7fff_ffff_ffff_ffff

  predicate FitsInt64(x: int) {
    -INT64_MAX - 1 <= x <= INT64_MAX
  }

  function Abs(x: int): nat {
    if x < 0 then -x else x
  }

  // The largest magnitude a sum of some of the statuses' modifiers can reach, field by field.
  function Magnitude(statuses: seq<ActiveStatus>): AttributeModifier {
    if statuses == [] then NO_MODIFIER else
      var m := statuses[|statuses| - 1].config.modifier;
      Plus(Magnitude(statuses[..|statuses| - 1]), AttributeModifier(Abs(m.attackFlat), Abs(m.defenseFlat), Abs(m.speedFlat)))
  }

  predicate FieldwiseAtMost(a: AttributeModifier, b: AttributeModifier) {
    a.attackFlat <= b.attackFlat && a.defenseFlat <= b.defenseFlat && a.speedFlat <= b.speedFlat
  }

  predicate FieldwiseWithin(m: AttributeModifier, magnitude: AttributeModifier) {
    && -magnitude.attackFlat <= m.attackFlat <= magnitude.attackFlat
    && -magnitude.defenseFlat <= m.defenseFlat <= magnitude.defenseFlat
    && -magnitude.speedFlat <= m.speedFlat <= magnitude.speedFlat
  }

  lemma {:induction false} MagnitudeBounds(statuses: seq<ActiveStatus>)
    ensures FieldwiseAtMost(NO_MODIFIER, Magnitude(statuses))
    ensures FieldwiseWithin(ModifierOf(statuses), Magnitude(statuses))
    ensures FieldwiseAtMost(Magnitude(Expired(statuses)), Magnitude(statuses))
  {
    if statuses != [] {
      var front, last := statuses[..|statuses| - 1], statuses[|statuses| - 1];
      MagnitudeBounds(front);
      MagnitudeAppend(Expired(front), last.(remaining := last.remaining - 1));
    }
  }

  lemma MagnitudeAppend(statuses: seq<ActiveStatus>, last: ActiveStatus)
    ensures var m := last.config.modifier;
            Magnitude(statuses + [last])
              == Plus(Magnitude(statuses), AttributeModifier(Abs(m.attackFlat), Abs(m.defenseFlat), Abs(m.speedFlat)))
  {
    assert (statuses + [last])[..|statuses|] == statuses;
  }

  lemma {:induction false} MagnitudeOfPrefix(statuses: seq<ActiveStatus>, p: nat)
    requires p <= |statuses|
    ensures FieldwiseAtMost(Magnitude(statuses[..p]), Magnitude(statuses))
    decreases |statuses|
  {
    if p < |statuses| {
      var front := statuses[..|statuses| - 1];
      assert front[..p] == statuses[..p];
      MagnitudeOfPrefix(front, p);
    } else {
      assert statuses[..p] == statuses;
    }
  }

  // Statuses are only ever lost, so what they can reach never grows.
  lemma {:induction false} MagnitudeNeverGrows(env: Env, setup: Setup, i: nat, k: nat)
    requires i < |setup.units|
    ensures |Head(env, Initial(setup), k).units| == |setup.units|
    ensures FieldwiseAtMost(Magnitude(Head(env, Initial(setup), k).units[i].statuses), Magnitude(Activated(setup.units[i].initialStatus)))
    ensures Head(env, Initial(setup), k).units[i].config == setup.units[i]
  {
    hide Head, Acting, Fed, Delta, Expired, Magnitude;
    if k == 0 {
      HeadStart(env, Initial(setup));
    } else {
      MagnitudeNeverGrows(env, setup, i, k - 1);
      UnitStep(env, Initial(setup), i, k - 1);
      MagnitudeBounds(Head(env, Initial(setup), k - 1).units[i].statuses);
    }
  }

  // Bounds a configuration can be checked for once.
  ghost predicate FitsSchedule(setup: Setup) {
    && setup.rules.maxActions * setup.rules.atbThreshold <= INT64_MAX
    && (forall i :: 0 <= i < |setup.units| ==> UnitFits(setup.rules.atbThreshold, setup.units[i]))
  }

  ghost predicate UnitFits(threshold: int, c: UnitConfig) {
    var magnitude := Magnitude(Activated(c.initialStatus));
    && threshold + 2 * SpeedCap(c) <= INT64_MAX
    && c.speed + magnitude.speedFlat <= INT64_MAX
    && magnitude.attackFlat <= INT64_MAX && magnitude.defenseFlat <= INT64_MAX
  }

  predicate ModifierFits(m: AttributeModifier) {
    FitsInt64(m.attackFlat) && FitsInt64(m.defenseFlat) && FitsInt64(m.speedFlat)
  }

  // Every value computed on the way to a unit's speed: the running sums of the loop over its
  // statuses, and the configured speed plus their total.
  lemma SpeedFits(env: Env, setup: Setup, i: nat, k: nat, p: nat)
    requires Valid(setup) && i < |setup.units| && UnitFits(setup.rules.atbThreshold, setup.units[i])
    ensures |Head(env, Initial(setup), k).units| == |setup.units|
    ensures var u := Head(env, Initial(setup), k).units[i];
            && (p <= |u.statuses| ==> ModifierFits(ModifierOf(u.statuses[..p])))
            && FitsInt64(u.config.speed + ModifierOf(u.statuses).speedFlat)
  {
    hide Head, Activated, ModifierOf, Magnitude;
    MagnitudeNeverGrows(env, setup, i, k);
    var u := Head(env, Initial(setup), k).units[i];
    MagnitudeBounds(u.statuses);
    if p <= |u.statuses| {
      MagnitudeOfPrefix(u.statuses, p);
      MagnitudeBounds(u.statuses[..p]);
    }
  }

  // Then no value the scheduler computes in MaxActions iterations leaves int64: not on the
  // way to a unit's speed, not in the search for the jump, not in the jump or the payment.
  lemma NoSchedulerOverflow(env: Env, setup: Setup, k: nat, i: nat, p: nat)
    requires Valid(setup) && env.rules == setup.rules && FitsSchedule(setup)
    requires k < setup.rules.maxActions && i < |setup.units|
    ensures |Head(env, Initial(setup), k).units| == |setup.units|
    ensures var s := Head(env, Initial(setup), k);
            var u := s.units[i];
            var t, need, delta := setup.rules.atbThreshold, setup.rules.atbThreshold - u.gauge, Delta(setup.rules.atbThreshold, s.units);
            && (p <= |u.statuses| ==> ModifierFits(ModifierOf(u.statuses[..p])))
            && FitsInt64(u.config.speed + ModifierOf(u.statuses).speedFlat)
            && (Alive(u) ==>
                  && FitsInt64(need) && FitsInt64(need + SpeedOf(u)) && FitsInt64(need + SpeedOf(u) - 1)
                  && FitsInt64(delta * SpeedOf(u))
                  && FitsInt64(u.gauge + delta * SpeedOf(u)) && FitsInt64(u.gauge + delta * SpeedOf(u) - t)
                  && FitsInt64(s.tick + delta))
  {
    hide Head, Delta, SpeedOf, SpeedCap, Magnitude, ModifierOf, Activated;
    SpeedFits(env, setup, i, k, p);
    SchedulerBounds(env, setup, k);
    var s := Head(env, Initial(setup), k);
    var t := setup.rules.atbThreshold;
    SpeedIsCapped(setup, s, i, k);
    if Alive(s.units[i]) {
      JumpBounds(t, s, i);
      MulMonotone(k + 1, setup.rules.maxActions, t);
      assert (k + 1) * t == k * t + t;
      if Delta(t, s.units) == 0 {
        assert Delta(t, s.units) * SpeedOf(s.units[i]) == 0;
      }
    }
  }

  // ---- proportional fairness ----

  predicate SteadySpeed(statuses: seq<ActiveStatus>) {
    forall j :: 0 <= j < |statuses| ==> statuses[j].config.modifier.speedFlat == 0
  }

  lemma {:induction false} SteadyStaysSteady(statuses: seq<ActiveStatus>)
    requires SteadySpeed(statuses)
    ensures SteadySpeed(Expired(statuses)) && ModifierOf(statuses).speedFlat == 0
  {
    if statuses != [] {
      SteadyStaysSteady(statuses[..|statuses| - 1]);
    }
  }

  // While a unit lives with no speed-changing status, it has been fed speed * tick.
  lemma {:induction false} SteadySupply(env: Env, s0: State, i: nat, k: nat)
    requires i < |s0.units| && s0.tick == 0 && s0.units[i].config.speed > 0 && SteadySpeed(s0.units[i].statuses)
    ensures |Head(env, s0, k).units| == |s0.units|
    ensures SteadySpeed(Head(env, s0, k).units[i].statuses)
    ensures Alive(Head(env, s0, k).units[i]) ==>
              Supplied(env, s0, i, k) == s0.units[i].config.speed * Head(env, s0, k).tick
  {
    hide Head, Acting, Fed, Delta, Expired, SteadySpeed, ModifierOf;
    if k > 0 {
      SteadySupply(env, s0, i, k - 1);
      UnitStep(env, s0, i, k - 1);
      var s := Head(env, s0, k - 1);
      SteadyStaysSteady(s.units[i].statuses);
      if Alive(s.units[i]) {
        SteadyFed(env, s, i);
      }
    } else {
      HeadStart(env, s0);
    }
  }

  lemma SteadyFed(env: Env, s: State, i: nat)
    requires i < |s.units| && Alive(s.units[i]) && s.units[i].config.speed > 0 && SteadySpeed(s.units[i].statuses)
    ensures Fed(env, s, i) == s.units[i].config.speed * Max(0, Delta(env.rules.atbThreshold, s.units))
    ensures var delta := Max(0, Delta(env.rules.atbThreshold, s.units));
            s.units[i].config.speed * (s.tick + delta) == s.units[i].config.speed * s.tick + s.units[i].config.speed * delta
  {
    hide Delta;
    SteadyStaysSteady(s.units[i].statuses);
  }

  // A living unit acts in proportion to its speed: after k iterations
  // threshold * acts <= speed * tick < threshold * acts + threshold + speed.
  lemma ProportionalFairness(env: Env, setup: Setup, i: nat, k: nat)
    requires Valid(setup) && env.rules == setup.rules && i < |setup.units|
    requires forall st :: st in setup.units[i].initialStatus ==> st.modifier.speedFlat == 0
    ensures |Head(env, Initial(setup), k).units| == |setup.units|
    ensures var s := Head(env, Initial(setup), k);
            var t, speed, acts := setup.rules.atbThreshold, setup.units[i].speed, Acts(env, Initial(setup), i, k);
            Alive(s.units[i]) ==> t * acts <= speed * s.tick < t * acts + t + speed
  {
    hide Head, Acts, Supplied;
    var s0 := Initial(setup);
    assert SteadySpeed(s0.units[i].statuses);
    SteadySupply(env, s0, i, k);
    GaugeIsConserved(env, s0, i, k);
    SchedulerBounds(env, setup, k);
    SteadyCap(setup.units[i]);
  }

  lemma {:induction false} SteadyBonus(statuses: seq<ActiveStatus>)
    requires SteadySpeed(statuses)
    ensures SpeedBonus(statuses) == 0
  {
    if statuses != [] {
      SteadyBonus(statuses[..|statuses| - 1]);
    }
  }

  lemma SteadyCap(c: UnitConfig)
    requires c.speed > 0 && forall st :: st in c.initialStatus ==> st.modifier.speedFlat == 0
    ensures SpeedCap(c) == c.speed
  {
    assert forall j :: 0 <= j < |c.initialStatus| ==> c.initialStatus[j] in c.initialStatus;
    SteadyBonus(Activated(c.initialStatus));
  }
}
