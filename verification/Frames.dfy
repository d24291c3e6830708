// What one action can change: the frame of every phase, and the states of a whole run.
module Frames {
  import opened Common
  import opened Config
  import opened BattleModel
  import opened Choice

  // Nothing but hit points of living units in `touched` differs, and the log only grew.
  ghost predicate Touches(s: State, r: State, touched: set<nat>) {
    && |r.units| == |s.units|
    && r.tick == s.tick && r.action == s.action && s.events <= r.events
    && (forall i :: 0 <= i < |s.units| ==> r.units[i] == s.units[i].(hp := r.units[i].hp))
    && (forall i :: 0 <= i < |s.units| && (i !in touched || !Alive(s.units[i])) ==> r.units[i].hp == s.units[i].hp)
  }

  lemma TouchesChain(s: State, m: State, r: State, first: set<nat>, second: set<nat>)
    requires Touches(s, m, first) && Touches(m, r, second)
    ensures Touches(s, r, first + second)
  {
  }

  lemma {:induction false} PeriodicTicksTouch(s: State, a: nat, statuses: seq<ActiveStatus>)
    requires a < |s.units|
    ensures Touches(s, PeriodicTicks(s, a, statuses), {a})
    decreases |statuses|
  {
    if statuses != [] && Alive(s.units[a]) {
      var m := PeriodicTick(s, a, statuses[0]);
      assert Touches(s, m, {a});
      PeriodicTicksTouch(m, a, statuses[1..]);
      hide PeriodicTick;
      TouchesChain(s, m, PeriodicTicks(m, a, statuses[1..]), {a}, {a});
      assert {a} + {a} == {a};
    }
  }

  lemma ApplyEffectTouches(env: Env, s: State, a: nat, t: nat, skill: SkillConfig, effect: EffectConfig)
    requires a < |s.units| && t < |s.units|
    ensures Touches(s, ApplyEffect(env, s, a, t, skill, effect), {t})
  {
    hide AttackOf, DefenseOf, HealAmount;
  }

  lemma {:induction false} ApplyEffectsTouch(env: Env, s: State, a: nat, t: nat, skill: SkillConfig, effects: seq<EffectConfig>)
    requires a < |s.units| && t < |s.units|
    ensures Touches(s, ApplyEffects(env, s, a, t, skill, effects), {t})
    decreases |effects|
  {
    hide ApplyEffect;
    if effects != [] {
      var m := ApplyEffect(env, s, a, t, skill, effects[0]);
      ApplyEffectTouches(env, s, a, t, skill, effects[0]);
      ApplyEffectsTouch(env, m, a, t, skill, effects[1..]);
      TouchesChain(s, m, ApplyEffects(env, m, a, t, skill, effects[1..]), {t}, {t});
      assert {t} + {t} == {t};
    }
  }

  function Members(xs: seq<nat>): set<nat> {
    set x | x in xs
  }

  lemma {:induction false} ApplyToTargetsTouches(env: Env, s: State, a: nat, targets: seq<nat>, skill: SkillConfig)
    requires a < |s.units| && forall t :: t in targets ==> t < |s.units|
    ensures Touches(s, ApplyToTargets(env, s, a, targets, skill), Members(targets))
    decreases |targets|
  {
    hide ApplyEffects;
    if targets != [] {
      assert targets[0] in targets && forall t :: t in targets[1..] ==> t in targets;
      var m := ApplyEffects(env, s, a, targets[0], skill, skill.effects);
      ApplyEffectsTouch(env, s, a, targets[0], skill, skill.effects);
      ApplyToTargetsTouches(env, m, a, targets[1..], skill);
      TouchesChain(s, m, ApplyToTargets(env, m, a, targets[1..], skill), {targets[0]}, Members(targets[1..]));
      assert {targets[0]} + Members(targets[1..]) == Members(targets);
    }
  }

  // ---- phases of an action, up to hit points ----

  // Equal but for hit points, and the dead are left alone.
  ghost predicate SameButHp(u: UnitState, v: UnitState) {
    v == u.(hp := v.hp) && (!Alive(u) ==> v.hp == u.hp)
  }

  lemma StartActionFrame(s: State, a: nat)
    requires a < |s.units|
    ensures var r := StartAction(s, a);
            && r.tick == s.tick && r.action == s.action + 1 && s.events <= r.events
            && (forall i :: 0 <= i < |s.units| && i != a ==> r.units[i] == s.units[i])
            && SameButHp(s.units[a].(cooldowns := CooledDown(s.units[a].cooldowns)), r.units[a])
  {
    hide PeriodicTicks, CooledDown;
    var s1 := Announced(s.(action := s.action + 1), a, ActionStarted, "", "");
    var s2 := WithUnit(s1, a, s1.units[a].(cooldowns := CooledDown(s1.units[a].cooldowns)));
    PeriodicTicksTouch(s2, a, s2.units[a].statuses);
  }

  // The units a skill of this actor may hit.
  function Reach(s: State, a: nat): set<nat>
    requires a < |s.units|
  {
    Members(Targets(s.units, a, ChooseSkill(s.units[a]).targetRule))
  }

  lemma ActFrame(env: Env, s: State, a: nat)
    requires a < |s.units|
    ensures var r := Act(env, s, a);
            && r.tick == s.tick && r.action == s.action && s.events <= r.events
            && (forall i :: 0 <= i < |s.units| && i != a ==> SameButHp(s.units[i], r.units[i]))
            && SameButHp(s.units[a].(cooldowns := r.units[a].cooldowns), r.units[a])
            && (forall i :: 0 <= i < |s.units| && i !in Reach(s, a) ==> r.units[i].hp == s.units[i].hp)
            && (r.units[a].cooldowns == s.units[a].cooldowns
                || r.units[a].cooldowns == CooldownsAfterUse(s.units[a], ChooseSkill(s.units[a])))
  {
    hide Targets, ChooseSkill, ApplyToTargets, CooldownsAfterUse;
    var skill := ChooseSkill(s.units[a]);
    var targets := Targets(s.units, a, skill.targetRule);
    var s1 := Announced(s, a, SkillUsed, skill.id, "");
    ApplyToTargetsTouches(env, s1, a, targets, skill);
    var s2 := ApplyToTargets(env, s1, a, targets, skill);
    assert CooldownsAfterUse(s2.units[a], skill) == CooldownsAfterUse(s.units[a], skill) by {
      SameCooldowns(s.units[a], s2.units[a], skill);
    }
  }

  lemma SameCooldowns(u: UnitState, v: UnitState, skill: SkillConfig)
    requires v == u.(hp := v.hp)
    ensures CooldownsAfterUse(v, skill) == CooldownsAfterUse(u, skill)
  {
  }

  // Everything an action does to the schedule: the actor alone pays gauge, ages its
  // statuses and cooldowns; others can only lose or gain hit points; nobody is revived.
  lemma ExecuteFrame(env: Env, s: State, a: nat)
    requires a < |s.units|
    ensures var r := Execute(env, s, a);
            && r.tick == s.tick && r.action == s.action + 1 && s.events <= r.events
            && (forall i :: 0 <= i < |s.units| && i != a ==> SameButHp(s.units[i], r.units[i]))
            && r.units[a].config == s.units[a].config
            && r.units[a].gauge == Max(0, s.units[a].gauge - env.rules.atbThreshold)
            && r.units[a].statuses == Expired(s.units[a].statuses)
            && (!Alive(s.units[a]) ==> r.units[a].hp == s.units[a].hp)
  {
    hide StartAction, Act, Expired;
    StartActionFrame(s, a);
    var s1 := StartAction(s, a);
    ActFrame(env, s1, a);
  }

  // ---- runs ----

  // The loop-head state after at most k iterations from s0; a decided battle stays put.
  function Head(env: Env, s0: State, k: nat): State {
    if k == 0 then s0 else
      var s := Head(env, s0, k - 1);
      if Decided(s) then s else
        match Step(env, s)
        case None => s
        case Some(next) => next
  }

  // The iteration that starts in s, if there is one.
  function Jumped(env: Env, s: State): (j: State)
    ensures |j.units| == |s.units|
  {
    Jump(env.rules.atbThreshold, s)
  }

  function Acting(env: Env, s: State): (a: Option<nat>)
    ensures a.Some? ==> a.value < |s.units| && IsReady(env.rules.atbThreshold, Jumped(env, s).units[a.value])
  {
    if Decided(s) then None else NextActor(env.rules.atbThreshold, s).1
  }

  lemma HeadStep(env: Env, s0: State, k: nat)
    ensures var s := Head(env, s0, k);
            var next := Head(env, s0, k + 1);
            && (Acting(env, s).None? ==> next == s)
            && (Acting(env, s).Some? ==> !Decided(s) && next == Execute(env, Jumped(env, s), Acting(env, s).value))
  {
  }

  // One iteration, unit by unit.
  lemma StepFrame(env: Env, s: State, a: nat)
    requires Acting(env, s) == Some(a)
    ensures var j := Jumped(env, s);
            var r := Execute(env, j, a);
            && |j.units| == |s.units| == |r.units|
            && r.action == s.action + 1 && s.events <= r.events
            && r.tick == s.tick + Max(0, Delta(env.rules.atbThreshold, s.units))
            && (forall i :: 0 <= i < |s.units| ==>
                  && j.units[i] == s.units[i].(gauge := j.units[i].gauge)
                  && j.units[i].gauge == s.units[i].gauge + Fed(env, s, i))
            && (forall i :: 0 <= i < |s.units| && i != a ==> SameButHp(j.units[i], r.units[i]))
            && r.units[a].config == s.units[a].config
            && r.units[a].gauge == j.units[a].gauge - env.rules.atbThreshold >= 0
            && r.units[a].statuses == Expired(s.units[a].statuses)
  {
    hide Delta, PickReady, Execute, Expired, Decided;
    ExecuteFrame(env, Jumped(env, s), a);
  }

  // What the time jump adds to a unit's gauge.
  function Fed(env: Env, s: State, i: nat): int {
    var delta := Delta(env.rules.atbThreshold, s.units);
    if i < |s.units| && Alive(s.units[i]) && delta > 0 then delta * SpeedOf(s.units[i]) else 0
  }

  // One unit between two loop heads.
  lemma UnitStep(env: Env, s0: State, i: nat, k: nat)
    requires i < |s0.units|
    ensures var s, r := Head(env, s0, k), Head(env, s0, k + 1);
            && |s.units| == |r.units| == |s0.units|
            && r.units[i].config == s.units[i].config == s0.units[i].config
            && (Alive(r.units[i]) ==> Alive(s.units[i]))
            && r.units[i].statuses
                 == (if Acting(env, s) == Some(i) then Expired(s.units[i].statuses) else s.units[i].statuses)
            && r.units[i].gauge + (if Acting(env, s) == Some(i) then env.rules.atbThreshold else 0)
                 == s.units[i].gauge + (if Acting(env, s).Some? then Fed(env, s, i) else 0)
            && r.tick == s.tick + (if Acting(env, s).Some? then Max(0, Delta(env.rules.atbThreshold, s.units)) else 0)
            && r.action == s.action + (if Acting(env, s).Some? then 1 else 0)
  {
    hide Head, Execute, Expired, Jumped, Acting, Decided, Fed, Delta;
    RosterIsKept(env, s0, k);
    RosterIsKept(env, s0, k + 1);
    HeadStep(env, s0, k);
    var s := Head(env, s0, k);
    if Acting(env, s).Some? {
      StepFrame(env, s, Acting(env, s).value);
    }
  }

  // Configuration never changes, and nobody is revived.
  ghost predicate SameRoster(s: State, r: State) {
    && |r.units| == |s.units|
    && (forall i :: 0 <= i < |s.units| ==> r.units[i].config == s.units[i].config)
    && (forall i :: 0 <= i < |s.units| && !Alive(s.units[i]) ==> r.units[i].hp == s.units[i].hp)
    && s.tick <= r.tick && s.events <= r.events
  }

  lemma {:induction false} RosterIsKept(env: Env, s0: State, k: nat)
    ensures SameRoster(s0, Head(env, s0, k))
  {
    hide Execute, Expired, Delta, Jump, Acting, PickReady, Decided, Fed;
    if k > 0 {
      RosterIsKept(env, s0, k - 1);
      HeadStep(env, s0, k - 1);
      var s := Head(env, s0, k - 1);
      if Acting(env, s).Some? {
        StepFrame(env, s, Acting(env, s).value);
      }
    }
  }

  lemma InitialRoster(setup: Setup)
    requires Valid(setup)
    ensures Roster(Initial(setup).units)
  {
  }

  lemma RosterAtHead(env: Env, setup: Setup, k: nat)
    requires Valid(setup)
    ensures Roster(Head(env, Initial(setup), k).units)
    ensures |Head(env, Initial(setup), k).units| == |setup.units|
    ensures forall i :: 0 <= i < |setup.units| ==> Head(env, Initial(setup), k).units[i].config == setup.units[i]
  {
    InitialRoster(setup);
    RosterIsKept(env, Initial(setup), k);
  }
}
