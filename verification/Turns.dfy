// What happens in one action, read off its log: who is hit in which order, by how much, with
// which words of the generator, and that nothing else happens.
module Turns {
  import opened Common
  import opened Config
  import opened BattleModel
  import opened Choice
  import opened Frames
  import opened Scheduler
  import opened Lifetimes
  import opened Outcomes
  import Damage

  // One effect meant for one target.
  datatype Shot = Shot(target: nat, effect: EffectConfig)

  function Shots(t: nat, effects: seq<EffectConfig>): seq<Shot> {
    seq(|effects|, j requires 0 <= j < |effects| => Shot(t, effects[j]))
  }

  // Every effect of the skill on every target, target by target.
  function Plan(targets: seq<nat>, effects: seq<EffectConfig>): seq<Shot> {
    if targets == [] then [] else Shots(targets[0], effects) + Plan(targets[1..], effects)
  }

  function Hps(units: seq<UnitState>): (r: seq<int>)
    ensures |r| == |units|
    ensures forall i :: 0 <= i < |units| ==> r[i] == units[i].hp
  {
    seq(|units|, i requires 0 <= i < |units| => units[i].hp)
  }

  // The words an effect draws.
  function WordsFor(rules: Rules, kind: EffectKind): nat {
    if kind == Damage
    then (if rules.damageVariancePermille > 0 then 1 else 0) + (if rules.critChancePermille > 0 then 1 else 0)
    else 0
  }

  // The event of one effect by `actor` on a living `target` with hp hit points, when `draws`
  // words were drawn before. All figures are the units' own and the configured ones.
  predicate IsShot(env: Env, e: Event, actor: UnitState, target: UnitState, hp: int, draws: nat, skill: string, effect: EffectConfig) {
    var attack := Max(0, actor.config.attack + ModifierOf(actor.statuses).attackFlat);
    var defense := Max(0, target.config.defense + ModifierOf(target.statuses).defenseFlat);
    && e.actor == actor.config.instanceId && e.target == target.config.instanceId && e.skill == skill && e.before == hp
    && match effect.kind
       case Damage =>
         var c := Damage.Context(
           attack := attack, defense := defense, coefficientPermille := effect.coefficientPermille, flat := effect.flat,
           variancePermille := env.rules.damageVariancePermille, critChancePermille := env.rules.critChancePermille,
           critMultiplierPermille := env.rules.critMultiplierPermille, amount := 0, critical := false);
         var roll, crit := env.dice(draws), env.dice(draws + if env.rules.damageVariancePermille > 0 then 1 else 0);
         && e.kind.DamageDealt? && e.status == ""
         && e.amount == Min(hp, Damage.Dealt(c, roll, crit)) && e.after == hp - e.amount
         && e.detail == if Damage.Crits(c, crit) then "critical" else ""
       case Heal =>
         && e.kind.Healed? && e.status == "" && e.detail == ""
         && e.after == Min(target.config.maxHp, hp + Max(0, TruncDiv(attack * effect.coefficientPermille, 1000) + effect.flat))
         && e.amount == e.after - hp
       case ApplyStatus =>
         e.kind.StatusApplied? && e.status == effect.statusId && e.amount == 0 && e.after == hp && e.detail == "unsupported status config"
       case OtherEffect => false
  }

  // The log from position `from` on is the record of the plan: one event for each shot at a
  // target that is alive by then, in order, and nothing else; hit points and words drawn lead
  // from `hps` and `draws` to `ends` and `drawn`.
  ghost predicate Records(env: Env, log: seq<Event>, from: nat, units: seq<UnitState>, a: nat, skill: string, plan: seq<Shot>,
                          hps: seq<int>, draws: nat, ends: seq<int>, drawn: nat)
    decreases |plan|
  {
    && a < |units| == |hps|
    && if plan == [] then from == |log| && hps == ends && draws == drawn
       else
         var t, effect := plan[0].target, plan[0].effect;
         && t < |units|
         && if hps[t] <= 0 || effect.kind == OtherEffect
            then Records(env, log, from, units, a, skill, plan[1..], hps, draws, ends, drawn)
            else
              && from < |log| && IsShot(env, log[from], units[a], units[t], hps[t], draws, skill, effect)
              && Records(env, log, from + 1, units, a, skill, plan[1..], hps[t := log[from].after],
                         draws + WordsFor(env.rules, effect.kind), ends, drawn)
  }

  // Same configuration and statuses, so the same figures.
  ghost predicate SameFigures(units: seq<UnitState>, now: seq<UnitState>) {
    |now| == |units| && forall i :: 0 <= i < |units| ==> now[i].config == units[i].config && now[i].statuses == units[i].statuses
  }

  // One effect on a living target logs exactly its event and draws exactly its words.
  lemma ShotIsLogged(env: Env, s: State, a: nat, t: nat, skill: SkillConfig, effect: EffectConfig)
    requires env.pipeline == Damage.STAGES && a < |s.units| && t < |s.units|
    ensures var r := ApplyEffect(env, s, a, t, skill, effect);
            if s.units[t].hp <= 0 || effect.kind == OtherEffect then r == s
            else
              && |r.events| == |s.events| + 1 && s.events <= r.events
              && IsShot(env, r.events[|s.events|], s.units[a], s.units[t], s.units[t].hp, s.draws, skill.id, effect)
              && r.draws == s.draws + WordsFor(env.rules, effect.kind)
              && Hps(r.units) == Hps(s.units)[t := r.events[|s.events|].after]
  {
    hide Damage.Piped, Damage.Dealt, Damage.Crits, ModifierOf;
    if effect.kind == Damage {
      Damage.PipelineIsClosedForm(env.pipeline, HitContext(env.rules, AttackOf(s.units[a]), DefenseOf(s.units[t]), effect), env.dice, s.draws);
    }
  }

  lemma SameFiguresSameShot(env: Env, e: Event, units: seq<UnitState>, now: seq<UnitState>, a: nat, t: nat, hp: int, draws: nat,
                            skill: string, effect: EffectConfig)
    requires SameFigures(units, now) && a < |units| && t < |units|
    ensures IsShot(env, e, units[a], units[t], hp, draws, skill, effect) <==> IsShot(env, e, now[a], now[t], hp, draws, skill, effect)
  {
  }

  lemma ShotIsRecorded(env: Env, log: seq<Event>, units: seq<UnitState>, s: State, a: nat, t: nat, skill: SkillConfig, effect: EffectConfig,
                       rest: seq<Shot>, ends: seq<int>, drawn: nat)
    requires env.pipeline == Damage.STAGES && a < |s.units| && t < |s.units| && SameFigures(units, s.units)
    requires var r := ApplyEffect(env, s, a, t, skill, effect);
             r.events <= log && Records(env, log, |r.events|, units, a, skill.id, rest, Hps(r.units), r.draws, ends, drawn)
    ensures Records(env, log, |s.events|, units, a, skill.id, [Shot(t, effect)] + rest, Hps(s.units), s.draws, ends, drawn)
    ensures s.events <= log
  {
    hide IsShot, ApplyEffect, Hps;
    var r := ApplyEffect(env, s, a, t, skill, effect);
    HpsAre(s.units);
    ShotIsLogged(env, s, a, t, skill, effect);
    var plan := [Shot(t, effect)] + rest;
    assert plan[0] == Shot(t, effect) && plan[1..] == rest;
    if s.units[t].hp > 0 && effect.kind != OtherEffect {
      assert log[|s.events|] == r.events[|s.events|];
      SameFiguresSameShot(env, log[|s.events|], units, s.units, a, t, s.units[t].hp, s.draws, skill.id, effect);
    }
  }

  lemma HpsAre(units: seq<UnitState>)
    ensures |Hps(units)| == |units| && forall i :: 0 <= i < |units| ==> Hps(units)[i] == units[i].hp
  {
  }

  lemma {:induction false} ShotsAreRecorded(env: Env, log: seq<Event>, units: seq<UnitState>, s: State, a: nat, t: nat, skill: SkillConfig,
                                            effects: seq<EffectConfig>, rest: seq<Shot>, ends: seq<int>, drawn: nat)
    requires env.pipeline == Damage.STAGES && a < |s.units| && t < |s.units| && SameFigures(units, s.units)
    requires var r := ApplyEffects(env, s, a, t, skill, effects);
             r.events <= log && Records(env, log, |r.events|, units, a, skill.id, rest, Hps(r.units), r.draws, ends, drawn)
    ensures Records(env, log, |s.events|, units, a, skill.id, Shots(t, effects) + rest, Hps(s.units), s.draws, ends, drawn)
    ensures s.events <= log
    decreases |effects|
  {
    hide Records, ApplyEffect, Hps;
    if effects == [] {
      assert Shots(t, effects) + rest == rest;
    } else {
      var mid := ApplyEffect(env, s, a, t, skill, effects[0]);
      ApplyEffectTouches(env, s, a, t, skill, effects[0]);
      ShotsAreRecorded(env, log, units, mid, a, t, skill, effects[1..], rest, ends, drawn);
      ShotIsRecorded(env, log, units, s, a, t, skill, effects[0], Shots(t, effects[1..]) + rest, ends, drawn);
      assert Shots(t, effects) + rest == [Shot(t, effects[0])] + (Shots(t, effects[1..]) + rest);
    }
  }

  lemma {:induction false} PlanIsRecorded(env: Env, log: seq<Event>, units: seq<UnitState>, s: State, a: nat, targets: seq<nat>,
                                          skill: SkillConfig, ends: seq<int>, drawn: nat)
    requires env.pipeline == Damage.STAGES && a < |s.units| && SameFigures(units, s.units)
    requires forall t :: t in targets ==> t < |s.units|
    requires var r := ApplyToTargets(env, s, a, targets, skill); r.events == log && Hps(r.units) == ends && r.draws == drawn
    ensures Records(env, log, |s.events|, units, a, skill.id, Plan(targets, skill.effects), Hps(s.units), s.draws, ends, drawn)
    ensures s.events <= log
    decreases |targets|
  {
    hide ApplyEffects, Hps;
    HpsAre(s.units);
    if targets != [] {
      hide Records;
      assert targets[0] in targets && forall t :: t in targets[1..] ==> t in targets;
      var mid := ApplyEffects(env, s, a, targets[0], skill, skill.effects);
      ApplyEffectsTouch(env, s, a, targets[0], skill, skill.effects);
      PlanIsRecorded(env, log, units, mid, a, targets[1..], skill, ends, drawn);
      ShotsAreRecorded(env, log, units, s, a, targets[0], skill, skill.effects, Plan(targets[1..], skill.effects), ends, drawn);
    }
  }

  // ---- the whole turn ----

  // The skill a unit uses now: silenced its basic one, else the first active skill whose
  // stored cooldown has no more than this turn to go.
  ghost predicate UsesNow(u: UnitState, skill: SkillConfig) {
    exists j: nat :: FirstReadyNow(u, j) &&
      skill == if !RunsStatus(u, Silence) && j < |u.config.activeSkills| then u.config.activeSkills[j] else u.config.basicSkill
  }

  predicate ReadyNow(u: UnitState, skill: SkillConfig) {
    skill.id !in u.cooldowns || u.cooldowns[skill.id] <= 1
  }

  ghost predicate FirstReadyNow(u: UnitState, j: nat) {
    && j <= |u.config.activeSkills|
    && (j < |u.config.activeSkills| ==> ReadyNow(u, u.config.activeSkills[j]))
    && forall i :: 0 <= i < j ==> !ReadyNow(u, u.config.activeSkills[i])
  }

  predicate RunsStatus(u: UnitState, kind: StatusKind) {
    exists status :: status in u.statuses && status.remaining > 0 && status.config.kind == kind
  }

  // From position `from` on the log is the turn of unit a, which entered it with the hit
  // points of `units` and left it with those of `after`, up to and with its ActionEnded.
  ghost predicate IsTurn(env: Env, log: seq<Event>, from: nat, units: seq<UnitState>, a: nat, draws: nat,
                         after: seq<UnitState>, drawn: nat)
    requires a < |units| == |after|
  {
    var u, id := units[a], units[a].config.instanceId;
    && from < |log| && log[|log| - 1].kind.ActionEnded? && log[|log| - 1].actor == id && log[|log| - 1].after == after[a].hp
    && if u.hp <= 0 then from == |log| - 1 && Hps(after) == Hps(units) && drawn == draws
       else if RunsStatus(u, Stun) then
         && from == |log| - 2 && log[from].kind.ActionSkipped? && log[from].actor == id && log[from].detail == "stun"
         && Hps(after) == Hps(units) && drawn == draws
       else PerformsSome(env, log[..|log| - 1], from, units, a, draws, after, drawn)
  }

  ghost predicate PerformsSome(env: Env, log: seq<Event>, from: nat, units: seq<UnitState>, a: nat, draws: nat,
                               after: seq<UnitState>, drawn: nat)
    requires a < |units|
  {
    exists skill, ts :: Performs(env, log, from, units, a, draws, after, drawn, skill, ts)
  }

  // The log from position `from` on announces the skill and records it on the targets.
  ghost predicate Performs(env: Env, log: seq<Event>, from: nat, units: seq<UnitState>, a: nat, draws: nat,
                           after: seq<UnitState>, drawn: nat, skill: SkillConfig, ts: seq<nat>)
    requires a < |units|
  {
    && from < |log| && OpensTurn(log[from], units, a, skill, ts)
    && Records(env, log, from + 1, units, a, skill.id, Plan(ts, skill.effects), Hps(units), draws, Hps(after), drawn)
  }

  // The announcement of the skill the unit uses, on the targets its rule asks for.
  ghost predicate OpensTurn(e: Event, units: seq<UnitState>, a: nat, skill: SkillConfig, ts: seq<nat>)
    requires a < |units|
  {
    && UsesNow(units[a], skill) && Aimed(units, a, skill.targetRule, ts)
    && e.kind.SkillUsed? && e.actor == units[a].config.instanceId && e.skill == skill.id
  }

  // ---- the model's turn is one ----

  lemma HasStatusRuns(u: UnitState, kind: StatusKind)
    ensures HasStatus(u.statuses, kind) <==> RunsStatus(u, kind)
  {
    if HasStatus(u.statuses, kind) {
      var j :| 0 <= j < |u.statuses| && u.statuses[j].remaining > 0 && u.statuses[j].config.kind == kind;
      assert u.statuses[j] in u.statuses;
    }
  }

  lemma {:induction false} SomeFirstOff(skills: seq<SkillConfig>, cooldowns: map<string, int>) returns (j: nat)
    ensures FirstOff(skills, cooldowns, j)
  {
    if skills == [] || OffCooldown(cooldowns, skills[0]) {
      j := 0;
    } else {
      var k := SomeFirstOff(skills[1..], cooldowns);
      j := k + 1;
      forall i | 0 <= i < j ensures !OffCooldown(cooldowns, skills[i]) {
        assert i > 0 ==> skills[i] == skills[1..][i - 1];
      }
    }
  }

  // `before` is the unit as it was when its action began.
  lemma ChosenIsUsedNow(before: UnitState, u: UnitState)
    requires u == before.(hp := u.hp, gauge := u.gauge, cooldowns := CooledDown(before.cooldowns))
    ensures UsesNow(before, ChooseSkill(u))
  {
    var j := SomeFirstOff(u.config.activeSkills, u.cooldowns);
    SkillChoiceExactly(u, j);
    HasStatusRuns(u, Silence);
    forall skill ensures OffCooldown(u.cooldowns, skill) <==> ReadyNow(before, skill) {
    }
    hide ChooseSkill, HasStatus, OffCooldown, ReadyNow;
    assert FirstReadyNow(before, j);
  }

  // Units in which only gauges and cooldowns differ are aimed at alike.
  lemma AimedAlike(units: seq<UnitState>, now: seq<UnitState>, a: nat, rule: TargetRule, ts: seq<nat>)
    requires |units| == |now| && a < |units| && Aimed(now, a, rule, ts)
    requires forall i :: 0 <= i < |units| ==> now[i].config == units[i].config && now[i].hp == units[i].hp
    ensures Aimed(units, a, rule, ts)
  {
    AlikeFigures(units, now, a);
    hide Precedes, WorseOff, IsEnemy, IsFriend;
    match rule
    case EnemyAll =>
      forall x, y | 0 <= x < y < |ts| ensures ts[x] < |units| && ts[y] < |units| && Precedes(units[ts[x]], units[ts[y]]) {
        assert Precedes(now[ts[x]], now[ts[y]]);
      }
    case EnemySingle =>
      if t: nat :| IsEnemy(now, a, t) {
        assert IsEnemy(units, a, t);
      }
      forall t: nat | IsEnemy(units, a, t) ensures IsEnemy(now, a, t) && (t != ts[0] ==> Precedes(units[ts[0]], units[t])) {
        assert t != ts[0] ==> Precedes(now[ts[0]], now[t]);
      }
    case AllyLowestHp =>
      if t: nat :| IsFriend(now, a, t) {
        assert IsFriend(units, a, t);
      }
      forall t: nat | IsFriend(units, a, t) ensures IsFriend(now, a, t) && (t != ts[0] ==> WorseOff(units[ts[0]], units[t])) {
        assert t != ts[0] ==> WorseOff(now[ts[0]], now[t]);
      }
    case _ =>
  }

  lemma AlikeFigures(units: seq<UnitState>, now: seq<UnitState>, a: nat)
    requires |units| == |now| && a < |units|
    requires forall i :: 0 <= i < |units| ==> now[i].config == units[i].config && now[i].hp == units[i].hp
    ensures forall t: nat {:trigger IsEnemy(units, a, t)} {:trigger IsEnemy(now, a, t)} :: IsEnemy(units, a, t) == IsEnemy(now, a, t)
    ensures forall t: nat {:trigger IsFriend(units, a, t)} {:trigger IsFriend(now, a, t)} :: IsFriend(units, a, t) == IsFriend(now, a, t)
    ensures forall t: nat :: IsEnemy(units, a, t) || IsFriend(units, a, t) ==> t < |units|
    ensures forall i, j :: 0 <= i < |units| && 0 <= j < |units| ==> Precedes(units[i], units[j]) == Precedes(now[i], now[j])
    ensures forall i, j :: 0 <= i < |units| && 0 <= j < |units| ==> WorseOff(units[i], units[j]) == WorseOff(now[i], now[j])
  {
    hide Alphabetical;
  }

  lemma UseIsRecorded(env: Env, units: seq<UnitState>, s: State, a: nat, skill: SkillConfig)
    requires env.pipeline == Damage.STAGES && a < |s.units| && SameFigures(units, s.units)
    ensures var r := UseSkill(env, s, a, skill); var e := r.events;
            && |r.units| == |s.units| && |e| > |s.events| && s.events <= e
            && e[|s.events|].kind.SkillUsed? && e[|s.events|].actor == s.units[a].config.instanceId && e[|s.events|].skill == skill.id
            && Records(env, e, |s.events| + 1, units, a, skill.id, Plan(Targets(s.units, a, skill.targetRule), skill.effects),
                       Hps(s.units), s.draws, Hps(r.units), r.draws)
  {
    hide Targets, ApplyToTargets, CooldownsAfterUse, Records, Plan;
    var targets := Targets(s.units, a, skill.targetRule);
    var s1 := Announced(s, a, SkillUsed, skill.id, "");
    var s2 := ApplyToTargets(env, s1, a, targets, skill);
    PlanIsRecorded(env, s2.events, units, s1, a, targets, skill, Hps(s2.units), s2.draws);
    assert s1.events[|s.events|].kind.SkillUsed? && |s1.events| == |s.events| + 1;
    assert s2.events[|s.events|] == s1.events[|s.events|];
    assert Hps(UseSkill(env, s, a, skill).units) == Hps(s2.units);
  }

  // `units` are the units of s but for gauges and for the cooldowns of unit a, which s has
  // already aged.
  ghost predicate EntersTurn(units: seq<UnitState>, s: State, a: nat) {
    && a < |units| == |s.units| && Roster(s.units)
    && (forall i :: 0 <= i < |units| ==>
          s.units[i].config == units[i].config && s.units[i].statuses == units[i].statuses && s.units[i].hp == units[i].hp)
    && s.units[a].cooldowns == CooledDown(units[a].cooldowns)
  }

  lemma ActIsTurn(env: Env, units: seq<UnitState>, s: State, a: nat)
    requires env.pipeline == Damage.STAGES && EntersTurn(units, s, a)
    ensures var r := EndAction(env, Act(env, s, a), a);
            |r.units| == |units| && s.events <= r.events
            && IsTurn(env, r.events, |s.events|, units, a, s.draws, r.units, r.draws)
  {
    hide UseSkill, ChooseSkill, HasStatus, RunsStatus, Targets, EndAction, Plan, Expired, Records, Roster, OpensTurn, CooledDown;
    var acted := Act(env, s, a);
    var r := EndAction(env, acted, a);
    EndIsLogged(env, acted, a);
    assert acted.units[a].config == units[a].config by { ActFrame(env, s, a); }
    HasStatusRuns(units[a], Stun);
    assert Hps(s.units) == Hps(units);
    if s.units[a].hp > 0 && !HasStatus(s.units[a].statuses, Stun) {
      var skill := ChooseSkill(s.units[a]);
      UseIsRecorded(env, units, s, a, skill);
      SkillOpensTurn(env, units, s, a, acted.events[|s.events|]);
      assert r.events[..|r.events| - 1] == acted.events;
      assert r.events[|s.events|] == acted.events[|s.events|];
      var ts := Targets(s.units, a, skill.targetRule);
      assert acted == UseSkill(env, s, a, skill);
      assert Performs(env, acted.events, |s.events|, units, a, s.draws, r.units, r.draws, skill, ts);
      assert r.events[..|r.events| - 1] == acted.events;
    }
  }

  lemma SkillOpensTurn(env: Env, units: seq<UnitState>, s: State, a: nat, e: Event)
    requires EntersTurn(units, s, a)
    requires e.kind.SkillUsed? && e.actor == s.units[a].config.instanceId && e.skill == ChooseSkill(s.units[a]).id
    ensures var skill := ChooseSkill(s.units[a]); OpensTurn(e, units, a, skill, Targets(s.units, a, skill.targetRule))
  {
    hide Targets, ChooseSkill, Aimed, Roster, CooledDown, UsesNow;
    var skill := ChooseSkill(s.units[a]);
    ChosenIsUsedNow(units[a], s.units[a]);
    TargetsAreAimed(s.units, a, skill.targetRule);
    AimedAlike(units, s.units, a, skill.targetRule, Targets(s.units, a, skill.targetRule));
  }

  lemma EndIsLogged(env: Env, s: State, a: nat)
    requires a < |s.units|
    ensures var r := EndAction(env, s, a);
            && |r.units| == |s.units| && Hps(r.units) == Hps(s.units) && r.draws == s.draws
            && |r.events| == |s.events| + 1 && s.events <= r.events
            && var e := r.events[|s.events|]; e.kind.ActionEnded? && e.actor == s.units[a].config.instanceId && e.after == s.units[a].hp
  {
    hide Expired;
  }

  lemma {:induction false} TicksDrawNothing(s: State, a: nat, statuses: seq<ActiveStatus>)
    requires a < |s.units|
    ensures PeriodicTicks(s, a, statuses).draws == s.draws
    decreases |statuses|
  {
    if statuses != [] && Alive(s.units[a]) {
      TicksDrawNothing(PeriodicTick(s, a, statuses[0]), a, statuses[1..]);
    }
  }

  lemma StartDrawsNothing(s: State, a: nat)
    requires a < |s.units|
    ensures StartAction(s, a).draws == s.draws
  {
    hide PeriodicTicks, CooledDown;
    var s1 := Announced(s.(action := s.action + 1), a, ActionStarted, "", "");
    var s2 := WithUnit(s1, a, s1.units[a].(cooldowns := CooledDown(s1.units[a].cooldowns)));
    TicksDrawNothing(s2, a, s2.units[a].statuses);
  }

  // The units of s as they enter the turn: unit a has its hit points after the ticks.
  function AfterTicks(units: seq<UnitState>, a: nat, hp: int): seq<UnitState>
    requires a < |units|
  {
    units[a := units[a].(hp := hp)]
  }

  lemma StartedEntersTurn(env: Env, setup: Setup, i: nat, k: nat)
    requires Valid(setup) && Acting(env, Head(env, Initial(setup), k)) == Some(i)
    ensures var s := Head(env, Initial(setup), k);
            && i < |s.units| == |Jumped(env, s).units|
            && var started := StartAction(Jumped(env, s), i);
               && started.draws == s.draws && |started.units| == |s.units|
               && EntersTurn(AfterTicks(s.units, i, started.units[i].hp), started, i)
  {
    hide Head, Initial, StartAction, Acting, Jumped, CooledDown, Roster;
    var s := Head(env, Initial(setup), k);
    RosterAtHead(env, setup, k);
    JumpKeepsUnit(env, s, i);
    JumpKeepsAll(env, s);
    StartActionFrame(Jumped(env, s), i);
    StartDrawsNothing(Jumped(env, s), i);
    RosterStays(s.units, StartAction(Jumped(env, s), i).units);
  }

  lemma RosterStays(units: seq<UnitState>, after: seq<UnitState>)
    requires Roster(units) && |after| == |units| && forall i :: 0 <= i < |units| ==> after[i].config == units[i].config
    ensures Roster(after)
  {
  }

  lemma JumpKeepsAll(env: Env, s: State)
    ensures var j := Jumped(env, s);
            && j.draws == s.draws && j.events == s.events && |j.units| == |s.units|
            && forall i :: 0 <= i < |s.units| ==> j.units[i] == s.units[i].(gauge := j.units[i].gauge)
  {
    hide Delta, SpeedOf;
  }

  // The log of one action of unit i: ActionStarted, then the ticks of the due statuses, then
  // the turn, in which the skill the unit has to use makes each of its effects on each of
  // the right targets, living ones only, with exact figures; and ActionEnded. Nothing else.
  ghost predicate IsAction(env: Env, setup: Setup, i: nat, k: nat, m: nat)
    requires |Head(env, Initial(setup), k).units| == |Head(env, Initial(setup), k + 1).units| == |setup.units| && i < |setup.units|
  {
    var s, r := Head(env, Initial(setup), k), Head(env, Initial(setup), k + 1);
    var from := |s.events| + 1;
    && from + m <= |r.events| && s.events <= r.events
    && r.events[from - 1].kind.ActionStarted? && r.events[from - 1].actor == setup.units[i].instanceId
    && TickRun(r.events, from, m, s.units[i].hp, setup.units[i], Due(setup.units[i].initialStatus, Acts(env, Initial(setup), i, k)))
    && IsTurn(env, r.events, from + m, AfterTicks(s.units, i, HpAfter(r.events, from, m, s.units[i].hp)), i, s.draws, r.units, r.draws)
  }

  // Over every run, dice and rules: each iteration of the loop logs exactly one such action.
  lemma EveryActionIsLogged(env: Env, setup: Setup, i: nat, k: nat)
    requires Valid(setup) && env.pipeline == Damage.STAGES && Acting(env, Head(env, Initial(setup), k)) == Some(i)
    ensures |Head(env, Initial(setup), k).units| == |Head(env, Initial(setup), k + 1).units| == |setup.units| && i < |setup.units|
    ensures exists m: nat :: IsAction(env, setup, i, k, m)
  {
    hide Head, Acts, Acting, StartAction, Act, EndAction, Due, PeriodicsOf, TickRun, Surviving, Jumped, Initial, EntersTurn, IsTurn;
    var s, r := Head(env, Initial(setup), k), Head(env, Initial(setup), k + 1);
    RosterAtHead(env, setup, k);
    RosterAtHead(env, setup, k + 1);
    HeadStep(env, Initial(setup), k);
    JumpKeepsUnit(env, s, i);
    StatusLifetime(env, setup, i, k);
    SurvivorsAreDue(setup.units[i].initialStatus, Acts(env, Initial(setup), i, k));
    var j := Jumped(env, s);
    StartIsLogged(j, i);
    StartedEntersTurn(env, setup, i, k);
    var started := StartAction(j, i);
    var units := AfterTicks(s.units, i, started.units[i].hp);
    ActIsTurn(env, units, started, i);
    var m := |started.events| - |s.events| - 1;
    TickRunExtends(started.events, r.events, |s.events| + 1, m, s.units[i].hp, setup.units[i],
                   Due(setup.units[i].initialStatus, Acts(env, Initial(setup), i, k)));
    assert r.events[|s.events|] == started.events[|s.events|];
    assert m > 0 ==> r.events[|s.events| + m] == started.events[|s.events| + m];
    assert IsAction(env, setup, i, k, m);
  }

  // ---- everybody who is aimed at is hurt ----

  lemma EffectHurts(env: Env, s: State, a: nat, t: nat, skill: SkillConfig, effect: EffectConfig)
    requires env.pipeline == Damage.STAGES && a < |s.units| && t < |s.units| && effect.kind != Heal
    ensures var r := ApplyEffect(env, s, a, t, skill, effect).units;
            && (forall i :: 0 <= i < |s.units| ==> r[i].hp <= s.units[i].hp)
            && (effect.kind == Damage && s.units[t].hp > 0 ==> r[t].hp < s.units[t].hp)
  {
    hide Damage.Piped, AttackOf, DefenseOf;
    HitIsPositive(env, HitContext(env.rules, AttackOf(s.units[a]), DefenseOf(s.units[t]), effect), s.draws);
  }

  lemma {:induction false} EffectsHurt(env: Env, s: State, a: nat, t: nat, skill: SkillConfig, effects: seq<EffectConfig>)
    requires env.pipeline == Damage.STAGES && a < |s.units| && t < |s.units| && NeverHeals(effects)
    ensures var r := ApplyEffects(env, s, a, t, skill, effects).units;
            && (forall i :: 0 <= i < |s.units| ==> r[i].hp <= s.units[i].hp)
            && (Hurts(effects) && s.units[t].hp > 0 ==> r[t].hp < s.units[t].hp)
    decreases |effects|
  {
    if effects != [] {
      EffectHurts(env, s, a, t, skill, effects[0]);
      EffectsHurt(env, ApplyEffect(env, s, a, t, skill, effects[0]), a, t, skill, effects[1..]);
      hide ApplyEffect;
      if Hurts(effects) && effects[0].kind != Damage {
        var j :| 0 <= j < |effects| && effects[j].kind == Damage;
        assert effects[1..][j - 1] == effects[j];
      }
    }
  }

  lemma {:induction false} TargetsAreHurt(env: Env, s: State, a: nat, targets: seq<nat>, skill: SkillConfig, t: nat)
    requires env.pipeline == Damage.STAGES && a < |s.units| && NeverHeals(skill.effects) && Hurts(skill.effects)
    requires t < |s.units| && s.units[t].hp > 0 && forall x :: x in targets ==> x < |s.units|
    ensures var r := ApplyToTargets(env, s, a, targets, skill).units;
            r[t].hp <= s.units[t].hp && (t in targets ==> r[t].hp < s.units[t].hp)
    decreases |targets|
  {
    hide ApplyEffects, NeverHeals, Hurts;
    if targets != [] {
      assert targets[0] in targets && forall x :: x in targets[1..] ==> x in targets;
      var mid := ApplyEffects(env, s, a, targets[0], skill, skill.effects);
      EffectsHurt(env, s, a, targets[0], skill, skill.effects);
      if mid.units[t].hp > 0 {
        TargetsAreHurt(env, mid, a, targets[1..], skill, t);
      } else {
        ApplyToTargetsTouches(env, mid, a, targets[1..], skill);
      }
    }
  }

  // A turn with a skill that damages and never heals costs hit points to every unit aimed at;
  // with ENEMY_ALL, to every living enemy.
  lemma EveryTargetIsHurt(env: Env, s: State, a: nat, t: nat, skill: SkillConfig)
    requires env.pipeline == Damage.STAGES && Roster(s.units) && a < |s.units| && t < |s.units|
    requires s.units[a].hp > 0 && s.units[t].hp > 0 && !RunsStatus(s.units[a], Stun) && skill == ChooseSkill(s.units[a])
    requires NeverHeals(skill.effects) && Hurts(skill.effects)
    requires t in Targets(s.units, a, skill.targetRule) || (skill.targetRule.EnemyAll? && IsEnemy(s.units, a, t))
    ensures Act(env, s, a).units[t].hp < s.units[t].hp
  {
    hide Targets, ApplyToTargets, CooldownsAfterUse, ChooseSkill, NeverHeals, Hurts;
    HasStatusRuns(s.units[a], Stun);
    var ts := Targets(s.units, a, skill.targetRule);
    TargetsAreHurt(env, Announced(s, a, SkillUsed, skill.id, ""), a, ts, skill, t);
    if skill.targetRule.EnemyAll? && IsEnemy(s.units, a, t) {
      TargetsAreAimed(s.units, a, EnemyAll);
    }
  }
}
