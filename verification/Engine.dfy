// The engine as it runs (engine/battle.go): units and the battle are mutated in place,
// and every method is tied to the model function that says what it computes.
module Engine {
  import opened Common
  import opened Config
  import opened Sorting
  import opened Rng
  import opened BattleModel
  import opened Choice
  import Damage

  class Unit {
    // The unit's place in the battle's list: what makes two references different units.
    ghost const index: nat
    const config: UnitConfig
    var hp: int
    var gauge: int
    var cooldowns: map<string, int>
    var statuses: seq<ActiveStatus>

    function View(): UnitState
      reads this
    {
      UnitState(config, hp, gauge, cooldowns, statuses)
    }

    constructor (config: UnitConfig, ghost index: nat)
      ensures View() == InitialUnit(config) && this.config == config && this.index == index
    {
      this.config, this.index := config, index;
      hp, gauge, cooldowns := config.maxHp, 0, map[];
      statuses := Activated(config.initialStatus);
    }

    method HasStatus(kind: StatusKind) returns (r: bool)
      ensures r == BattleModel.HasStatus(statuses, kind)
    {
      for n := 0 to |statuses|
        invariant !BattleModel.HasStatus(statuses[..n], kind)
      {
        if statuses[n].remaining > 0 && statuses[n].config.kind == kind {
          return true;
        }
      }
      return false;
    }

    method Modifier() returns (m: AttributeModifier)
      ensures m == ModifierOf(statuses)
    {
      m := NO_MODIFIER;
      for n := 0 to |statuses|
        invariant m == ModifierOf(statuses[..n])
      {
        assert statuses[..n + 1][..n] == statuses[..n];
        if statuses[n].remaining > 0 {
          m := Plus(m, statuses[n].config.modifier);
        }
      }
      assert statuses[..|statuses|] == statuses;
    }

    method Attack() returns (r: int)
      ensures r == AttackOf(View())
    {
      var m := Modifier();
      r := Max(0, config.attack + m.attackFlat);
    }

    method Defense() returns (r: int)
      ensures r == DefenseOf(View())
    {
      var m := Modifier();
      r := Max(0, config.defense + m.defenseFlat);
    }

    method Speed() returns (r: int)
      ensures r == SpeedOf(View())
    {
      var m := Modifier();
      r := Max(1, config.speed + m.speedFlat);
    }

    // Deleting and overwriting entries while iterating the map, in any order.
    method TickCooldowns()
      modifies this`cooldowns
      ensures cooldowns == CooledDown(old(cooldowns))
    {
      var was := cooldowns;
      var todo := was.Keys;
      while todo != {}
        invariant todo <= was.Keys
        invariant forall id :: id in todo ==> id in cooldowns && cooldowns[id] == was[id]
        invariant forall id :: id in cooldowns && id !in todo ==> id in was && was[id] > 1 && cooldowns[id] == was[id] - 1
        invariant forall id :: id in was && id !in todo && was[id] > 1 ==> id in cooldowns
        decreases todo
      {
        var id :| id in todo;
        todo := todo - {id};
        var turns := cooldowns[id];
        if turns <= 1 {
          cooldowns := cooldowns - {id};
        } else {
          cooldowns := cooldowns[id := turns - 1];
        }
      }
      assert cooldowns == CooledDown(was);
    }

    // The slice is opened up as its backing array, compacted in place, and cut to length.
    method ExpireStatuses()
      modifies this`statuses
      ensures statuses == Expired(old(statuses))
    {
      var backing := new ActiveStatus[|statuses|](i requires 0 <= i < |statuses| reads this => statuses[i]);
      assert backing[..] == statuses;
      var kept := Compact(backing);
      statuses := backing[..kept];
    }
  }

  // In-place compaction: survivors are written back into the array being read.
  method Compact(backing: array<ActiveStatus>) returns (kept: nat)
    modifies backing
    ensures kept <= backing.Length
    ensures backing[..kept] == Expired(old(backing[..]))
  {
    ghost var was := backing[..];
    kept := 0;
    for n := 0 to backing.Length
      invariant kept <= n
      invariant backing[..kept] == Expired(was[..n])
      invariant forall i :: n <= i < backing.Length ==> backing[i] == was[i]
    {
      var status := backing[n];
      assert was[..n + 1][..n] == was[..n];
      status := status.(remaining := status.remaining - 1);
      if status.remaining > 0 {
        backing[kept] := status;
        kept := kept + 1;
        assert backing[..kept] == backing[..kept - 1] + [status];
      }
    }
    assert was[..backing.Length] == was;
  }

  function Views(us: seq<Unit>): (r: seq<UnitState>)
    reads us
    ensures |r| == |us|
    ensures forall i :: 0 <= i < |us| ==> r[i] == us[i].View()
  {
    seq(|us|, i requires 0 <= i < |us| reads us => us[i].View())
  }

  class Battle {
    const setup: Setup
    const digest: Result -> string
    const rng: RNG
    ghost const dice: Dice
    const pipeline: seq<Damage.Stage>
    const units: seq<Unit>
    var tick: int
    var action: nat
    var events: seq<Event>
    var finished: bool
    var cached: Option<Result>

    // Units do not alias each other, and they are the configured ones.
    ghost predicate Aliasing() {
      && (forall i :: 0 <= i < |units| ==> units[i].index == i)
      && |units| == |setup.units|
      && (forall i :: 0 <= i < |units| ==> units[i].config == setup.units[i])
    }

    ghost predicate Valid()
      reads rng
    {
      Aliasing() && Config.Valid(setup) && RngValid()
    }

    ghost predicate RngValid()
      reads rng
    {
      rng.Valid() && Streams(dice, rng.seed)
    }

    ghost function View(): State
      reads this, rng, units
    {
      State(rng.draws, tick, action, Views(units), events)
    }

    constructor (setup: Setup, units: seq<Unit>, digest: Result -> string)
      requires forall i :: 0 <= i < |units| ==> units[i].index == i
      requires Config.Valid(setup) && |units| == |setup.units|
      requires forall i :: 0 <= i < |units| ==> units[i].config == setup.units[i]
      ensures Valid() && View() == State(0, 0, 0, Views(units), [])
      ensures !finished && Env(setup.rules, dice, pipeline) == EnvOf(setup) && this.setup == setup && this.units == units && this.digest == digest && fresh(rng)
    {
      this.setup, this.units, this.digest := setup, units, digest;
      rng := new RNG(setup.seed);
      dice := StreamOf(setup.seed);
      pipeline := Damage.STAGES;
      StreamOfStreams(setup.seed);
      tick, action, events := 0, 0, [];
      finished, cached := false, None;
    }

    lemma ViewHasAll()
      ensures |View().units| == |units|
    {
    }

    lemma RosterHolds()
      requires Valid()
      ensures Roster(Views(units))
    {
    }

    twostate lemma OnlyUnitChanged(k: nat)
      requires Aliasing() && k < |units|
      requires forall i :: 0 <= i < |units| && i != k ==> unchanged(units[i])
      ensures Views(units) == old(Views(units))[k := units[k].View()]
    {
    }

    method Emit(kind: EventType, actor: string, target: string, skill: string, status: string,
                amount: int, before: int, after: int, detail: string)
      requires Aliasing()
      modifies this`events
      ensures View() == Emitted(old(View()), kind, actor, target, skill, status, amount, before, after, detail)
    {
      events := events + [Event(|events| + 1, action, tick, kind,
                                actor, target, skill, status, amount, before, after, detail)];
    }

    method IsTeamAlive(team: Team) returns (r: bool)
      requires Aliasing()
      ensures r == TeamAlive(View().units, team)
    {
      for n := 0 to |units|
        invariant forall i :: 0 <= i < n ==> !(units[i].config.team == team && units[i].hp > 0)
      {
        if units[n].config.team == team && units[n].hp > 0 {
          assert Views(units)[n].config.team == team;
          return true;
        }
      }
      return false;
    }

    method CurrentOutcome() returns (r: Outcome)
      requires Aliasing()
      ensures r == OutcomeOf(View().units)
    {
      var attackerAlive := IsTeamAlive(Attacker);
      var defenderAlive := IsTeamAlive(Defender);
      if attackerAlive && defenderAlive {
        r := NoOutcome;
      } else if attackerAlive {
        r := AttackerWin;
      } else if defenderAlive {
        r := DefenderWin;
      } else {
        r := Draw;
      }
    }

    // The event-driven time jump, then the front of the sorted ready list.
    method PickNextActor() returns (actor: Option<nat>)
      requires Valid()
      modifies this`tick, units
      ensures (View(), actor) == NextActor(setup.rules.atbThreshold, old(View()))
    {
      hide Jump, Delta, PickReady;
      var delta := AdvanceTime();
      if delta < 0 {
        return None;
      }
      actor := FrontOfReady();
    }

    method AdvanceTime() returns (delta: int)
      requires Aliasing()
      modifies this`tick, units
      ensures delta == Delta(setup.rules.atbThreshold, old(View()).units)
      ensures View() == Jump(setup.rules.atbThreshold, old(View()))
    {
      delta := MinDelta();
      if delta > 0 {
        Charge(delta);
        tick := tick + delta;
      }
    }

    method FrontOfReady() returns (actor: Option<nat>)
      requires Valid()
      ensures actor == PickReady(setup.rules.atbThreshold, View().units)
    {
      var threshold := setup.rules.atbThreshold;
      var ready := CollectReady();
      var views := Views(units);
      RosterHolds();
      ReadyUnitsAre(threshold, views, |units|);
      OrdersAreStrictTotal(views, ready);
      var sorted := SortSlice(ready, ActingOrder(views));
      ActorChoiceIsUnique(threshold, views, ready, sorted);
      actor := if |sorted| == 0 then None else Some(sorted[0]);
    }

    method CollectReady() returns (ready: seq<nat>)
      requires Aliasing()
      ensures ready == ReadyUnits(setup.rules.atbThreshold, View().units, |units|)
    {
      ready := [];
      ghost var views := Views(units);
      for n := 0 to |units|
        invariant ready == ReadyUnits(setup.rules.atbThreshold, views, n)
      {
        if units[n].hp > 0 && units[n].gauge >= setup.rules.atbThreshold {
          ready := ready + [n];
        }
      }
    }

    method MinDelta() returns (delta: int)
      requires Aliasing()
      ensures delta == Delta(setup.rules.atbThreshold, View().units)
    {
      delta := -1;
      ghost var views := Views(units);
      for n := 0 to |units|
        invariant delta == Delta(setup.rules.atbThreshold, views[..n])
      {
        assert views[..n + 1][..n] == views[..n];
        if units[n].hp > 0 {
          var need := setup.rules.atbThreshold - units[n].gauge;
          var ticks := 0;
          if need > 0 {
            var speed := units[n].Speed();
            ticks := (need + speed - 1) / speed;
          }
          if delta < 0 || ticks < delta {
            delta := ticks;
          }
        }
      }
      assert views[..|units|] == views;
    }

    method Charge(delta: int)
      requires Aliasing()
      modifies units
      ensures View() == old(View()).(units := ChargeAll(old(View().units), delta))
    {
      ghost var views := Views(units);
      for n := 0 to |units|
        invariant forall i :: 0 <= i < n ==> units[i].View() == Charged(views[i], delta)
        invariant forall i :: n <= i < |units| ==> units[i].View() == views[i]
      {
        label before:
        if units[n].hp > 0 {
          var speed := units[n].Speed();
          units[n].gauge := units[n].gauge + delta * speed;
          forall i | 0 <= i < |units| && i != n ensures units[i].View() == old@before(units[i].View()) {
          }
        }
      }
      assert Views(units) == ChargeAll(views, delta);
    }

    method TickCooldowns(k: nat)
      requires Aliasing() && k < |units|
      modifies units[k]
      ensures View() == WithUnit(old(View()), k, old(View()).units[k].(cooldowns := CooledDown(old(units[k].cooldowns))))
    {
      units[k].TickCooldowns();
      OnlyUnitChanged(k);
    }

    method ExpireStatuses(k: nat)
      requires Aliasing() && k < |units|
      modifies units[k]
      ensures View() == WithUnit(old(View()), k, old(View()).units[k].(statuses := Expired(old(View()).units[k].statuses)))
    {
      units[k].ExpireStatuses();
      OnlyUnitChanged(k);
    }

    method SetHp(k: nat, hp: int)
      requires Aliasing() && k < |units|
      modifies units[k]
      ensures View() == WithHp(old(View()), k, hp)
    {
      units[k].hp := hp;
      OnlyUnitChanged(k);
    }

    // A unit's HP is assigned and the change is logged.
    method ChangeHp(a: nat, t: nat, hp: int, kind: EventType, skill: string, status: string, amount: int, detail: string)
      requires Aliasing() && a < |units| && t < |units|
      modifies this`events, units[t]
      ensures View() == Emitted(WithHp(old(View()), t, hp), kind, units[a].config.instanceId, units[t].config.instanceId,
                                skill, status, amount, old(units[t].hp), hp, detail)
    {
      var before := units[t].hp;
      SetHp(t, hp);
      Emit(kind, units[a].config.instanceId, units[t].config.instanceId, skill, status, amount, before, units[t].hp, detail);
    }

    method TickPeriodic(k: nat)
      requires Aliasing() && k < |units|
      modifies this`events, units[k]
      ensures View() == PeriodicTicks(old(View()), k, old(View()).units[k].statuses)
    {
      ghost var start := View();
      var statuses := units[k].statuses;
      for n := 0 to |statuses|
        invariant units[k].statuses == statuses
        invariant PeriodicTicks(View(), k, statuses[n..]) == PeriodicTicks(start, k, statuses)
      {
        if units[k].hp <= 0 {
          return;
        }
        assert statuses[n..][0] == statuses[n] && statuses[n..][1..] == statuses[n + 1..];
        TickStatus(k, statuses[n]);
      }
    }

    method TickStatus(k: nat, status: ActiveStatus)
      requires Aliasing() && k < |units| && units[k].hp > 0
      modifies this`events, units[k]
      ensures units[k].statuses == old(units[k].statuses)
      ensures View() == PeriodicTick(old(View()), k, status)
    {
      var u := units[k];
      match status.config.kind
      case Dot =>
        var amount := Min(status.config.potency, u.hp);
        ChangeHp(k, k, u.hp - amount, DamageDealt, "", status.config.id, amount, "dot");
      case Hot =>
        var hp := Min(u.config.maxHp, u.hp + status.config.potency);
        ChangeHp(k, k, hp, Healed, "", status.config.id, hp - u.hp, "hot");
      case _ =>
    }

    method PickSkill(k: nat) returns (skill: SkillConfig)
      requires Aliasing() && k < |units|
      ensures skill == ChooseSkill(View().units[k])
    {
      var u := units[k];
      var silenced := u.HasStatus(Silence);
      if !silenced {
        var skills := u.config.activeSkills;
        for n := 0 to |skills|
          invariant FirstReadySkill(skills[n..], u.cooldowns, u.config.basicSkill)
                 == FirstReadySkill(skills, u.cooldowns, u.config.basicSkill)
        {
          if CooldownOf(u.cooldowns, skills[n].id) == 0 {
            return skills[n];
          }
          assert skills[n..][1..] == skills[n + 1..];
        }
      }
      return u.config.basicSkill;
    }

    method PickTargets(k: nat, rule: TargetRule) returns (targets: seq<nat>)
      requires Valid() && k < |units|
      ensures targets == Targets(View().units, k, rule)
    {
      match rule
      case Self =>
        targets := if units[k].hp > 0 then [k] else [];
      case EnemySingle =>
        targets := SortedLiving(k, rule, PositionOrder(Views(units)));
        targets := if |targets| > 1 then targets[..1] else targets;
      case EnemyAll =>
        targets := SortedLiving(k, rule, PositionOrder(Views(units)));
      case AllyLowestHp =>
        targets := SortedLiving(k, rule, WeaknessOrder(Views(units)));
        targets := if |targets| > 1 then targets[..1] else targets;
      case OtherRule =>
        targets := [];
    }

    method SortedLiving(k: nat, rule: TargetRule, order: (nat, nat) -> bool) returns (sorted: seq<nat>)
      requires Valid() && k < |units| && SortableBy(View().units, rule, order)
      ensures Targets(View().units, k, rule) == if rule.EnemyAll? then sorted else FirstOnly(sorted)
    {
      ghost var views := Views(units);
      var found := LivingUnits(k, rule.AllyLowestHp?);
      RosterHolds();
      CandidatesAre(views, k, rule.AllyLowestHp?, |units|);
      OrdersAreStrictTotal(views, found);
      sorted := SortSlice(found, order);
      TargetChoiceIsUnique(views, k, rule, order, found, sorted);
    }

    method LivingUnits(k: nat, allies: bool) returns (found: seq<nat>)
      requires Aliasing() && k < |units|
      ensures found == Candidates(View().units, k, allies, |units|)
    {
      found := [];
      ghost var views := Views(units);
      for n := 0 to |units|
        invariant found == Candidates(views, k, allies, n)
      {
        assert views[n] == units[n].View() && views[k] == units[k].View();
        if units[n].hp > 0 && (units[n].config.team == units[k].config.team) == allies {
          found := found + [n];
        }
      }
    }

    method ApplyDamage(a: nat, t: nat, skill: SkillConfig, effect: EffectConfig)
      requires Aliasing() && RngValid() && a < |units| && t < |units| && units[t].hp > 0
      modifies this`events, rng, units[t]
      ensures RngValid()
      ensures View() == Strike(Env(setup.rules, dice, pipeline), old(View()), a, t, skill, effect)
    {
      hide Damage.Piped;
      var attack := units[a].Attack();
      var defense := units[t].Defense();
      var hit := Damage.Calculate(pipeline, HitContext(setup.rules, attack, defense, effect), rng, dice);
      assert View() == old(View()).(draws := rng.draws);
      var amount := Min(hit.amount, units[t].hp);
      ChangeHp(a, t, units[t].hp - amount, DamageDealt, skill.id, "", amount, if hit.critical then "critical" else "");
    }

    method ApplyHeal(a: nat, t: nat, skill: SkillConfig, effect: EffectConfig)
      requires Aliasing() && a < |units| && t < |units| && units[t].hp > 0
      modifies this`events, units[t]
      ensures View() == Mend(old(View()), a, t, skill, effect)
    {
      var attack := units[a].Attack();
      var amount := HealAmount(attack, effect);
      var hp := Min(units[t].config.maxHp, units[t].hp + amount);
      ChangeHp(a, t, hp, Healed, skill.id, "", hp - units[t].hp, "");
    }

    method ApplyEffect(a: nat, t: nat, skill: SkillConfig, effect: EffectConfig)
      requires Aliasing() && RngValid() && a < |units| && t < |units|
      modifies this`events, rng, units[t]
      ensures RngValid()
      ensures View() == BattleModel.ApplyEffect(Env(setup.rules, dice, pipeline), old(View()), a, t, skill, effect)
    {
      var actor, target := units[a], units[t];
      if target.hp <= 0 {
        return;
      }
      match effect.kind
      case Damage => ApplyDamage(a, t, skill, effect);
      case Heal => ApplyHeal(a, t, skill, effect);
      case ApplyStatus =>
        Emit(StatusApplied, actor.config.instanceId, target.config.instanceId, skill.id, effect.statusId,
             0, target.hp, target.hp, "unsupported status config");
      case OtherEffect =>
    }

    method Announce(k: nat, kind: EventType, skill: string, detail: string)
      requires Aliasing() && k < |units|
      modifies this`events
      ensures View() == Announced(old(View()), k, kind, skill, detail)
    {
      var u := units[k];
      Emit(kind, u.config.instanceId, "", skill, "", 0, u.hp, u.hp, detail);
    }

    method PerformSkill(a: nat)
      requires Valid() && a < |units|
      modifies this`events, rng, units
      ensures Valid()
      ensures View() == UseSkill(Env(setup.rules, dice, pipeline), old(View()), a, ChooseSkill(old(View()).units[a]))
    {
      hide ChooseSkill, Targets, ApplyToTargets, CooldownsAfterUse;
      var skill := PickSkill(a);
      var targets := PickTargets(a, skill.targetRule);
      Announce(a, SkillUsed, skill.id, "");
      HitTargets(a, targets, skill);
      SetCooldown(a, skill);
    }

    method HitTargets(a: nat, targets: seq<nat>, skill: SkillConfig)
      requires Aliasing() && RngValid() && a < |units| && forall t :: t in targets ==> t < |units|
      modifies this`events, rng, units
      ensures RngValid()
      ensures View() == ApplyToTargets(Env(setup.rules, dice, pipeline), old(View()), a, targets, skill)
    {
      for n := 0 to |targets|
        invariant RngValid() && forall t :: t in targets[n..] ==> t < |units|
        invariant ApplyToTargets(Env(setup.rules, dice, pipeline), View(), a, targets[n..], skill)
               == ApplyToTargets(Env(setup.rules, dice, pipeline), old(View()), a, targets, skill)
      {
        assert targets[n] in targets && targets[n..][1..] == targets[n + 1..];
        TailIsIn(targets[n..]);
        HitTarget(a, targets[n], skill);
      }
    }

    lemma TailIsIn(xs: seq<nat>)
      requires xs != []
      ensures forall x :: x in xs[1..] ==> x in xs
    {
    }

    method HitTarget(a: nat, t: nat, skill: SkillConfig)
      requires Aliasing() && RngValid() && a < |units| && t < |units|
      modifies this`events, rng, units
      ensures RngValid()
      ensures View() == ApplyEffects(Env(setup.rules, dice, pipeline), old(View()), a, t, skill, skill.effects)
    {
      for m := 0 to |skill.effects|
        invariant RngValid()
        invariant ApplyEffects(Env(setup.rules, dice, pipeline), View(), a, t, skill, skill.effects[m..])
               == ApplyEffects(Env(setup.rules, dice, pipeline), old(View()), a, t, skill, skill.effects)
      {
        assert skill.effects[m..][1..] == skill.effects[m + 1..];
        ApplyEffect(a, t, skill, skill.effects[m]);
      }
    }

    method SetCooldown(k: nat, skill: SkillConfig)
      requires Aliasing() && k < |units|
      modifies units[k]
      ensures View() == WithUnit(old(View()), k,
                                 old(View()).units[k].(cooldowns := CooldownsAfterUse(old(View()).units[k], skill)))
    {
      var u := units[k];
      if skill.cooldown > 0 && skill.id != u.config.basicSkill.id {
        u.cooldowns := u.cooldowns[skill.id := skill.cooldown];
      }
      OnlyUnitChanged(k);
    }

    method SpendGauge(k: nat)
      requires Aliasing() && k < |units|
      modifies units[k]
      ensures View() == WithUnit(old(View()), k,
                                 old(View()).units[k].(gauge := Max(0, old(View()).units[k].gauge - setup.rules.atbThreshold)))
    {
      units[k].gauge := Max(0, units[k].gauge - setup.rules.atbThreshold);
      OnlyUnitChanged(k);
    }

    method BeginAction(a: nat)
      requires Aliasing() && a < |units|
      modifies this`action, this`events, units[a]
      ensures View() == StartAction(old(View()), a)
    {
      hide PeriodicTicks, CooledDown;
      action := action + 1;
      Announce(a, ActionStarted, "", "");
      TickCooldowns(a);
      TickPeriodic(a);
    }

    method TakeTurn(a: nat)
      requires Valid() && a < |units|
      modifies this`events, rng, units
      ensures Valid()
      ensures View() == Act(Env(setup.rules, dice, pipeline), old(View()), a)
    {
      hide UseSkill, ChooseSkill;
      if units[a].hp > 0 {
        var stunned := units[a].HasStatus(Stun);
        if stunned {
          Announce(a, ActionSkipped, "", "stun");
        } else {
          PerformSkill(a);
        }
      }
    }

    method FinishAction(a: nat)
      requires Aliasing() && a < |units|
      modifies this`events, units[a]
      ensures View() == EndAction(Env(setup.rules, dice, pipeline), old(View()), a)
    {
      hide Expired, Announced, Max, View;
      ghost var before := View();
      ViewHasAll();
      ExpireStatuses(a);
      ghost var expired := View();
      SpendGauge(a);
      assert View() == WithUnit(before, a, expired.units[a].(gauge := Max(0, expired.units[a].gauge - setup.rules.atbThreshold)));
      Announce(a, ActionEnded, "", "");
    }

    method ExecuteAction(a: nat)
      requires Valid() && a < |units|
      modifies this`action, this`events, rng, units
      ensures Valid()
      ensures View() == Execute(Env(setup.rules, dice, pipeline), old(View()), a)
    {
      hide StartAction, Act, EndAction;
      BeginAction(a);
      TakeTurn(a);
      FinishAction(a);
    }

    // The first Run computes the model's result and caches it; later ones return the cache.
    method Run() returns (result: Option<Result>)
      requires Valid()
      modifies this, rng, units
      ensures Valid()
      ensures old(finished) ==> result == old(cached) && unchanged(this) && View() == old(View())
      ensures !old(finished) ==>
                match Loop(Env(setup.rules, dice, pipeline), old(View()), setup.rules.maxActions)
                case None => result == None && !finished
                case Some(s) => && result == Some(Sealed(setup, s, digest)) && View() == Concluded(s)
                                && finished && cached == result
    {
      hide Loop, Sealed, Concluded;
      if finished {
        return cached;
      }
      var ok := RunLoop();
      if !ok {
        return None;
      }
      var outcome := CurrentOutcome();
      var sealed := Conclude(if outcome == NoOutcome then Draw else outcome);
      finished, cached := true, Some(sealed);
      return cached;
    }

    // At most MaxActions actions; a loop left by its bound and one left by a decision
    // both end in the state whose outcome Run reads off.
    method RunLoop() returns (ok: bool)
      requires Valid()
      modifies this`tick, this`action, this`events, rng, units
      ensures Valid()
      ensures match Loop(Env(setup.rules, dice, pipeline), old(View()), setup.rules.maxActions)
              case None => !ok
              case Some(s) => ok && View() == s
    {
      ghost var trace: seq<State>;
      hide Step;
      ok, trace := RunActions();
      RunIsLoop(Env(setup.rules, dice, pipeline), trace, setup.rules.maxActions);
    }

    method RunActions() returns (ok: bool, ghost trace: seq<State>)
      requires Valid()
      modifies this`tick, this`action, this`events, rng, units
      ensures Valid()
      ensures IsRun(Env(setup.rules, dice, pipeline), trace) && trace[0] == old(View()) && |trace| - 1 <= setup.rules.maxActions
      ensures var last := trace[|trace| - 1];
              if ok then View() == last && (|trace| - 1 == setup.rules.maxActions || Decided(last))
              else |trace| - 1 < setup.rules.maxActions && !Decided(last) && Step(Env(setup.rules, dice, pipeline), last) == None
    {
      hide Step, NextActor, Execute, OutcomeOf, SpeedOf;
      trace := [View()];
      var n := 0;
      while n < setup.rules.maxActions
        invariant 0 <= n <= setup.rules.maxActions && Valid()
        invariant |trace| == n + 1 && trace[0] == old(View()) && trace[n] == View()
        invariant IsRun(Env(setup.rules, dice, pipeline), trace)
      {
        var outcome := CurrentOutcome();
        if outcome != NoOutcome {
          return true, trace;
        }
        ok := TakeStep();
        if !ok {
          return false, trace;
        }
        trace := trace + [View()];
        n := n + 1;
      }
      return true, trace;
    }

    method TakeStep() returns (ok: bool)
      requires Valid()
      modifies this`tick, this`action, this`events, rng, units
      ensures Valid()
      ensures Step(Env(setup.rules, dice, pipeline), old(View())) == if ok then Some(View()) else None
    {
      hide NextActor, Execute;
      var actor := PickNextActor();
      if actor == None {
        return false;
      }
      ExecuteAction(actor.value);
      return true;
    }

    method Conclude(outcome: Outcome) returns (sealed: Result)
      requires Aliasing() && outcome == FinalOutcome(View().units)
      modifies this`events
      ensures View() == Concluded(old(View()))
      ensures sealed == Sealed(setup, old(View()), digest)
    {
      Emit(BattleEnded, "", "", "", "", 0, 0, 0, OutcomeDetail(outcome));
      var results: seq<UnitResult> := [];
      for i := 0 to |units|
        invariant results == UnitResults(Views(units))[..i]
      {
        var u := units[i];
        results := results + [UnitResult(u.config.instanceId, u.config.team, u.hp, u.config.maxHp, u.hp > 0)];
      }
      assert results == UnitResults(old(View()).units);
      var plain := Result(setup.battleId, outcome, tick, results, events, "");
      sealed := plain.(checksum := digest(plain));
    }
  }

  // NewBattle: a battle in its initial state exactly when the setup is valid.
  method NewBattle(setup: Setup, digest: Result -> string) returns (battle: Battle?, err: Option<Invalid>)
    ensures battle != null <==> Config.Valid(setup)
    ensures battle == null <==> err.Some?
    ensures battle != null ==> fresh(battle) && fresh(battle.rng) && fresh(battle.units)
    ensures battle != null ==> battle.Valid() && !battle.finished && battle.setup == setup && battle.digest == digest
    ensures battle != null ==> battle.View() == Initial(setup) && Env(setup.rules, battle.dice, battle.pipeline) == EnvOf(setup)
    ensures battle == null && HeaderFault(setup).Some? ==> err == HeaderFault(setup)
  {
    hide StreamOf, Output;
    err := Validate(setup);
    if err.Some? {
      return null, err;
    }
    var units: seq<Unit> := [];
    for n := 0 to |setup.units|
      invariant |units| == n
      invariant fresh(units)
      invariant forall i :: 0 <= i < n ==> units[i].index == i && units[i].View() == InitialUnit(setup.units[i])
    {
      var u := new Unit(setup.units[n], n);
      units := units + [u];
    }
    battle := new Battle(setup, units, digest);
    assert battle.View().units == Initial(setup).units;
  }
}
