// The event log is a faithful record: replaying it from full health reproduces every
// hit-point figure it mentions and ends at the hit points the battle ends with.
module EventLog {
  import opened Common
  import opened Config
  import opened BattleModel
  import opened Choice
  import opened Frames
  import opened Scheduler
  import Damage

  type Ledger = map<string, int>

  predicate Lives(hp: Ledger, id: string) {
    id in hp && hp[id] > 0
  }

  // Does an event agree with the hit points known so far? Only the living act, are hit,
  // healed or given a status; the end of an action may find its actor dead.
  predicate Agrees(hp: Ledger, e: Event) {
    match e.kind
    case BattleEnded => e.before == 0 && e.after == 0
    case ActionEnded => e.actor in hp && hp[e.actor] == e.before == e.after
    case DamageDealt => Lives(hp, e.actor) && Lives(hp, e.target) && hp[e.target] == e.before && e.after == e.before - e.amount
    case Healed => Lives(hp, e.actor) && Lives(hp, e.target) && hp[e.target] == e.before && e.after == e.before + e.amount
    case StatusApplied => Lives(hp, e.actor) && Lives(hp, e.target) && hp[e.target] == e.before == e.after
    case _ => Lives(hp, e.actor) && hp[e.actor] == e.before == e.after
  }

  function Posted(hp: Ledger, e: Event): Ledger {
    if e.kind.DamageDealt? || e.kind.Healed? then hp[e.target := e.after] else hp
  }

  // Fold the log; None as soon as an event disagrees.
  function Replay(hp: Ledger, events: seq<Event>): Option<Ledger> {
    if events == [] then Some(hp) else
      match Replay(hp, events[..|events| - 1])
      case None => None
      case Some(now) =>
        var e := events[|events| - 1];
        if Agrees(now, e) then Some(Posted(now, e)) else None
  }

  // Sequences count from one; ticks and action numbers never run backwards.
  ghost predicate InOrder(s: State) {
    && (forall i :: 0 <= i < |s.events| ==>
          s.events[i].sequence == i + 1 && s.events[i].tick <= s.tick && s.events[i].action <= s.action)
    && (forall i, j :: 0 <= i < j < |s.events| ==>
          s.events[i].tick <= s.events[j].tick && s.events[i].action <= s.events[j].action)
  }

  function LedgerOf(units: seq<UnitState>): Ledger {
    if units == [] then map[] else
      LedgerOf(units[..|units| - 1])[units[|units| - 1].config.instanceId := units[|units| - 1].hp]
  }

  ghost predicate Faithful(start: Ledger, s: State) {
    Roster(s.units) && InOrder(s) && Replay(start, s.events) == Some(LedgerOf(s.units))
  }

  // ---- the ledger of a roster ----

  lemma {:induction false} LedgerEntry(units: seq<UnitState>, i: nat)
    requires Roster(units) && i < |units|
    ensures units[i].config.instanceId in LedgerOf(units)
    ensures LedgerOf(units)[units[i].config.instanceId] == units[i].hp
  {
    if i < |units| - 1 {
      LedgerEntry(units[..|units| - 1], i);
      assert units[..|units| - 1][i] == units[i];
    }
  }

  lemma UpdatesCommute(m: Ledger, a: string, x: int, b: string, y: int)
    requires a != b
    ensures m[a := x][b := y] == m[b := y][a := x]
  {
  }

  lemma {:induction false} LedgerUpdate(units: seq<UnitState>, i: nat, hp: int)
    requires Roster(units) && i < |units|
    ensures LedgerOf(units[i := units[i].(hp := hp)]) == LedgerOf(units)[units[i].config.instanceId := hp]
  {
    hide WellFormed;
    var n := |units| - 1;
    var after := units[i := units[i].(hp := hp)];
    if i == n {
      assert after[..n] == units[..n];
    } else {
      LedgerUpdate(units[..n], i, hp);
      assert after[..n] == units[..n][i := units[..n][i].(hp := hp)];
      UpdatesCommute(LedgerOf(units[..n]), units[i].config.instanceId, hp, units[n].config.instanceId, units[n].hp);
    }
  }

  lemma {:induction false} LedgerIgnoresTheRest(units: seq<UnitState>, after: seq<UnitState>)
    requires SameLives(units, after)
    ensures LedgerOf(after) == LedgerOf(units)
  {
    if units != [] {
      var n := |units| - 1;
      LedgerIgnoresTheRest(units[..n], after[..n]);
    }
  }

  ghost predicate SameLives(units: seq<UnitState>, after: seq<UnitState>) {
    |after| == |units| && forall i :: 0 <= i < |units| ==> after[i].config == units[i].config && after[i].hp == units[i].hp
  }

  // ---- keeping the log faithful ----

  lemma QuietChange(start: Ledger, s: State, r: State)
    requires Faithful(start, s) && SameLives(s.units, r.units)
    requires r.events == s.events && r.tick >= s.tick && r.action >= s.action
    ensures Faithful(start, r)
  {
    LedgerIgnoresTheRest(s.units, r.units);
  }

  lemma Append(start: Ledger, s: State, e: Event)
    requires Faithful(start, s) && Agrees(LedgerOf(s.units), e)
    requires e.sequence == |s.events| + 1 && e.tick == s.tick && e.action == s.action
    ensures InOrder(s.(events := s.events + [e]))
    ensures Replay(start, s.events + [e]) == Some(Posted(LedgerOf(s.units), e))
  {
    hide Agrees, Posted, LedgerOf;
    assert (s.events + [e])[..|s.events|] == s.events;
  }

  // An announcement by unit a keeps the log faithful.
  lemma AnnounceIsFaithful(start: Ledger, s: State, a: nat, kind: EventType, skill: string, detail: string)
    requires Faithful(start, s) && a < |s.units|
    requires kind.ActionEnded? || (Alive(s.units[a]) && (kind.ActionStarted? || kind.SkillUsed? || kind.ActionSkipped?))
    ensures Faithful(start, Announced(s, a, kind, skill, detail))
  {
    hide LedgerOf, Replay;
    LedgerEntry(s.units, a);
    var r := Announced(s, a, kind, skill, detail);
    Append(start, s, r.events[|s.events|]);
  }

  // A change of hit points by unit a to unit t, logged as damage or healing.
  lemma ChangeIsFaithful(start: Ledger, s: State, a: nat, t: nat, hp: int, kind: EventType,
                         skill: string, status: string, amount: int, detail: string)
    requires Faithful(start, s) && a < |s.units| && t < |s.units| && Alive(s.units[a]) && Alive(s.units[t])
    requires kind.DamageDealt? || kind.Healed?
    requires amount == if kind.DamageDealt? then s.units[t].hp - hp else hp - s.units[t].hp
    ensures Faithful(start, Emitted(WithHp(s, t, hp), kind, s.units[a].config.instanceId, s.units[t].config.instanceId,
                                    skill, status, amount, s.units[t].hp, hp, detail))
  {
    hide LedgerOf, Replay, Roster;
    LedgerEntry(s.units, a);
    LedgerEntry(s.units, t);
    LedgerUpdate(s.units, t, hp);
    var r := Emitted(WithHp(s, t, hp), kind, s.units[a].config.instanceId, s.units[t].config.instanceId,
                     skill, status, amount, s.units[t].hp, hp, detail);
    Append(start, s, r.events[|s.events|]);
    SameRosterAfter(s.units, r.units);
  }

  lemma SameRosterAfter(units: seq<UnitState>, after: seq<UnitState>)
    requires Roster(units) && |after| == |units|
    requires forall i :: 0 <= i < |units| ==> after[i].config == units[i].config
    ensures Roster(after)
  {
  }

  lemma {:induction false} TicksAreFaithful(start: Ledger, s: State, a: nat, statuses: seq<ActiveStatus>)
    requires Faithful(start, s) && a < |s.units|
    ensures Faithful(start, PeriodicTicks(s, a, statuses))
    decreases |statuses|
  {
    if statuses != [] && Alive(s.units[a]) {
      var status := statuses[0];
      TickIsFaithful(start, s, a, status);
      hide PeriodicTick, Faithful;
      TicksAreFaithful(start, PeriodicTick(s, a, status), a, statuses[1..]);
    }
  }

  lemma TickIsFaithful(start: Ledger, s: State, a: nat, status: ActiveStatus)
    requires Faithful(start, s) && a < |s.units| && Alive(s.units[a])
    ensures Faithful(start, PeriodicTick(s, a, status))
  {
    hide Faithful, Emitted, WithHp;
    var u := s.units[a];
    match status.config.kind
    case Dot =>
      var amount := Min(status.config.potency, u.hp);
      ChangeIsFaithful(start, s, a, a, u.hp - amount, DamageDealt, "", status.config.id, amount, "dot");
    case Hot =>
      var hp := Min(u.config.maxHp, u.hp + status.config.potency);
      ChangeIsFaithful(start, s, a, a, hp, Healed, "", status.config.id, hp - u.hp, "hot");
    case _ =>
  }

  lemma StrikeIsFaithful(start: Ledger, env: Env, s: State, a: nat, t: nat, skill: SkillConfig, effect: EffectConfig)
    requires Faithful(start, s) && a < |s.units| && t < |s.units| && Alive(s.units[a]) && Alive(s.units[t])
    ensures Faithful(start, Strike(env, s, a, t, skill, effect))
  {
    hide Faithful, Emitted, WithHp, AttackOf, DefenseOf;
    var (hit, draws) := Damage.Piped(env.pipeline, HitContext(env.rules, AttackOf(s.units[a]), DefenseOf(s.units[t]), effect),
                                     env.dice, s.draws);
    hide Damage.Piped;
    var drawn := s.(draws := draws);
    assert Faithful(start, drawn) by {
      QuietChange(start, s, drawn);
    }
    var amount := Min(hit.amount, s.units[t].hp);
    ChangeIsFaithful(start, drawn, a, t, s.units[t].hp - amount, DamageDealt, skill.id, "", amount,
                     if hit.critical then "critical" else "");
  }

  lemma EffectIsFaithful(start: Ledger, env: Env, s: State, a: nat, t: nat, skill: SkillConfig, effect: EffectConfig)
    requires Faithful(start, s) && a < |s.units| && t < |s.units| && (Alive(s.units[a]) || t == a)
    ensures Faithful(start, ApplyEffect(env, s, a, t, skill, effect))
  {
    hide Faithful, Strike, Emitted, WithHp, HealAmount, AttackOf;
    if Alive(s.units[t]) {
      match effect.kind
      case Damage => StrikeIsFaithful(start, env, s, a, t, skill, effect);
      case Heal =>
        var hp := Min(s.units[t].config.maxHp, s.units[t].hp + HealAmount(AttackOf(s.units[a]), effect));
        ChangeIsFaithful(start, s, a, t, hp, Healed, skill.id, "", hp - s.units[t].hp, "");
      case ApplyStatus => StatusIsFaithful(start, s, a, t, skill.id, effect.statusId);
      case OtherEffect =>
    }
  }

  lemma StatusIsFaithful(start: Ledger, s: State, a: nat, t: nat, skill: string, status: string)
    requires Faithful(start, s) && a < |s.units| && t < |s.units| && Alive(s.units[a]) && Alive(s.units[t])
    ensures Faithful(start, Emitted(s, StatusApplied, s.units[a].config.instanceId, s.units[t].config.instanceId,
                                    skill, status, 0, s.units[t].hp, s.units[t].hp, "unsupported status config"))
  {
    hide LedgerOf, Replay, Roster;
    LedgerEntry(s.units, a);
    LedgerEntry(s.units, t);
    var r := Emitted(s, StatusApplied, s.units[a].config.instanceId, s.units[t].config.instanceId,
                     skill, status, 0, s.units[t].hp, s.units[t].hp, "unsupported status config");
    Append(start, s, r.events[|s.events|]);
  }

  lemma {:induction false} EffectsAreFaithful(start: Ledger, env: Env, s: State, a: nat, t: nat, skill: SkillConfig, effects: seq<EffectConfig>)
    requires Faithful(start, s) && a < |s.units| && t < |s.units| && (Alive(s.units[a]) || t == a)
    ensures Faithful(start, ApplyEffects(env, s, a, t, skill, effects))
    decreases |effects|
  {
    hide Faithful, ApplyEffect;
    if effects != [] {
      EffectIsFaithful(start, env, s, a, t, skill, effects[0]);
      ApplyEffectTouches(env, s, a, t, skill, effects[0]);
      EffectsAreFaithful(start, env, ApplyEffect(env, s, a, t, skill, effects[0]), a, t, skill, effects[1..]);
    }
  }

  // The actor is not among its own targets, or it is the only one.
  lemma {:induction false} HitsAreFaithful(start: Ledger, env: Env, s: State, a: nat, targets: seq<nat>, skill: SkillConfig)
    requires Faithful(start, s) && a < |s.units| && forall t :: t in targets ==> t < |s.units|
    requires targets != [] ==> Alive(s.units[a]) && (a !in targets || |targets| == 1)
    ensures Faithful(start, ApplyToTargets(env, s, a, targets, skill))
    decreases |targets|
  {
    hide Faithful, ApplyEffects;
    if targets != [] {
      assert targets[0] in targets && forall t :: t in targets[1..] ==> t in targets;
      EffectsAreFaithful(start, env, s, a, targets[0], skill, skill.effects);
      ApplyEffectsTouch(env, s, a, targets[0], skill, skill.effects);
      HitsAreFaithful(start, env, ApplyEffects(env, s, a, targets[0], skill, skill.effects), a, targets[1..], skill);
    }
  }

  lemma ActorIsAloneOrAbsent(units: seq<UnitState>, a: nat, rule: TargetRule)
    requires a < |units|
    ensures a !in Targets(units, a, rule) || |Targets(units, a, rule)| == 1
  {
  }

  lemma ActIsFaithful(start: Ledger, env: Env, s: State, a: nat)
    requires Faithful(start, s) && a < |s.units|
    ensures Faithful(start, Act(env, s, a))
  {
    hide Faithful, Targets, ChooseSkill, ApplyToTargets, CooldownsAfterUse, Announced;
    if Alive(s.units[a]) {
      if HasStatus(s.units[a].statuses, Stun) {
        AnnounceIsFaithful(start, s, a, ActionSkipped, "", "stun");
      } else {
        var skill := ChooseSkill(s.units[a]);
        var targets := Targets(s.units, a, skill.targetRule);
        var s1 := Announced(s, a, SkillUsed, skill.id, "");
        AnnounceIsFaithful(start, s, a, SkillUsed, skill.id, "");
        AnnounceKeepsUnits(s, a, SkillUsed, skill.id, "");
        ActorIsAloneOrAbsent(s.units, a, skill.targetRule);
        HitsAreFaithful(start, env, s1, a, targets, skill);
        var s2 := ApplyToTargets(env, s1, a, targets, skill);
        QuietChange(start, s2, WithUnit(s2, a, s2.units[a].(cooldowns := CooldownsAfterUse(s2.units[a], skill))));
      }
    }
  }

  lemma AnnounceKeepsUnits(s: State, a: nat, kind: EventType, skill: string, detail: string)
    requires a < |s.units|
    ensures Announced(s, a, kind, skill, detail).units == s.units
  {
  }

  lemma StartIsFaithful(start: Ledger, s: State, a: nat)
    requires Faithful(start, s) && a < |s.units| && Alive(s.units[a])
    ensures Faithful(start, StartAction(s, a))
  {
    hide Faithful, PeriodicTicks, CooledDown, Announced;
    var s0 := s.(action := s.action + 1);
    QuietChange(start, s, s0);
    AnnounceIsFaithful(start, s0, a, ActionStarted, "", "");
    AnnounceKeepsUnits(s0, a, ActionStarted, "", "");
    var s1 := Announced(s0, a, ActionStarted, "", "");
    var s2 := WithUnit(s1, a, s1.units[a].(cooldowns := CooledDown(s1.units[a].cooldowns)));
    QuietChange(start, s1, s2);
    TicksAreFaithful(start, s2, a, s2.units[a].statuses);
  }

  lemma EndIsFaithful(start: Ledger, env: Env, s: State, a: nat)
    requires Faithful(start, s) && a < |s.units|
    ensures Faithful(start, EndAction(env, s, a))
  {
    hide Faithful, Expired, Announced;
    var u := s.units[a];
    var s1 := WithUnit(s, a, u.(statuses := Expired(u.statuses), gauge := Max(0, u.gauge - env.rules.atbThreshold)));
    QuietChange(start, s, s1);
    AnnounceIsFaithful(start, s1, a, ActionEnded, "", "");
  }

  lemma StepIsFaithful(start: Ledger, env: Env, s: State)
    requires Faithful(start, s) && Acting(env, s).Some?
    ensures Faithful(start, Execute(env, Jumped(env, s), Acting(env, s).value))
  {
    hide Faithful, StartAction, Act, EndAction, Delta, PickReady, Decided, SpeedOf;
    var a, j := Acting(env, s).value, Jumped(env, s);
    DeltaMovesForward(env.rules.atbThreshold, s);
    QuietChange(start, s, j);
    StartIsFaithful(start, j, a);
    ActIsFaithful(start, env, StartAction(j, a), a);
    EndIsFaithful(start, env, Act(env, StartAction(j, a), a), a);
  }

  lemma DeltaMovesForward(threshold: int, s: State)
    ensures Jump(threshold, s).tick >= s.tick && SameLives(s.units, Jump(threshold, s).units)
  {
  }

  // From a validated setup, at every point of every run, the log so far is numbered 1..n
  // with ticks and actions never decreasing, and replaying it from full health meets every
  // figure and ends at the current hit points.
  lemma {:induction false} LogReplaysTheBattle(env: Env, setup: Setup, k: nat)
    requires Valid(setup)
    ensures Faithful(LedgerOf(Initial(setup).units), Head(env, Initial(setup), k))
  {
    hide Head, Initial, Execute, Jumped, Acting, Faithful, LedgerOf;
    var s0 := Initial(setup);
    if k == 0 {
      HeadStart(env, s0);
      EmptyLogIsFaithful(setup);
    } else {
      LogReplaysTheBattle(env, setup, k - 1);
      HeadStep(env, s0, k - 1);
      if Acting(env, Head(env, s0, k - 1)).Some? {
        StepIsFaithful(LedgerOf(s0.units), env, Head(env, s0, k - 1));
      }
    }
  }

  lemma EmptyLogIsFaithful(setup: Setup)
    requires Valid(setup)
    ensures Faithful(LedgerOf(Initial(setup).units), Initial(setup))
  {
    hide LedgerOf;
    InitialRoster(setup);
  }

  predicate Records(hp: Ledger, id: string, amount: int) {
    id in hp && hp[id] == amount
  }

  // The published result: its event list replays from maximum health to its unit list.
  lemma ResultReplays(env: Env, setup: Setup, i: nat, digest: Result -> string)
    requires Valid(setup) && i < |setup.units|
    ensures |Sealed(setup, Head(env, Initial(setup), setup.rules.maxActions), digest).units| == |setup.units|
    ensures var start := LedgerOf(Initial(setup).units);
            var result := Sealed(setup, Head(env, Initial(setup), setup.rules.maxActions), digest);
            && Records(start, setup.units[i].instanceId, setup.units[i].maxHp)
            && Replay(start, result.events).Some?
            && Records(Replay(start, result.events).value, setup.units[i].instanceId, result.units[i].hp)
            && result.units[i].instanceId == setup.units[i].instanceId
  {
    hide Head, LedgerOf, Replay;
    var s := Head(env, Initial(setup), setup.rules.maxActions);
    LogReplaysTheBattle(env, setup, setup.rules.maxActions);
    RosterAtHead(env, setup, setup.rules.maxActions);
    InitialRoster(setup);
    LedgerEntry(Initial(setup).units, i);
    LedgerEntry(s.units, i);
    Append(LedgerOf(Initial(setup).units), s, Concluded(s).events[|s.events|]);
  }
}
