// How battles end: mutual annihilation is impossible, a draw means the action cap was
// reached, and aggressive configurations are decided long before any cap.
module Outcomes {
  import opened Common
  import opened Config
  import opened BattleModel
  import opened Choice
  import opened Frames
  import opened Scheduler
  import Damage
  import Rng

  // ---- one action kills units of one team only ----

  predicate Falls(u: UnitState, v: UnitState) {
    Alive(u) && !Alive(v)
  }

  lemma OneTeamFalls(env: Env, s: State, a: nat, i: nat, j: nat)
    requires Roster(s.units) && a < |s.units| && i < |s.units| && j < |s.units|
    requires Falls(s.units[i], Execute(env, s, a).units[i]) && Falls(s.units[j], Execute(env, s, a).units[j])
    ensures s.units[i].config.team == s.units[j].config.team
  {
    hide StartAction, Act, Expired, Targets, ChooseSkill;
    StartActionFrame(s, a);
    var s1 := StartAction(s, a);
    ActFrame(env, s1, a);
    if Alive(s1.units[a]) {
      var rule := ChooseSkill(s1.units[a]).targetRule;
      forall t | t in Reach(s1, a)
        ensures s1.units[t].config.team == s1.units[a].config.team <==> rule.Self? || rule.AllyLowestHp?
      {
        TargetsAreOneTeam(s1.units, a, rule, t);
      }
    } else {
      DeadDoNothing(env, s1, a);
    }
  }

  lemma DeadDoNothing(env: Env, s: State, a: nat)
    requires a < |s.units| && !Alive(s.units[a])
    ensures Act(env, s, a) == s
  {
  }

  lemma Survivor(env: Env, s: State, a: nat)
    requires Roster(s.units) && a < |s.units|
    requires TeamAlive(s.units, Attacker) && TeamAlive(s.units, Defender)
    ensures var r := Execute(env, s, a).units; TeamAlive(r, Attacker) || TeamAlive(r, Defender)
  {
    hide Execute, Expired;
    ExecuteFrame(env, s, a);
    var r := Execute(env, s, a);
    var i :| 0 <= i < |s.units| && s.units[i].config.team == Attacker && Alive(s.units[i]);
    var j :| 0 <= j < |s.units| && s.units[j].config.team == Defender && Alive(s.units[j]);
    if Falls(s.units[i], r.units[i]) && Falls(s.units[j], r.units[j]) {
      OneTeamFalls(env, s, a, i, j);
    }
  }

  lemma StepLeavesSurvivor(env: Env, s: State)
    requires Roster(s.units) && Acting(env, s).Some?
    ensures var r := Execute(env, Jumped(env, s), Acting(env, s).value).units;
            TeamAlive(r, Attacker) || TeamAlive(r, Defender)
  {
    hide Execute, Jump, TeamAlive, PickReady;
    UndecidedIsAlive(s);
    RosterJumps(env.rules.atbThreshold, s);
    JumpKeepsTeams(env.rules.atbThreshold, s);
    Survivor(env, Jumped(env, s), Acting(env, s).value);
  }

  // At every point of every run somebody is alive.
  lemma {:induction false} SomeoneSurvives(env: Env, setup: Setup, k: nat)
    requires Valid(setup)
    ensures var units := Head(env, Initial(setup), k).units; TeamAlive(units, Attacker) || TeamAlive(units, Defender)
  {
    hide Head, Initial, Execute, Jumped, TeamAlive, Acting;
    if k == 0 {
      InitialTeams(setup);
      HeadStart(env, Initial(setup));
    } else {
      SomeoneSurvives(env, setup, k - 1);
      HeadStep(env, Initial(setup), k - 1);
      var s := Head(env, Initial(setup), k - 1);
      RosterAtHead(env, setup, k - 1);
      if Acting(env, s).Some? {
        StepLeavesSurvivor(env, s);
      }
    }
  }

  lemma InitialTeams(setup: Setup)
    requires Valid(setup)
    ensures TeamAlive(Initial(setup).units, Attacker) && TeamAlive(Initial(setup).units, Defender)
    ensures !Decided(Initial(setup))
  {
  }

  lemma JumpKeepsTeams(threshold: int, s: State)
    ensures forall team :: TeamAlive(Jump(threshold, s).units, team) <==> TeamAlive(s.units, team)
  {
  }

  lemma ActionStep(env: Env, setup: Setup, k: nat)
    requires Valid(setup)
    ensures var s := Head(env, Initial(setup), k);
            Head(env, Initial(setup), k + 1).action == s.action + (if Decided(s) then 0 else 1)
  {
    hide Head, Initial, Execute, Jumped, Delta, Expired, Fed, Decided;
    var s0 := Initial(setup);
    RosterAtHead(env, setup, k);
    RosterAtHead(env, setup, 0);
    HeadStart(env, s0);
    UnitStep(env, s0, 0, k);
    if Decided(Head(env, s0, k)) {
      DecidedIsIdle(env, Head(env, s0, k));
    } else {
      SomeoneActs(env, Head(env, s0, k));
    }
  }

  lemma DecidedIsIdle(env: Env, s: State)
    requires Decided(s)
    ensures Acting(env, s).None?
  {
  }

  lemma {:induction false} ActionsAreCounted(env: Env, setup: Setup, k: nat)
    requires Valid(setup)
    ensures Head(env, Initial(setup), k).action <= k
    ensures !Decided(Head(env, Initial(setup), k)) ==> Head(env, Initial(setup), k).action == k
  {
    hide Head, Initial, Decided;
    if k == 0 {
      HeadStart(env, Initial(setup));
      InitialAction(setup);
    } else {
      ActionsAreCounted(env, setup, k - 1);
      ActionStep(env, setup, k - 1);
      if Decided(Head(env, Initial(setup), k - 1)) {
        HeadRests(env, Initial(setup), k - 1);
      }
    }
  }

  lemma HeadRests(env: Env, s0: State, k: nat)
    requires Decided(Head(env, s0, k))
    ensures Head(env, s0, k + 1) == Head(env, s0, k)
  {
  }

  lemma InitialAction(setup: Setup)
    ensures Initial(setup).action == 0 && Initial(setup).tick == 0 && Initial(setup).events == []
  {
  }

  // Run always succeeds on a valid setup, whatever the dice, and ends in the head state
  // after MaxActions iterations. The outcome is exact: a draw means the cap was exhausted
  // with both teams standing; otherwise the named winner stands and the loser has nobody.
  lemma OutcomeIsExact(env: Env, setup: Setup)
    requires Valid(setup)
    ensures var s := Head(env, Initial(setup), setup.rules.maxActions);
            var attacker, defender := TeamAlive(s.units, Attacker), TeamAlive(s.units, Defender);
            && Loop(env, Initial(setup), setup.rules.maxActions) == Some(s)
            && s.action <= setup.rules.maxActions
            && (FinalOutcome(s.units) == Draw <==> s.action == setup.rules.maxActions && attacker && defender)
            && (FinalOutcome(s.units) == AttackerWin <==> attacker && !defender)
            && (FinalOutcome(s.units) == DefenderWin <==> defender && !attacker)
            && FinalOutcome(s.units) != NoOutcome
  {
    hide Head, Loop, Initial, TeamAlive;
    InitialRoster(setup);
    LoopIsHead(env, Initial(setup), setup.rules.maxActions);
    SomeoneSurvives(env, setup, setup.rules.maxActions);
    ActionsAreCounted(env, setup, setup.rules.maxActions);
  }

  // So the engine's answer on a valid setup is a function of the setup alone, and the error
  // return of Run is unreachable.
  lemma RunAlwaysAnswers(setup: Setup, digest: Result -> string)
    requires Valid(setup)
    ensures Run(setup, digest)
         == Some(Sealed(setup, Head(EnvOf(setup), Initial(setup), setup.rules.maxActions), digest))
  {
    hide Head, Loop, Initial, Sealed;
    OutcomeIsExact(EnvOf(setup), setup);
  }

  // A battle is played by its own rules, through the five damage stages in order, with the
  // words of its own seed: the k-th word it draws, written out.
  lemma BattleDrawsItsSeed(setup: Setup, k: nat)
    ensures EnvOf(setup).rules == setup.rules
    ensures EnvOf(setup).pipeline == [Damage.Base, Damage.Scale, Damage.Variance, Damage.Critical, Damage.Floor]
    ensures var z0 := (setup.seed + (k + 1) * 0x9e37_79b9_7f4a_7c15) % 0x1_0000_0000_0000_0000;
            var z1 := Rng.Xor(z0, z0 / 0x4000_0000) * 0xbf58_476d_1ce4_e5b9 % 0x1_0000_0000_0000_0000;
            var z2 := Rng.Xor(z1, z1 / 0x800_0000) * 0x94d0_49bb_1331_11eb % 0x1_0000_0000_0000_0000;
            EnvOf(setup).dice(k) == Rng.Xor(z2, z2 / 0x8000_0000)
  {
    hide Rng.Output, Rng.Xor;
    Rng.OutputClosedForm(setup.seed, k);
  }

  // The published result tells what happened: every unit as it ended, the tick reached, the
  // whole log closed by BATTLE_ENDED, and the winner that its own unit list shows.
  lemma ResultIsTruthful(setup: Setup, digest: Result -> string, i: nat)
    requires Valid(setup) && i < |setup.units|
    ensures Run(setup, digest).Some?
    ensures var result := Run(setup, digest).value;
            var s := Head(EnvOf(setup), Initial(setup), setup.rules.maxActions);
            && |result.units| == |s.units| == |setup.units|
            && result.battleId == setup.battleId && result.tick == s.tick
            && result.units[i].instanceId == setup.units[i].instanceId && result.units[i].team == setup.units[i].team
            && result.units[i].maxHp == setup.units[i].maxHp
            && result.units[i].hp == s.units[i].hp && (result.units[i].alive <==> s.units[i].hp > 0)
            && |result.events| == |s.events| + 1 && s.events <= result.events
            && result.events[|s.events|].kind.BattleEnded?
            && result.checksum == digest(result.(checksum := ""))
    ensures var result := Run(setup, digest).value;
            var detail := result.events[|result.events| - 1].detail;
            var attacker, defender := Standing(result.units, Attacker), Standing(result.units, Defender);
            && (result.outcome == AttackerWin <==> attacker && !defender) && (result.outcome == AttackerWin <==> detail == "outcome=1")
            && (result.outcome == DefenderWin <==> defender && !attacker) && (result.outcome == DefenderWin <==> detail == "outcome=2")
            && (result.outcome == Draw <==> attacker && defender) && (result.outcome == Draw <==> detail == "outcome=3")
  {
    hide Head, Loop, Initial, Run;
    var env, s0 := EnvOf(setup), Initial(setup);
    var s := Head(env, s0, setup.rules.maxActions);
    RunAlwaysAnswers(setup, digest);
    RosterAtHead(env, setup, setup.rules.maxActions);
    OutcomeIsExact(env, setup);
    SomeoneSurvives(env, setup, setup.rules.maxActions);
    StandingIsAlive(s.units, Attacker);
    StandingIsAlive(s.units, Defender);
    SealedSays(setup, s, digest);
  }

  ghost predicate Standing(units: seq<UnitResult>, team: Team) {
    exists i :: 0 <= i < |units| && units[i].team == team && units[i].alive
  }

  lemma StandingIsAlive(units: seq<UnitState>, team: Team)
    ensures Standing(UnitResults(units), team) <==> TeamAlive(units, team)
  {
    var r := UnitResults(units);
    if TeamAlive(units, team) {
      var i :| 0 <= i < |units| && units[i].config.team == team && Alive(units[i]);
      assert r[i].team == team && r[i].alive;
    }
  }

  lemma SealedSays(setup: Setup, s: State, digest: Result -> string)
    ensures var result := Sealed(setup, s, digest);
            && result.battleId == setup.battleId && result.tick == s.tick && result.units == UnitResults(s.units)
            && |result.events| == |s.events| + 1 && s.events <= result.events && result.events[|s.events|].kind.BattleEnded?
            && result.outcome == FinalOutcome(s.units) && result.events[|s.events|].detail == OutcomeDetail(result.outcome)
            && result.checksum == digest(result.(checksum := ""))
  {
    hide FinalOutcome, OutcomeDetail;
  }

  // ---- the range of hit points ----

  // Periodic statuses with negative potency are accepted by validation. A status keeps every
  // living unit's hit points within 0..max exactly when its potency is not too negative.
  predicate Gentle(status: StatusConfig) {
    match status.kind
    case Dot => status.potency >= 0
    case Hot => status.potency >= -1
    case _ => true
  }

  predicate HpInRange(u: UnitState) {
    0 <= u.hp <= u.config.maxHp
  }

  lemma GentleExactly(s: State, a: nat, status: ActiveStatus)
    requires a < |s.units| && s.units[a].config.maxHp > 0
    ensures Gentle(status.config) <==>
              forall hp :: 0 < hp <= s.units[a].config.maxHp ==> TickStaysInRange(s, a, hp, status)
  {
    if !Gentle(status.config) {
      var hp := if status.config.kind.Dot? then s.units[a].config.maxHp else 1;
      assert !TickStaysInRange(s, a, hp, status);
    }
  }

  predicate TickStaysInRange(s: State, a: nat, hp: int, status: ActiveStatus)
    requires a < |s.units| && hp > 0
  {
    HpInRange(PeriodicTick(WithHp(s, a, hp), a, status).units[a])
  }

  predicate AllGentle(statuses: seq<ActiveStatus>) {
    forall j :: 0 <= j < |statuses| ==> Gentle(statuses[j].config)
  }

  predicate AllInRange(units: seq<UnitState>) {
    forall i :: 0 <= i < |units| ==> HpInRange(units[i])
  }

  lemma {:induction false} TicksStayInRange(s: State, a: nat, statuses: seq<ActiveStatus>)
    requires a < |s.units| && AllInRange(s.units) && AllGentle(statuses)
    ensures AllInRange(PeriodicTicks(s, a, statuses).units)
    decreases |statuses|
  {
    if statuses != [] && Alive(s.units[a]) {
      var m := PeriodicTick(s, a, statuses[0]);
      assert AllInRange(m.units);
      hide PeriodicTick, Gentle;
      TicksStayInRange(m, a, statuses[1..]);
    }
  }

  lemma HitIsPositive(env: Env, c: Damage.Context, draws: nat)
    requires env.pipeline == Damage.STAGES
    ensures Damage.Piped(env.pipeline, c, env.dice, draws).0.amount >= 1
  {
  }

  lemma EffectStaysInRange(env: Env, s: State, a: nat, t: nat, skill: SkillConfig, effect: EffectConfig)
    requires env.pipeline == Damage.STAGES && a < |s.units| && t < |s.units| && AllInRange(s.units)
    ensures AllInRange(ApplyEffect(env, s, a, t, skill, effect).units)
    ensures effect.kind != Heal ==> ApplyEffect(env, s, a, t, skill, effect).units[t].hp <= s.units[t].hp
    ensures effect.kind == Damage && Alive(s.units[t]) ==>
              ApplyEffect(env, s, a, t, skill, effect).units[t].hp < s.units[t].hp
  {
    hide Damage.Piped, AttackOf, DefenseOf;
    HitIsPositive(env, HitContext(env.rules, AttackOf(s.units[a]), DefenseOf(s.units[t]), effect), s.draws);
    assert HealAmount(AttackOf(s.units[a]), effect) >= 0;
    hide HealAmount;
  }

  lemma {:induction false} EffectsStayInRange(env: Env, s: State, a: nat, t: nat, skill: SkillConfig, effects: seq<EffectConfig>)
    requires env.pipeline == Damage.STAGES && a < |s.units| && t < |s.units| && AllInRange(s.units)
    ensures AllInRange(ApplyEffects(env, s, a, t, skill, effects).units)
    ensures NeverHeals(effects) ==> ApplyEffects(env, s, a, t, skill, effects).units[t].hp <= s.units[t].hp
    ensures NeverHeals(effects) && Hurts(effects) && Alive(s.units[t]) ==>
              ApplyEffects(env, s, a, t, skill, effects).units[t].hp < s.units[t].hp
    decreases |effects|
  {
    if effects != [] {
      var m := ApplyEffect(env, s, a, t, skill, effects[0]);
      EffectStaysInRange(env, s, a, t, skill, effects[0]);
      EffectsStayInRange(env, m, a, t, skill, effects[1..]);
      hide ApplyEffect;
      assert NeverHeals(effects) ==> NeverHeals(effects[1..]);
      if Hurts(effects) && effects[0].kind != Damage {
        var j :| 0 <= j < |effects| && effects[j].kind == Damage;
        assert effects[1..][j - 1] == effects[j];
      }
    }
  }

  predicate NeverHeals(effects: seq<EffectConfig>) {
    forall j :: 0 <= j < |effects| ==> effects[j].kind != Heal
  }

  predicate Hurts(effects: seq<EffectConfig>) {
    exists j :: 0 <= j < |effects| && effects[j].kind == Damage
  }

  lemma {:induction false} TargetsStayInRange(env: Env, s: State, a: nat, targets: seq<nat>, skill: SkillConfig)
    requires env.pipeline == Damage.STAGES && a < |s.units| && AllInRange(s.units)
    requires forall t :: t in targets ==> t < |s.units|
    ensures AllInRange(ApplyToTargets(env, s, a, targets, skill).units)
    decreases |targets|
  {
    if targets != [] {
      assert targets[0] in targets && forall t :: t in targets[1..] ==> t in targets;
      hide ApplyEffects, AllInRange;
      EffectsStayInRange(env, s, a, targets[0], skill, skill.effects);
      TargetsStayInRange(env, ApplyEffects(env, s, a, targets[0], skill, skill.effects), a, targets[1..], skill);
    }
  }

  ghost predicate Healthy(units: seq<UnitState>) {
    AllInRange(units) && forall i :: 0 <= i < |units| ==> AllGentle(units[i].statuses)
  }

  lemma StepStaysHealthy(env: Env, s: State)
    requires env.pipeline == Damage.STAGES && Acting(env, s).Some? && Healthy(s.units)
    ensures Healthy(Execute(env, Jumped(env, s), Acting(env, s).value).units)
  {
    hide Execute, Acting, AllInRange, AllGentle, Expired, Delta, Fed, Jump;
    var a, j := Acting(env, s).value, Jumped(env, s);
    JumpKeepsRange(env.rules.atbThreshold, s);
    StepFrame(env, s, a);
    ExecuteStaysInRange(env, j, a);
    GentleSurvive(s.units[a].statuses);
  }

  // Hit points stay within 0..max at every loop head when every initial status is gentle.
  lemma {:induction false} HpStaysInRange(env: Env, setup: Setup, k: nat)
    requires Valid(setup) && env.pipeline == Damage.STAGES
    requires forall i :: 0 <= i < |setup.units| ==> AllGentle(Activated(setup.units[i].initialStatus))
    ensures Healthy(Head(env, Initial(setup), k).units)
  {
    hide Head, Execute, Jumped, Acting, Healthy;
    if k == 0 {
      InitialRange(setup);
      HeadStart(env, Initial(setup));
    } else {
      HpStaysInRange(env, setup, k - 1);
      HeadStep(env, Initial(setup), k - 1);
      if Acting(env, Head(env, Initial(setup), k - 1)).Some? {
        StepStaysHealthy(env, Head(env, Initial(setup), k - 1));
      }
    }
  }

  lemma InitialRange(setup: Setup)
    requires Valid(setup)
    requires forall i :: 0 <= i < |setup.units| ==> AllGentle(Activated(setup.units[i].initialStatus))
    ensures Healthy(Initial(setup).units)
  {
  }

  lemma JumpKeepsRange(threshold: int, s: State)
    requires AllInRange(s.units)
    ensures AllInRange(Jump(threshold, s).units)
  {
  }

  lemma {:induction false} GentleSurvive(statuses: seq<ActiveStatus>)
    requires AllGentle(statuses)
    ensures AllGentle(Expired(statuses))
  {
    if statuses != [] {
      GentleSurvive(statuses[..|statuses| - 1]);
    }
  }

  lemma ExecuteStaysInRange(env: Env, s: State, a: nat)
    requires env.pipeline == Damage.STAGES && a < |s.units| && AllInRange(s.units) && AllGentle(s.units[a].statuses)
    ensures AllInRange(Execute(env, s, a).units)
  {
    hide PeriodicTicks, CooledDown, Act, Expired, Gentle;
    var s1 := Announced(s.(action := s.action + 1), a, ActionStarted, "", "");
    var s2 := WithUnit(s1, a, s1.units[a].(cooldowns := CooledDown(s1.units[a].cooldowns)));
    TicksStayInRange(s2, a, s2.units[a].statuses);
    ActStaysInRange(env, StartAction(s, a), a);
  }

  lemma ActStaysInRange(env: Env, s: State, a: nat)
    requires env.pipeline == Damage.STAGES && a < |s.units| && AllInRange(s.units)
    ensures AllInRange(Act(env, s, a).units)
  {
    hide Targets, ChooseSkill, ApplyToTargets, CooldownsAfterUse;
    var skill := ChooseSkill(s.units[a]);
    var targets := Targets(s.units, a, skill.targetRule);
    TargetsStayInRange(env, Announced(s, a, SkillUsed, skill.id, ""), a, targets, skill);
  }

  // ---- a termination measure that beats the action cap ----

  // Every action of such a battle must hurt somebody: nobody is stunned or healed over
  // time, no skill heals, and every skill aims at enemies with at least one damage effect.
  predicate Aggressive(c: UnitConfig) {
    && (forall j :: 0 <= j < |c.initialStatus| ==> Harmful(c.initialStatus[j]))
    && Offensive(c.basicSkill)
    && (forall j :: 0 <= j < |c.activeSkills| ==> Offensive(c.activeSkills[j]))
  }

  predicate Harmful(status: StatusConfig) {
    status.kind != Stun && status.kind != Hot && status.potency >= 0
  }

  predicate Offensive(skill: SkillConfig) {
    (skill.targetRule.EnemySingle? || skill.targetRule.EnemyAll?) && NeverHeals(skill.effects) && Hurts(skill.effects)
  }

  predicate AllHarmful(statuses: seq<ActiveStatus>) {
    forall j :: 0 <= j < |statuses| ==> Harmful(statuses[j].config)
  }

  function TotalHp(units: seq<UnitState>): int {
    if units == [] then 0 else TotalHp(units[..|units| - 1]) + units[|units| - 1].hp
  }

  // Nobody gains hit points, and somebody in `units` loses some.
  ghost predicate Drained(units: seq<UnitState>, after: seq<UnitState>) {
    && |after| == |units|
    && (forall i :: 0 <= i < |units| ==> after[i].hp <= units[i].hp)
    && (exists i :: 0 <= i < |units| && after[i].hp < units[i].hp)
  }

  lemma {:induction false} NoGainNoMore(units: seq<UnitState>, after: seq<UnitState>)
    requires |after| == |units| && forall i :: 0 <= i < |units| ==> after[i].hp <= units[i].hp
    ensures TotalHp(after) <= TotalHp(units)
    ensures Drained(units, after) ==> TotalHp(after) < TotalHp(units)
  {
    if units != [] {
      var n := |units| - 1;
      NoGainNoMore(units[..n], after[..n]);
      if Drained(units, after) && after[n].hp == units[n].hp {
        var i :| 0 <= i < |units| && after[i].hp < units[i].hp;
        assert after[..n][i].hp < units[..n][i].hp;
      }
    }
  }

  lemma {:induction false} TwoLivesCount(units: seq<UnitState>, i: nat, j: nat)
    requires AllInRange(units) && i < j < |units| && Alive(units[i]) && Alive(units[j])
    ensures TotalHp(units) >= 2
  {
    var n := |units| - 1;
    if j == n {
      OneLifeCounts(units[..n], i);
    } else {
      TwoLivesCount(units[..n], i, j);
    }
  }

  lemma {:induction false} OneLifeCounts(units: seq<UnitState>, i: nat)
    requires AllInRange(units) && i < |units| && Alive(units[i])
    ensures TotalHp(units) >= 1
  {
    var n := |units| - 1;
    if i == n {
      TotalIsNonNegative(units[..n]);
    } else {
      OneLifeCounts(units[..n], i);
    }
  }

  lemma {:induction false} TotalIsNonNegative(units: seq<UnitState>)
    requires AllInRange(units)
    ensures TotalHp(units) >= 0
  {
    if units != [] {
      TotalIsNonNegative(units[..|units| - 1]);
    }
  }

  lemma {:induction false} TicksNeverGain(s: State, a: nat, statuses: seq<ActiveStatus>)
    requires a < |s.units| && AllHarmful(statuses)
    ensures PeriodicTicks(s, a, statuses).units[a].hp <= s.units[a].hp
    decreases |statuses|
  {
    if statuses != [] && Alive(s.units[a]) {
      var m := PeriodicTick(s, a, statuses[0]);
      assert m.units[a].hp <= s.units[a].hp;
      hide PeriodicTick, Harmful;
      TicksNeverGain(m, a, statuses[1..]);
    }
  }

  lemma {:induction false} TargetsNeverGain(env: Env, s: State, a: nat, targets: seq<nat>, skill: SkillConfig)
    requires env.pipeline == Damage.STAGES && a < |s.units| && AllInRange(s.units) && NeverHeals(skill.effects)
    requires forall t :: t in targets ==> t < |s.units|
    ensures forall i :: 0 <= i < |s.units| ==> ApplyToTargets(env, s, a, targets, skill).units[i].hp <= s.units[i].hp
    ensures targets != [] && Hurts(skill.effects) && targets[0] < |s.units| && Alive(s.units[targets[0]]) ==>
              ApplyToTargets(env, s, a, targets, skill).units[targets[0]].hp < s.units[targets[0]].hp
    decreases |targets|
  {
    if targets != [] {
      assert targets[0] in targets && forall t :: t in targets[1..] ==> t in targets;
      hide ApplyEffects, AllInRange, NeverHeals, Hurts;
      var m := ApplyEffects(env, s, a, targets[0], skill, skill.effects);
      EffectsStayInRange(env, s, a, targets[0], skill, skill.effects);
      ApplyEffectsTouch(env, s, a, targets[0], skill, skill.effects);
      TargetsNeverGain(env, m, a, targets[1..], skill);
    }
  }

  lemma {:induction false} ChosenSkillIsOwn(skills: seq<SkillConfig>, cooldowns: map<string, int>, otherwise: SkillConfig)
    ensures FirstReadySkill(skills, cooldowns, otherwise) in skills + [otherwise]
  {
    if skills != [] && CooldownOf(cooldowns, skills[0].id) != 0 {
      ChosenSkillIsOwn(skills[1..], cooldowns, otherwise);
      assert skills + [otherwise] == [skills[0]] + (skills[1..] + [otherwise]);
    }
  }

  lemma ChosenSkillIsOffensive(u: UnitState)
    requires Aggressive(u.config)
    ensures Offensive(ChooseSkill(u))
  {
    hide Offensive, Harmful;
    ChosenSkillIsOwn(u.config.activeSkills, u.cooldowns, u.config.basicSkill);
  }

  lemma HarmfulIsNotStunned(statuses: seq<ActiveStatus>)
    requires AllHarmful(statuses)
    ensures !HasStatus(statuses, Stun)
  {
  }

  lemma EnemiesAreTargeted(units: seq<UnitState>, a: nat, rule: TargetRule, enemy: nat)
    requires Roster(units) && a < |units| && enemy < |units| && (rule.EnemySingle? || rule.EnemyAll?)
    requires Alive(units[enemy]) && units[enemy].config.team != units[a].config.team
    ensures Targets(units, a, rule) != [] && Targets(units, a, rule)[0] < |units|
    ensures Alive(units[Targets(units, a, rule)[0]])
  {
    hide Targets;
    if rule.EnemyAll? {
      EnemyAllHitsEveryEnemy(units, a, enemy);
    } else {
      EnemySingleHitsTheFront(units, a, enemy);
    }
    assert Targets(units, a, rule)[0] in Targets(units, a, rule);
    TargetsAreOneTeam(units, a, rule, Targets(units, a, rule)[0]);
  }

  // A turn taken against a living enemy costs some enemy a hit point.
  lemma TurnDrains(env: Env, s: State, a: nat, enemy: nat)
    requires env.pipeline == Damage.STAGES && Roster(s.units) && AllInRange(s.units)
    requires a < |s.units| && Alive(s.units[a]) && Aggressive(s.units[a].config) && AllHarmful(s.units[a].statuses)
    requires enemy < |s.units| && Alive(s.units[enemy]) && s.units[enemy].config.team != s.units[a].config.team
    ensures Drained(s.units, Act(env, s, a).units)
  {
    hide Targets, ChooseSkill, ApplyToTargets, CooldownsAfterUse, HasStatus, Aggressive, AllHarmful, AllInRange, NeverHeals, Hurts;
    HarmfulIsNotStunned(s.units[a].statuses);
    ChosenSkillIsOffensive(s.units[a]);
    var skill := ChooseSkill(s.units[a]);
    EnemiesAreTargeted(s.units, a, skill.targetRule, enemy);
    var targets := Targets(s.units, a, skill.targetRule);
    TargetsNeverGain(env, Announced(s, a, SkillUsed, skill.id, ""), a, targets, skill);
    assert Act(env, s, a).units[targets[0]].hp < s.units[targets[0]].hp;
  }

  lemma ActionDrains(env: Env, s: State, a: nat, enemy: nat)
    requires env.pipeline == Damage.STAGES && Roster(s.units) && AllInRange(s.units)
    requires a < |s.units| && Alive(s.units[a]) && Aggressive(s.units[a].config) && AllHarmful(s.units[a].statuses)
    requires enemy < |s.units| && Alive(s.units[enemy]) && s.units[enemy].config.team != s.units[a].config.team
    ensures Drained(s.units, Execute(env, s, a).units)
  {
    hide PeriodicTicks, CooledDown, Act, Expired, Aggressive, AllHarmful;
    StartActionDrains(s, a);
    StartActionFrame(s, a);
    var s1 := StartAction(s, a);
    if Alive(s1.units[a]) {
      TurnDrains(env, s1, a, enemy);
    } else {
      DeadDoNothing(env, s1, a);
    }
  }

  lemma StartActionDrains(s: State, a: nat)
    requires a < |s.units| && AllInRange(s.units) && AllHarmful(s.units[a].statuses)
    ensures StartAction(s, a).units[a].hp <= s.units[a].hp
    ensures AllInRange(StartAction(s, a).units)
  {
    hide PeriodicTicks, CooledDown, Harmful;
    var s1 := Announced(s.(action := s.action + 1), a, ActionStarted, "", "");
    var s2 := WithUnit(s1, a, s1.units[a].(cooldowns := CooledDown(s1.units[a].cooldowns)));
    TicksNeverGain(s2, a, s2.units[a].statuses);
    HarmfulIsGentle(s2.units[a].statuses);
    TicksStayInRange(s2, a, s2.units[a].statuses);
  }

  lemma HarmfulIsGentle(statuses: seq<ActiveStatus>)
    requires AllHarmful(statuses)
    ensures AllGentle(statuses)
  {
  }

  ghost predicate Fierce(units: seq<UnitState>) {
    && AllInRange(units)
    && (forall i :: 0 <= i < |units| ==> Aggressive(units[i].config) && AllHarmful(units[i].statuses))
  }

  lemma {:induction false} HarmfulSurvive(statuses: seq<ActiveStatus>)
    requires AllHarmful(statuses)
    ensures AllHarmful(Expired(statuses))
  {
    if statuses != [] {
      HarmfulSurvive(statuses[..|statuses| - 1]);
    }
  }

  lemma StepDrains(env: Env, s: State)
    requires env.pipeline == Damage.STAGES && Roster(s.units) && Fierce(s.units) && Acting(env, s).Some?
    ensures var r := Execute(env, Jumped(env, s), Acting(env, s).value);
            Fierce(r.units) && TotalHp(r.units) < TotalHp(s.units)
  {
    hide Execute, AllInRange, Aggressive, AllHarmful, Expired, Delta, Fed, Jump, PickReady, TeamAlive;
    var a, j := Acting(env, s).value, Jumped(env, s);
    StepFrame(env, s, a);
    HarmfulSurvive(s.units[a].statuses);
    HarmfulIsGentle(s.units[a].statuses);
    JumpKeepsRange(env.rules.atbThreshold, s);
    ExecuteStaysInRange(env, j, a);
    RosterJumps(env.rules.atbThreshold, s);
    var enemy := EnemyOf(s, a);
    ActionDrains(env, j, a, enemy);
    NoGainNoMore(j.units, Execute(env, j, a).units);
    NoGainNoMore(s.units, j.units);
  }

  lemma EnemyOf(s: State, a: nat) returns (enemy: nat)
    requires Roster(s.units) && a < |s.units| && !Decided(s)
    ensures enemy < |s.units| && Alive(s.units[enemy]) && s.units[enemy].config.team != s.units[a].config.team
  {
    UndecidedIsAlive(s);
    if s.units[a].config.team == Attacker {
      enemy :| 0 <= enemy < |s.units| && s.units[enemy].config.team == Defender && Alive(s.units[enemy]);
    } else {
      enemy :| 0 <= enemy < |s.units| && s.units[enemy].config.team == Attacker && Alive(s.units[enemy]);
    }
  }

  lemma {:induction false} HpRunsOut(env: Env, setup: Setup, k: nat)
    requires Valid(setup) && env.pipeline == Damage.STAGES
    requires forall i :: 0 <= i < |setup.units| ==> Aggressive(setup.units[i])
    ensures Fierce(Head(env, Initial(setup), k).units)
    ensures !Decided(Head(env, Initial(setup), k)) ==>
              TotalHp(Head(env, Initial(setup), k).units) <= TotalHp(Initial(setup).units) - k
  {
    hide Head, Initial, Execute, Jumped, Acting, Fierce, Decided, TotalHp, Aggressive;
    if k == 0 {
      FierceStart(setup);
      HeadStart(env, Initial(setup));
    } else {
      HpRunsOut(env, setup, k - 1);
      HeadStep(env, Initial(setup), k - 1);
      var s := Head(env, Initial(setup), k - 1);
      RosterAtHead(env, setup, k - 1);
      if !Decided(s) {
        SomeoneActs(env, s);
        StepDrains(env, s);
      } else {
        DecidedIsIdle(env, s);
      }
    }
  }

  lemma FierceStart(setup: Setup)
    requires Valid(setup) && forall i :: 0 <= i < |setup.units| ==> Aggressive(setup.units[i])
    ensures Fierce(Initial(setup).units)
  {
  }

  // Total starting hit points, minus one, bounds the length of an aggressive battle:
  // any larger cap guarantees a decisive winner, whatever the dice.
  lemma AggressionIsDecisive(env: Env, setup: Setup, k: nat)
    requires Valid(setup) && env.pipeline == Damage.STAGES
    requires forall i :: 0 <= i < |setup.units| ==> Aggressive(setup.units[i])
    requires k >= TotalHp(Initial(setup).units) - 1
    ensures FinalOutcome(Head(env, Initial(setup), k).units) in {AttackerWin, DefenderWin}
  {
    hide Head, Initial, Aggressive, TotalHp;
    HpRunsOut(env, setup, k);
    SomeoneSurvives(env, setup, k);
    var s := Head(env, Initial(setup), k);
    if !Decided(s) {
      UndecidedIsAlive(s);
      var i :| 0 <= i < |s.units| && s.units[i].config.team == Attacker && Alive(s.units[i]);
      var j :| 0 <= j < |s.units| && s.units[j].config.team == Defender && Alive(s.units[j]);
      TwoLivesCount(s.units, if i < j then i else j, if i < j then j else i);
      assert false;
    }
  }
}
