// Setups that validation accepts and that show what it does not rule out: periodic statuses
// that leave the range of hit points or outlive their duration, modifiers that leave int64,
// and multipliers that turn damage round.
module Counterexamples {
  import opened Common
  import opened Config
  import opened BattleModel
  import opened Choice
  import opened Frames
  import opened Scheduler
  import opened Lifetimes
  import opened Outcomes
  import Damage

  // A skill that does nothing to anybody.
  const IDLE := SkillConfig("idle", 0, OtherRule, [])

  function Duellist(id: string, team: Team, statuses: seq<StatusConfig>): UnitConfig {
    UnitConfig(id, team, 0, 100, 10, 0, 10, IDLE, [], statuses)
  }

  // Two equal units of 100 hit points, both carrying the given statuses.
  function Duel(statuses: seq<StatusConfig>): Setup {
    Setup("duel", 0, Rules(100, 10, 0, 0, 1000), [Duellist("a", Attacker, statuses), Duellist("b", Defender, statuses)])
  }

  lemma DuelIsValid(statuses: seq<StatusConfig>)
    ensures Config.Valid(Duel(statuses))
  {
    var units := Duel(statuses).units;
    assert units[0].team == Attacker && units[1].team == Defender;
    assert units[0].instanceId != units[1].instanceId;
  }

  lemma SomebodyStarts(env: Env, statuses: seq<StatusConfig>) returns (i: nat)
    ensures |Head(env, Initial(Duel(statuses)), 0).units| == 2
    ensures i < 2 && Acting(env, Head(env, Initial(Duel(statuses)), 0)) == Some(i)
    ensures Head(env, Initial(Duel(statuses)), 0) == Initial(Duel(statuses))
  {
    hide Initial, Step, Acting, Head, Decided, TeamAlive;
    var s := Initial(Duel(statuses));
    DuelIsValid(statuses);
    HeadStart(env, s);
    InitialRoster(Duel(statuses));
    InitialTeams(Duel(statuses));
    SomeoneActs(env, s);
    i := Acting(env, s).value;
    DuelUnit(statuses, 0);
  }

  lemma DuelUnit(statuses: seq<StatusConfig>, i: nat)
    requires i < 2
    ensures |Initial(Duel(statuses)).units| == 2 && Initial(Duel(statuses)).events == []
    ensures var u := Initial(Duel(statuses)).units[i];
            u.hp == 100 && u.config == Duel(statuses).units[i] && u.statuses == Activated(statuses)
  {
  }

  // ---- a duration of zero ----

  const SPARK := StatusConfig("spark", Dot, 0, 5, NO_MODIFIER)

  // The status has no turn to last, yet the first action of a battle logs its damage.
  lemma DurationZeroTicks(env: Env)
    ensures Config.Valid(Duel([SPARK]))
    ensures var log := Head(env, Initial(Duel([SPARK])), 1).events;
            |log| > 1 && log[1].kind.DamageDealt? && log[1].status == "spark" && log[1].amount == 5 && log[1].after == 95
  {
    hide Head, Initial, Acting;
    DuelIsValid([SPARK]);
    var i := SomebodyStarts(env, [SPARK]);
    DuelUnit([SPARK], i);
    FirstTick(env, SPARK, i);
  }

  // In a duel the one status, if periodic, ticks right after the first ActionStarted.
  lemma FirstTick(env: Env, status: StatusConfig, i: nat)
    requires IsPeriodic(status.kind)
    requires i < 2 && Acting(env, Head(env, Initial(Duel([status])), 0)) == Some(i)
    requires Head(env, Initial(Duel([status])), 0) == Initial(Duel([status]))
    ensures var log := Head(env, Initial(Duel([status])), 1).events;
            |log| > 1 && IsTick(log[1], Duel([status]).units[i], status) && log[1].before == 100
  {
    hide Head, Initial, Acting, IsTick, TickRun, Config.Valid;
    var setup := Duel([status]);
    var s0 := Initial(setup);
    DuelIsValid([status]);
    DuelUnit([status], i);
    PeriodicsTickExactly(env, setup, i, 0);
    assert Acts(env, s0, i, 0) == 0;
    assert Due([status], 0) == [status] by { assert [status][..0] == []; }
    var log := Head(env, s0, 1).events;
    var m: nat :| TickRun(log, 1, m, 100, setup.units[i], [status]);
    OnlyTick(log, m, setup.units[i], status);
  }

  lemma OnlyTick(log: seq<Event>, m: nat, u: UnitConfig, status: StatusConfig)
    requires TickRun(log, 1, m, 100, u, [status])
    ensures |log| > 1 && IsTick(log[1], u, status) && log[1].before == 100
  {
    hide IsTick;
    assert m == 1;
    assert IsTick(log[1 + 0], u, [status][0]) && log[1 + 0].before == HpAfter(log, 1, 0, 100);
  }

  // ---- hit points above the maximum ----

  const LEECH := StatusConfig("leech", Dot, 1, -1, NO_MODIFIER)

  // Damage over time of -1 heals past the maximum: after one action somebody has 101 of 100.
  lemma NegativeDamageOverheals(env: Env)
    ensures Config.Valid(Duel([LEECH])) && !Gentle(LEECH)
    ensures exists i :: 0 <= i < |Head(env, Initial(Duel([LEECH])), 1).units|
                        && Head(env, Initial(Duel([LEECH])), 1).units[i].hp == 101
                        && !HpInRange(Head(env, Initial(Duel([LEECH])), 1).units[i])
  {
    hide Head, Initial, Acting, Jumped, Execute;
    DuelIsValid([LEECH]);
    var i := SomebodyStarts(env, [LEECH]);
    DuelUnit([LEECH], i);
    HeadStep(env, Initial(Duel([LEECH])), 0);
    JumpKeepsUnit(env, Initial(Duel([LEECH])), i);
    LeechHeals(env, Jumped(env, Initial(Duel([LEECH]))), i);
    var r := Head(env, Initial(Duel([LEECH])), 1);
    assert r.units[i].hp == 101 && r.units[i].config.maxHp == 100;
  }

  lemma LeechHeals(env: Env, s: State, i: nat)
    requires i < |s.units| && s.units[i].hp == 100 && s.units[i].config.maxHp == 100
    requires s.units[i].config.activeSkills == [] && s.units[i].config.basicSkill == IDLE
    requires s.units[i].statuses == Activated([LEECH])
    ensures var r := Execute(env, s, i); |r.units| == |s.units| && r.units[i].hp == 101 && r.units[i].config == s.units[i].config
  {
    hide Act, Expired, CooledDown, StartAction;
    LeechStarts(s, i);
    StartActionFrame(s, i);
    IdlingKeepsHp(env, StartAction(s, i), i);
    ExecuteFrame(env, s, i);
  }

  lemma LeechStarts(s: State, i: nat)
    requires i < |s.units| && s.units[i].hp == 100 && s.units[i].statuses == Activated([LEECH])
    ensures StartAction(s, i).units[i].hp == 101
  {
    hide CooledDown;
    var status := ActiveStatus(LEECH, 1);
    assert Activated([LEECH]) == [status];
    var s1 := Announced(s.(action := s.action + 1), i, ActionStarted, "", "");
    var s2 := WithUnit(s1, i, s1.units[i].(cooldowns := CooledDown(s1.units[i].cooldowns)));
    var s3 := PeriodicTick(s2, i, status);
    assert s3.units[i].hp == 101;
    assert [status][1..] == [];
    assert PeriodicTicks(s2, i, [status]) == PeriodicTicks(s3, i, []);
  }

  lemma IdlingKeepsHp(env: Env, s: State, i: nat)
    requires i < |s.units| && s.units[i].config.activeSkills == [] && s.units[i].config.basicSkill == IDLE
    ensures Act(env, s, i).units[i].hp == s.units[i].hp
  {
    hide Act;
    assert ChooseSkill(s.units[i]) == IDLE;
    ActFrame(env, s, i);
  }

  // ---- a speed outside int64 ----

  const SLOWDOWN := StatusConfig("slow", AttributeChange, 1, 0, AttributeModifier(0, 0, -0x4000_0000_0000_0000))

  // Three slowdowns of -2^62 are accepted, but their sum with the speed is no int64, and
  // FitsSchedule sees it.
  lemma SlowdownsOverflow()
    ensures var setup := Duel([SLOWDOWN, SLOWDOWN, SLOWDOWN]);
            && Config.Valid(setup) && !FitsSchedule(setup)
            && var u := Initial(setup).units[0];
               !FitsInt64(u.config.speed + ModifierOf(u.statuses).speedFlat)
  {
    var three := [SLOWDOWN, SLOWDOWN, SLOWDOWN];
    DuelIsValid(three);
    DuelUnit(three, 0);
    ThreeAdd(SLOWDOWN);
    MagnitudeBounds(Activated(three));
    assert !UnitFits(100, Duel(three).units[0]);
  }

  lemma ThreeAdd(status: StatusConfig)
    requires status.durationTurns > 0
    ensures ModifierOf(Activated([status, status, status])).speedFlat == 3 * status.modifier.speedFlat
  {
    var one := ActiveStatus(status, status.durationTurns);
    assert Activated([status, status, status]) == [one, one, one];
    assert [one, one, one][..2] == [one, one] && [one, one][..1] == [one] && [one][..0] == [];
    assert ModifierOf([one]) == Plus(NO_MODIFIER, status.modifier);
    assert ModifierOf([one, one]) == Plus(ModifierOf([one]), status.modifier);
  }

  // ---- damage that falls with attack ----

  // A certain critical hit with a negative multiplier: attack 1 deals 99, attack 50 deals 50.
  lemma NegativeMultiplierWeakens()
    ensures var c := Damage.Context(0, 0, 1000, -100, 0, 1000, -1000, 0, false);
            && Damage.Hit(c, 1, 0, 0, 0) == 99 && Damage.Hit(c, 50, 0, 0, 0) == 50
            && !Damage.SafeForAllDice(c)
  {
    var c := Damage.Context(0, 0, 1000, -100, 0, 1000, -1000, 0, false);
    assert Damage.Rollable(c, 0) && Damage.Possible(c, true);
    assert !Damage.Safe(c, 1000, -1000);
  }
}
