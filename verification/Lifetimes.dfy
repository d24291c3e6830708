// How long statuses last and how far apart skill uses are, counted in the unit's own actions.
module Lifetimes {
  import opened Common
  import opened Config
  import opened BattleModel
  import opened Choice
  import opened Frames
  import opened Scheduler

  // ---- statuses ----

  // What is left of the initial statuses after n of the unit's own actions. Before the
  // first action everything is still listed, durations of zero or less included.
  function Surviving(configs: seq<StatusConfig>, n: nat): seq<ActiveStatus> {
    if configs == [] then [] else
      var last, kept := configs[|configs| - 1], Surviving(configs[..|configs| - 1], n);
      if n == 0 || last.durationTurns > n then kept + [ActiveStatus(last, last.durationTurns - n)] else kept
  }

  lemma {:induction false} ActivatedSurvive(configs: seq<StatusConfig>)
    ensures Activated(configs) == Surviving(configs, 0)
  {
    if configs != [] {
      ActivatedSurvive(configs[..|configs| - 1]);
      assert Activated(configs) == Activated(configs[..|configs| - 1])
                                   + [ActiveStatus(configs[|configs| - 1], configs[|configs| - 1].durationTurns)];
    }
  }

  lemma ExpiredAppend(statuses: seq<ActiveStatus>, last: ActiveStatus)
    ensures Expired(statuses + [last])
         == if last.remaining - 1 > 0 then Expired(statuses) + [last.(remaining := last.remaining - 1)] else Expired(statuses)
  {
  }

  lemma {:induction false} SurvivingAges(configs: seq<StatusConfig>, n: nat)
    ensures Expired(Surviving(configs, n)) == Surviving(configs, n + 1)
  {
    if configs != [] {
      var front, last := configs[..|configs| - 1], configs[|configs| - 1];
      SurvivingAges(front, n);
      ExpiredAppend(Surviving(front, n), ActiveStatus(last, last.durationTurns - n));
    }
  }

  // At every loop head a unit carries exactly the initial statuses it has not yet outlived,
  // in their original order, aged by the number of actions it has taken.
  lemma {:induction false} StatusLifetime(env: Env, setup: Setup, i: nat, k: nat)
    requires i < |setup.units|
    ensures |Head(env, Initial(setup), k).units| == |setup.units|
    ensures Head(env, Initial(setup), k).units[i].statuses
         == Surviving(setup.units[i].initialStatus, Acts(env, Initial(setup), i, k))
  {
    hide Head, Acting, Fed, Delta, Expired, Surviving;
    var s0 := Initial(setup);
    if k == 0 {
      HeadStart(env, s0);
      ActivatedSurvive(setup.units[i].initialStatus);
    } else {
      StatusLifetime(env, setup, i, k - 1);
      UnitStep(env, s0, i, k - 1);
      SurvivingAges(setup.units[i].initialStatus, Acts(env, s0, i, k - 1));
    }
  }

  // A status of duration d >= 1 acts on exactly the unit's first d actions.
  predicate InForce(configs: seq<StatusConfig>, kind: StatusKind, n: nat) {
    exists j :: 0 <= j < |configs| && configs[j].kind == kind && configs[j].durationTurns > n
  }

  lemma HasStatusAppend(statuses: seq<ActiveStatus>, last: ActiveStatus, kind: StatusKind)
    ensures HasStatus(statuses + [last], kind) <==> HasStatus(statuses, kind) || (last.remaining > 0 && last.config.kind == kind)
  {
    var all := statuses + [last];
    if HasStatus(statuses, kind) {
      var j :| 0 <= j < |statuses| && statuses[j].remaining > 0 && statuses[j].config.kind == kind;
      assert all[j] == statuses[j];
    }
    assert all[|statuses|] == last;
  }

  lemma InForceAppend(front: seq<StatusConfig>, last: StatusConfig, kind: StatusKind, n: nat)
    ensures InForce(front + [last], kind, n) <==> InForce(front, kind, n) || (last.kind == kind && last.durationTurns > n)
  {
    var all := front + [last];
    if InForce(front, kind, n) {
      var j :| 0 <= j < |front| && front[j].kind == kind && front[j].durationTurns > n;
      assert all[j] == front[j];
    }
    assert all[|front|] == last;
  }

  lemma {:induction false} SurvivingInForce(configs: seq<StatusConfig>, kind: StatusKind, n: nat)
    ensures HasStatus(Surviving(configs, n), kind) <==> InForce(configs, kind, n)
  {
    if configs != [] {
      hide HasStatus, InForce;
      var front, last := configs[..|configs| - 1], configs[|configs| - 1];
      SurvivingInForce(front, kind, n);
      HasStatusAppend(Surviving(front, n), ActiveStatus(last, last.durationTurns - n), kind);
      InForceAppend(front, last, kind, n);
      assert configs == front + [last];
    }
  }

  // The modifiers of the initial statuses still in force after n actions.
  function ModifierInForce(configs: seq<StatusConfig>, n: nat): AttributeModifier {
    if configs == [] then NO_MODIFIER else
      var last, sum := configs[|configs| - 1], ModifierInForce(configs[..|configs| - 1], n);
      if last.durationTurns > n then Plus(sum, last.modifier) else sum
  }

  lemma {:induction false} SurvivingModify(configs: seq<StatusConfig>, n: nat)
    ensures ModifierOf(Surviving(configs, n)) == ModifierInForce(configs, n)
  {
    if configs != [] {
      var front, last := configs[..|configs| - 1], configs[|configs| - 1];
      SurvivingModify(front, n);
      var kept := Surviving(front, n);
      assert (kept + [ActiveStatus(last, last.durationTurns - n)])[..|kept|] == kept;
    }
  }

  // Stun, silence and modifiers hold during exactly the first `durationTurns` actions.
  lemma StatusesActOnFirstActions(env: Env, setup: Setup, i: nat, k: nat, kind: StatusKind)
    requires i < |setup.units|
    ensures |Head(env, Initial(setup), k).units| == |setup.units|
    ensures var u := Head(env, Initial(setup), k).units[i];
            var n := Acts(env, Initial(setup), i, k);
            && (HasStatus(u.statuses, kind) <==> InForce(setup.units[i].initialStatus, kind, n))
            && ModifierOf(u.statuses) == ModifierInForce(setup.units[i].initialStatus, n)
  {
    hide Head, Initial, Acts, HasStatus, InForce, ModifierOf, ModifierInForce;
    StatusLifetime(env, setup, i, k);
    SurvivingInForce(setup.units[i].initialStatus, kind, Acts(env, Initial(setup), i, k));
    SurvivingModify(setup.units[i].initialStatus, Acts(env, Initial(setup), i, k));
  }

  // ---- exactly when the way to a unit's speed stays in 64 bits ----

  // The running sums of the modifiers in force after n actions, and the speed they give.
  ghost predicate SumsFit(c: UnitConfig, n: nat) {
    && (forall q :: 0 <= q <= |c.initialStatus| ==> ModifierFits(ModifierInForce(c.initialStatus[..q], n)))
    && FitsInt64(c.speed + ModifierInForce(c.initialStatus, n).speedFlat)
  }

  // The same on the unit itself, as its statuses are summed up one by one.
  ghost predicate SpeedInRange(u: UnitState) {
    && (forall p :: 0 <= p <= |u.statuses| ==> ModifierFits(ModifierOf(u.statuses[..p])))
    && FitsInt64(u.config.speed + ModifierOf(u.statuses).speedFlat)
  }

  lemma {:induction false} PrefixesSurvive(configs: seq<StatusConfig>, n: nat, q: nat)
    requires q <= |configs|
    ensures Surviving(configs[..q], n) <= Surviving(configs, n)
    decreases |configs|
  {
    if q == |configs| {
      assert configs[..q] == configs;
    } else {
      var front := configs[..|configs| - 1];
      assert front[..q] == configs[..q];
      PrefixesSurvive(front, n, q);
    }
  }

  lemma {:induction false} SurvivorsArePrefixes(configs: seq<StatusConfig>, n: nat, p: nat)
    requires p <= |Surviving(configs, n)|
    ensures exists q :: 0 <= q <= |configs| && Surviving(configs[..q], n) == Surviving(configs, n)[..p]
  {
    var all := Surviving(configs, n);
    if p == |all| {
      assert configs[..|configs|] == configs && all[..p] == all;
    } else {
      var front := configs[..|configs| - 1];
      SurvivorsArePrefixes(front, n, p);
      var q :| 0 <= q <= |front| && Surviving(front[..q], n) == Surviving(front, n)[..p];
      assert front[..q] == configs[..q];
      assert Surviving(front, n)[..p] == all[..p];
    }
  }

  // At every point of every run: no sum on the way to a unit's speed leaves int64 if and only
  // if none does for the configured statuses that are in force after its number of actions.
  lemma SpeedFitsExactly(env: Env, setup: Setup, i: nat, k: nat)
    requires Valid(setup) && i < |setup.units|
    ensures |Head(env, Initial(setup), k).units| == |setup.units|
    ensures SpeedInRange(Head(env, Initial(setup), k).units[i]) <==> SumsFit(setup.units[i], Acts(env, Initial(setup), i, k))
  {
    hide Head, Initial, Acts, ModifierOf, ModifierInForce, Surviving, ModifierFits;
    StatusLifetime(env, setup, i, k);
    RosterAtHead(env, setup, k);
    var u, c, n := Head(env, Initial(setup), k).units[i], setup.units[i], Acts(env, Initial(setup), i, k);
    SurvivingModify(c.initialStatus, n);
    if SumsFit(c, n) {
      forall p | 0 <= p <= |u.statuses| ensures ModifierFits(ModifierOf(u.statuses[..p])) {
        SurvivorsArePrefixes(c.initialStatus, n, p);
        var q :| 0 <= q <= |c.initialStatus| && Surviving(c.initialStatus[..q], n) == u.statuses[..p];
        SurvivingModify(c.initialStatus[..q], n);
      }
    }
    if SpeedInRange(u) {
      forall q | 0 <= q <= |c.initialStatus| ensures ModifierFits(ModifierInForce(c.initialStatus[..q], n)) {
        PrefixesSurvive(c.initialStatus, n, q);
        SurvivingModify(c.initialStatus[..q], n);
        var kept := Surviving(c.initialStatus[..q], n);
        assert u.statuses[..|kept|] == kept;
      }
    }
  }

  // ---- damage and healing over time ----

  predicate IsPeriodic(kind: StatusKind) {
    kind.Dot? || kind.Hot?
  }

  // The initial statuses that tick in a unit's (n+1)-th action. Ticking does not look at the
  // remaining turns, so in the first action everything listed ticks, whatever its duration.
  function Due(configs: seq<StatusConfig>, n: nat): seq<StatusConfig> {
    if configs == [] then [] else
      var last, front := configs[|configs| - 1], Due(configs[..|configs| - 1], n);
      if IsPeriodic(last.kind) && (n == 0 || last.durationTurns > n) then front + [last] else front
  }

  // The event of one tick of one status on the unit u.
  predicate IsTick(e: Event, u: UnitConfig, status: StatusConfig) {
    && e.actor == e.target == u.instanceId && e.skill == "" && e.status == status.id
    && (status.kind.Dot? ==> e.kind.DamageDealt? && e.amount == Min(status.potency, e.before) && e.after == e.before - e.amount)
    && (status.kind.Hot? ==> e.kind.Healed? && e.after == Min(u.maxHp, e.before + status.potency) && e.amount == e.after - e.before)
  }

  // The hit points after the first j of the ticks logged from position `from` on.
  function HpAfter(log: seq<Event>, from: nat, j: nat, hp: int): int
    requires from + j <= |log|
  {
    if j == 0 then hp else log[from + j - 1].after
  }

  // From position `from` on the log holds exactly m ticks of a unit with hp hit points: the
  // first m of the due statuses, each meeting the unit alive, and all of them unless it died.
  ghost predicate TickRun(log: seq<Event>, from: nat, m: nat, hp: int, u: UnitConfig, due: seq<StatusConfig>) {
    && from + m <= |log| && m <= |due|
    && (forall j :: 0 <= j < m ==> IsTick(log[from + j], u, due[j]))
    && (forall j :: 0 <= j < m ==> log[from + j].before == HpAfter(log, from, j, hp) > 0)
    && (m < |due| ==> HpAfter(log, from, m, hp) <= 0)
  }

  function PeriodicsOf(statuses: seq<ActiveStatus>): seq<StatusConfig> {
    if statuses == [] then []
    else (if IsPeriodic(statuses[0].config.kind) then [statuses[0].config] else []) + PeriodicsOf(statuses[1..])
  }

  lemma {:induction false} PeriodicsAppend(statuses: seq<ActiveStatus>, last: ActiveStatus)
    ensures PeriodicsOf(statuses + [last])
         == PeriodicsOf(statuses) + if IsPeriodic(last.config.kind) then [last.config] else []
  {
    if statuses == [] {
      assert statuses + [last] == [last];
    } else {
      PeriodicsAppend(statuses[1..], last);
      assert (statuses + [last])[1..] == statuses[1..] + [last];
    }
  }

  lemma {:induction false} SurvivorsAreDue(configs: seq<StatusConfig>, n: nat)
    ensures PeriodicsOf(Surviving(configs, n)) == Due(configs, n)
  {
    assert PeriodicsOf([]) == [];
    hide PeriodicsOf;
    if configs != [] {
      var front, last := configs[..|configs| - 1], configs[|configs| - 1];
      SurvivorsAreDue(front, n);
      PeriodicsAppend(Surviving(front, n), ActiveStatus(last, last.durationTurns - n));
    }
  }

  lemma TickRunCons(log: seq<Event>, from: nat, m: nat, hp: int, u: UnitConfig, first: StatusConfig, due: seq<StatusConfig>)
    requires from < |log| && IsTick(log[from], u, first) && log[from].before == hp > 0
    requires TickRun(log, from + 1, m, log[from].after, u, due)
    ensures TickRun(log, from, m + 1, hp, u, [first] + due)
  {
    forall j | 0 <= j < m + 1
      ensures IsTick(log[from + j], u, ([first] + due)[j]) && log[from + j].before == HpAfter(log, from, j, hp) > 0
    {
      if j > 0 {
        assert IsTick(log[from + 1 + (j - 1)], u, due[j - 1]);
        assert log[from + 1 + (j - 1)].before == HpAfter(log, from + 1, j - 1, log[from].after) > 0;
        assert from + 1 + (j - 1) == from + j;
      }
    }
  }

  // What the loop over the statuses logs.
  lemma {:induction false} TicksAreLogged(s: State, a: nat, statuses: seq<ActiveStatus>)
    requires a < |s.units|
    ensures var r := PeriodicTicks(s, a, statuses);
            && s.events <= r.events
            && TickRun(r.events, |s.events|, |r.events| - |s.events|, s.units[a].hp, s.units[a].config, PeriodicsOf(statuses))
            && HpAfter(r.events, |s.events|, |r.events| - |s.events|, s.units[a].hp) == r.units[a].hp
    decreases |statuses|
  {
    hide PeriodicTick, IsTick;
    if statuses != [] && Alive(s.units[a]) {
      hide TickRun;
      var mid := PeriodicTick(s, a, statuses[0]);
      var r := PeriodicTicks(mid, a, statuses[1..]);
      TicksAreLogged(mid, a, statuses[1..]);
      OthersDoNotTick(s, a, statuses[0]);
      if IsPeriodic(statuses[0].config.kind) {
        TickIsLogged(s, a, statuses[0]);
        assert r.events[|s.events|] == mid.events[|s.events|];
        TickRunCons(r.events, |s.events|, |r.events| - |mid.events|, s.units[a].hp, s.units[a].config,
                    statuses[0].config, PeriodicsOf(statuses[1..]));
      }
    }
  }

  lemma OthersDoNotTick(s: State, a: nat, status: ActiveStatus)
    requires a < |s.units| && Alive(s.units[a])
    ensures !IsPeriodic(status.config.kind) ==> PeriodicTick(s, a, status) == s
  {
  }

  lemma TickIsLogged(s: State, a: nat, status: ActiveStatus)
    requires a < |s.units| && Alive(s.units[a]) && IsPeriodic(status.config.kind)
    ensures var r := PeriodicTick(s, a, status);
            && |r.events| == |s.events| + 1 && s.events <= r.events
            && IsTick(r.events[|s.events|], s.units[a].config, status.config)
            && r.events[|s.events|].before == s.units[a].hp && r.events[|s.events|].after == r.units[a].hp
            && r.units[a].config == s.units[a].config
  {
  }

  lemma StartIsLogged(s: State, a: nat)
    requires a < |s.units|
    ensures var r := StartAction(s, a); var from := |s.events| + 1;
            && from <= |r.events| && s.events <= r.events && r.events[|s.events|].kind.ActionStarted?
            && r.events[|s.events|].actor == s.units[a].config.instanceId
            && TickRun(r.events, from, |r.events| - from, s.units[a].hp, s.units[a].config, PeriodicsOf(s.units[a].statuses))
            && HpAfter(r.events, from, |r.events| - from, s.units[a].hp) == r.units[a].hp
  {
    hide PeriodicTicks, PeriodicsOf, TickRun, HpAfter, CooledDown;
    var s1 := Announced(s.(action := s.action + 1), a, ActionStarted, "", "");
    var s2 := WithUnit(s1, a, s1.units[a].(cooldowns := CooledDown(s1.units[a].cooldowns)));
    TicksAreLogged(s2, a, s2.units[a].statuses);
    assert s2.events[|s.events|].kind.ActionStarted?;
  }

  // After the ticks the turn opens, is skipped, or ends at once.
  lemma TurnIsLogged(env: Env, s: State, a: nat)
    requires a < |s.units|
    ensures var r := EndAction(env, Act(env, s, a), a);
            && s.events < r.events
            && var e := r.events[|s.events|]; e.kind.SkillUsed? || e.kind.ActionSkipped? || e.kind.ActionEnded?
  {
    hide Targets, ChooseSkill, ApplyToTargets, CooldownsAfterUse, HasStatus, Expired;
    var skill := ChooseSkill(s.units[a]);
    var targets := Targets(s.units, a, skill.targetRule);
    var s1 := Announced(s, a, SkillUsed, skill.id, "");
    ApplyToTargetsTouches(env, s1, a, targets, skill);
    assert s1.events[|s.events|].kind.SkillUsed?;
    assert s1.events <= ApplyToTargets(env, s1, a, targets, skill).events;
  }

  lemma TickRunExtends(log: seq<Event>, longer: seq<Event>, from: nat, m: nat, hp: int, u: UnitConfig, due: seq<StatusConfig>)
    requires TickRun(log, from, m, hp, u, due) && log <= longer
    ensures TickRun(longer, from, m, hp, u, due)
  {
    hide IsTick;
    forall j | 0 <= j < m
      ensures IsTick(longer[from + j], u, due[j]) && longer[from + j].before == HpAfter(longer, from, j, hp) > 0
    {
      assert longer[from + j] == log[from + j] && IsTick(log[from + j], u, due[j]);
      assert log[from + j].before == HpAfter(log, from, j, hp) > 0;
    }
  }

  // In every run, whenever unit i acts for the (n+1)-th time, the log of that action starts
  // with ActionStarted, then holds one tick for each initial DOT or HOT with n = 0 or a
  // duration above n, in configured order and up to the unit's death, and then the turn.
  lemma PeriodicsTickExactly(env: Env, setup: Setup, i: nat, k: nat)
    requires Valid(setup) && Acting(env, Head(env, Initial(setup), k)) == Some(i)
    ensures i < |setup.units| == |Head(env, Initial(setup), k).units|
    ensures var s, r := Head(env, Initial(setup), k), Head(env, Initial(setup), k + 1);
            var from := |s.events| + 1;
            && from < |r.events| && s.events < r.events && r.events[from - 1].kind.ActionStarted?
            && exists m: nat ::
                 && TickRun(r.events, from, m, s.units[i].hp, setup.units[i],
                            Due(setup.units[i].initialStatus, Acts(env, Initial(setup), i, k)))
                 && from + m < |r.events|
                 && var e := r.events[from + m]; e.kind.SkillUsed? || e.kind.ActionSkipped? || e.kind.ActionEnded?
  {
    hide Head, Acts, Acting, StartAction, Act, EndAction, Due, PeriodicsOf, TickRun, Surviving, Jumped, Initial;
    var s := Head(env, Initial(setup), k);
    var n := Acts(env, Initial(setup), i, k);
    RosterAtHead(env, setup, k);
    HeadStep(env, Initial(setup), k);
    JumpKeepsUnit(env, s, i);
    var j := Jumped(env, s);
    StatusLifetime(env, setup, i, k);
    SurvivorsAreDue(setup.units[i].initialStatus, n);
    StartIsLogged(j, i);
    var started := StartAction(j, i);
    TurnIsLogged(env, started, i);
    var r := Head(env, Initial(setup), k + 1);
    var from, m := |s.events| + 1, |started.events| - |s.events| - 1;
    TickRunExtends(started.events, r.events, from, m, s.units[i].hp, setup.units[i], Due(setup.units[i].initialStatus, n));
    assert r.events[|s.events|] == started.events[|s.events|];
    var e := r.events[|started.events|];
    assert e.kind.SkillUsed? || e.kind.ActionSkipped? || e.kind.ActionEnded?;
    assert from + m == |started.events|;
  }

  lemma JumpKeepsUnit(env: Env, s: State, i: nat)
    requires Acting(env, s) == Some(i)
    ensures i < |s.units| == |Jumped(env, s).units|
    ensures var u, v := s.units[i], Jumped(env, s).units[i]; v == u.(gauge := v.gauge)
    ensures Jumped(env, s).events == s.events
  {
    hide Delta, SpeedOf, PickReady, Decided;
  }

  // ---- cooldowns ----

  // The skill unit i uses in the iteration that starts in s, if it uses one.
  function UsedIn(env: Env, s: State, i: nat): Option<SkillConfig> {
    if Acting(env, s) != Some(i) then None else
      var u := StartAction(Jumped(env, s), i).units[i];
      if Alive(u) && !HasStatus(u.statuses, Stun) then Some(ChooseSkill(u)) else None
  }

  lemma UserActs(env: Env, s: State, i: nat)
    ensures UsedIn(env, s, i).Some? ==> Acting(env, s) == Some(i)
  {
  }

  function UsedAt(env: Env, s0: State, i: nat, k: nat): Option<SkillConfig> {
    UsedIn(env, Head(env, s0, k), i)
  }

  function NextCooldowns(u: UnitState, used: Option<SkillConfig>): map<string, int> {
    var cooled := u.(cooldowns := CooledDown(u.cooldowns));
    if used.Some? then CooldownsAfterUse(cooled, used.value) else cooled.cooldowns
  }

  lemma ExecuteCooldowns(env: Env, s: State, i: nat)
    requires Acting(env, s) == Some(i)
    ensures i < |s.units|
    ensures Execute(env, Jumped(env, s), i).units[i].cooldowns == NextCooldowns(s.units[i], UsedIn(env, s, i))
  {
    hide StartAction, ChooseSkill, Targets, ApplyToTargets, CooledDown, Expired, Delta, PickReady, Decided, SpeedOf, HasStatus;
    var j := Jumped(env, s);
    StartActionFrame(j, i);
    var s1 := StartAction(j, i);
    var skill := ChooseSkill(s1.units[i]);
    var targets := Targets(s1.units, i, skill.targetRule);
    var s2 := Announced(s1, i, SkillUsed, skill.id, "");
    ApplyToTargetsTouches(env, s2, i, targets, skill);
    SameCooldowns(s1.units[i], ApplyToTargets(env, s2, i, targets, skill).units[i], skill);
    SameCooldowns(s.units[i].(cooldowns := CooledDown(s.units[i].cooldowns)), s1.units[i].(gauge := s.units[i].gauge), skill);
  }

  lemma CooldownStep(env: Env, s0: State, i: nat, k: nat)
    requires i < |s0.units|
    ensures |Head(env, s0, k).units| == |Head(env, s0, k + 1).units| == |s0.units|
    ensures var s := Head(env, s0, k);
            Head(env, s0, k + 1).units[i].cooldowns
              == if Acting(env, s) == Some(i) then NextCooldowns(s.units[i], UsedAt(env, s0, i, k)) else s.units[i].cooldowns
  {
    hide Head, Execute, Expired, Acting, Delta, Fed, NextCooldowns, UsedIn, Jumped, Decided;
    RosterIsKept(env, s0, k);
    RosterIsKept(env, s0, k + 1);
    HeadStep(env, s0, k);
    var s := Head(env, s0, k);
    if Acting(env, s).Some? {
      StepFrame(env, s, Acting(env, s).value);
      if Acting(env, s) == Some(i) {
        ExecuteCooldowns(env, s, i);
      }
    }
  }

  lemma {:induction false} FirstReadyIsReady(skills: seq<SkillConfig>, cooldowns: map<string, int>, otherwise: SkillConfig)
    ensures var r := FirstReadySkill(skills, cooldowns, otherwise);
            r == otherwise || (r in skills && CooldownOf(cooldowns, r.id) == 0)
  {
    if skills != [] && CooldownOf(cooldowns, skills[0].id) != 0 {
      FirstReadyIsReady(skills[1..], cooldowns, otherwise);
    }
  }

  // A used skill other than the basic one was off cooldown once the turn's cooling was done.
  lemma UsedSkillWasReady(env: Env, s: State, i: nat)
    requires i < |s.units| && UsedIn(env, s, i).Some?
    ensures var skill := UsedIn(env, s, i).value;
            var c := s.units[i].config;
            skill.id != c.basicSkill.id ==>
              skill in c.activeSkills && CooldownOf(CooledDown(s.units[i].cooldowns), skill.id) == 0
  {
    hide StartAction, CooledDown, HasStatus, Delta, PickReady, Decided, SpeedOf;
    var j := Jumped(env, s);
    StartActionFrame(j, i);
    var u := StartAction(j, i).units[i];
    FirstReadyIsReady(u.config.activeSkills, u.cooldowns, u.config.basicSkill);
  }

  // In iteration k unit i uses a skill that goes on cooldown.
  predicate StartsCooldown(env: Env, s0: State, i: nat, k: nat)
    requires i < |s0.units|
  {
    var used := UsedAt(env, s0, i, k);
    used.Some? && used.value.cooldown > 0 && used.value.id != s0.units[i].config.basicSkill.id
  }

  // After a use with cooldown c the stored cooldown counts down from c, one per own action.
  lemma {:induction false} CooldownCounts(env: Env, s0: State, i: nat, first: nat, k: nat)
    requires i < |s0.units| && first < k
    ensures |Head(env, s0, k).units| == |s0.units|
    ensures StartsCooldown(env, s0, i, first) ==>
              var skill := UsedAt(env, s0, i, first).value;
              var n := Acts(env, s0, i, k) - Acts(env, s0, i, first);
              n >= 1 && (n <= skill.cooldown ==>
                           CooldownOf(Head(env, s0, k).units[i].cooldowns, skill.id) == skill.cooldown - n + 1)
    decreases k
  {
    hide Head, Acting, CooledDown, CooldownOf, CooldownsAfterUse, NextCooldowns, UsedIn;
    var s := Head(env, s0, k - 1);
    RosterIsKept(env, s0, k - 1);
    CooldownStep(env, s0, i, k - 1);
    if StartsCooldown(env, s0, i, first) {
      var skill := UsedAt(env, s0, i, first).value;
      UserActs(env, s, i);
      if k - 1 == first {
        StoredOnUse(s.units[i], skill);
      } else {
        CooldownCounts(env, s0, i, first, k - 1);
        if Acting(env, s) == Some(i) {
          if UsedIn(env, s, i).Some? {
            UsedSkillWasReady(env, s, i);
          }
          CoolingOnce(s.units[i], skill.id, UsedAt(env, s0, i, k - 1));
        }
      }
    }
  }

  lemma StoredOnUse(u: UnitState, skill: SkillConfig)
    requires skill.cooldown > 0 && skill.id != u.config.basicSkill.id
    ensures CooldownOf(NextCooldowns(u, Some(skill)), skill.id) == skill.cooldown
  {
  }

  lemma CoolingOnce(u: UnitState, id: string, used: Option<SkillConfig>)
    ensures CooldownOf(u.cooldowns, id) >= 1 ==> CooldownOf(CooledDown(u.cooldowns), id) == CooldownOf(u.cooldowns, id) - 1
    ensures used.None? || used.value.id != id || used.value.id == u.config.basicSkill.id ==>
              CooldownOf(NextCooldowns(u, used), id) == CooldownOf(CooledDown(u.cooldowns), id)
  {
  }

  // Iterations j and k both use the same non-basic skill of unit i.
  predicate UsesAgain(env: Env, s0: State, i: nat, j: nat, k: nat)
    requires i < |s0.units|
  {
    var first, second := UsedAt(env, s0, i, j), UsedAt(env, s0, i, k);
    first.Some? && second.Some? && second.value.id == first.value.id != s0.units[i].config.basicSkill.id
  }

  // Two uses by one unit of a non-basic skill ID are at least the first use's cooldown of
  // that unit's own actions apart, stunned and silenced actions included.
  lemma CooldownSpacing(env: Env, s0: State, i: nat, first: nat, second: nat)
    requires i < |s0.units| && first < second
    ensures UsesAgain(env, s0, i, first, second) ==>
              Acts(env, s0, i, second) - Acts(env, s0, i, first) >= UsedAt(env, s0, i, first).value.cooldown
  {
    hide Head, Acting, CooledDown, CooldownOf, Acts, UsedIn;
    if UsesAgain(env, s0, i, first, second) {
      var skill := UsedAt(env, s0, i, first).value;
      if skill.cooldown > 0 {
        CooldownCounts(env, s0, i, first, second);
        var s := Head(env, s0, second);
        RosterIsKept(env, s0, second);
        UsedSkillWasReady(env, s, i);
        CoolingOnce(s.units[i], skill.id, None);
      } else {
        ActsGrow(env, s0, i, first, second);
      }
    }
  }

  lemma {:induction false} ActsGrow(env: Env, s0: State, i: nat, m: nat, n: nat)
    requires m <= n
    ensures Acts(env, s0, i, m) <= Acts(env, s0, i, n)
    decreases n
  {
    hide Acting, Head;
    if m < n {
      ActsGrow(env, s0, i, m, n - 1);
    }
  }

  // Every stored cooldown is positive and no larger than an active skill of that ID configures.
  predicate Configured(u: UnitState) {
    forall id :: id in u.cooldowns ==> u.cooldowns[id] >= 1 && SomeSkillAllows(u.config.activeSkills, id, u.cooldowns[id])
  }

  predicate SomeSkillAllows(skills: seq<SkillConfig>, id: string, turns: int) {
    exists j :: 0 <= j < |skills| && skills[j].id == id && turns <= skills[j].cooldown
  }

  lemma CoolingStaysConfigured(u: UnitState)
    requires Configured(u)
    ensures Configured(u.(cooldowns := CooledDown(u.cooldowns)))
  {
  }

  lemma UseStaysConfigured(u: UnitState, skill: SkillConfig)
    requires Configured(u) && (skill.id != u.config.basicSkill.id ==> skill in u.config.activeSkills)
    ensures Configured(u.(cooldowns := CooldownsAfterUse(u, skill)))
  {
  }

  lemma {:induction false} CooldownsStayConfigured(env: Env, setup: Setup, i: nat, k: nat)
    requires i < |setup.units|
    ensures |Head(env, Initial(setup), k).units| == |setup.units|
    ensures Configured(Head(env, Initial(setup), k).units[i])
  {
    hide Head, Acting, CooledDown, Expired, Fed, Delta, SomeSkillAllows, CooldownsAfterUse, UsedIn;
    var s0 := Initial(setup);
    if k == 0 {
      HeadStart(env, s0);
    } else {
      CooldownsStayConfigured(env, setup, i, k - 1);
      CooldownStep(env, s0, i, k - 1);
      UnitStep(env, s0, i, k - 1);
      var u := Head(env, s0, k - 1).units[i];
      CoolingStaysConfigured(u);
      var used := UsedAt(env, s0, i, k - 1);
      if used.Some? {
        UsedSkillWasReady(env, Head(env, s0, k - 1), i);
        UseStaysConfigured(u.(cooldowns := CooledDown(u.cooldowns)), used.value);
      }
    }
  }
}
