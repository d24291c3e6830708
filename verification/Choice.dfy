// Actor and target choice do not depend on the unstable sort: the hand-written
// comparators are strict total orders on units with distinct IDs.
module Choice {
  import opened Common
  import opened Config
  import opened Sorting
  import opened BattleModel

  // What validation gives about a unit list, at every point of a battle.
  ghost predicate Roster(units: seq<UnitState>) {
    && (forall i, j :: 0 <= i < j < |units| ==> units[i].config.instanceId != units[j].config.instanceId)
    && (forall i :: 0 <= i < |units| ==> WellFormed(units[i].config))
  }

  lemma UnitLessIsStrictTotal(a: UnitState, b: UnitState, c: UnitState)
    ensures !UnitLess(a, a)
    ensures a.config.instanceId != b.config.instanceId ==> UnitLess(a, b) || UnitLess(b, a)
    ensures UnitLess(a, b) && UnitLess(b, c) ==> UnitLess(a, c)
  {
    StringLessIsStrictTotal(a.config.instanceId, b.config.instanceId, c.config.instanceId);
  }

  lemma ActsBeforeIsStrictTotal(a: UnitState, b: UnitState, c: UnitState)
    ensures !ActsBefore(a, a)
    ensures a.config.instanceId != b.config.instanceId ==> ActsBefore(a, b) || ActsBefore(b, a)
    ensures ActsBefore(a, b) && ActsBefore(b, c) ==> ActsBefore(a, c)
  {
    UnitLessIsStrictTotal(a, b, c);
  }

  // Comparing HP ratios by cross-multiplication is transitive, ties included.
  lemma RatiosAreTransitive(a: int, am: int, b: int, bm: int, c: int, cm: int)
    requires am > 0 && bm > 0 && cm > 0
    requires a * bm <= b * am && b * cm <= c * bm
    ensures a * cm <= c * am
    ensures a * bm < b * am || b * cm < c * bm ==> a * cm < c * am
  {
    ScaleBoth(a * bm, b * am, cm);
    ScaleBoth(b * cm, c * bm, am);
    calc {
      a * bm * cm;
      (a * cm) * bm;
    }
    calc {
      b * am * cm;
      b * cm * am;
    }
    calc {
      c * bm * am;
      (c * am) * bm;
    }
    if a * cm > c * am {
      ScaleBoth(c * am, a * cm, bm);
    }
  }

  lemma ScaleBoth(x: int, y: int, m: int)
    requires x <= y && m > 0
    ensures x * m <= y * m
    ensures x < y ==> x * m < y * m
  {
    MulMonotone(x, y, m);
    if x < y {
      MulMonotone(x + 1, y, m);
    }
  }

  lemma WeakerThanIsStrictTotal(a: UnitState, b: UnitState, c: UnitState)
    requires a.config.maxHp > 0 && b.config.maxHp > 0 && c.config.maxHp > 0
    ensures !WeakerThan(a, a)
    ensures a.config.instanceId != b.config.instanceId ==> WeakerThan(a, b) || WeakerThan(b, a)
    ensures WeakerThan(a, b) && WeakerThan(b, c) ==> WeakerThan(a, c)
  {
    UnitLessIsStrictTotal(a, b, c);
    if WeakerThan(a, b) && WeakerThan(b, c) {
      RatiosAreTransitive(a.hp, a.config.maxHp, b.hp, b.config.maxHp, c.hp, c.config.maxHp);
      if a.hp * c.config.maxHp == c.hp * a.config.maxHp {
        assert UnitLess(a, b) && UnitLess(b, c);
      }
    }
  }

  lemma OrdersAreStrictTotal(units: seq<UnitState>, xs: seq<nat>)
    requires Roster(units) && forall i :: i in xs ==> i < |units|
    ensures StrictTotal(ActingOrder(units), xs)
    ensures StrictTotal(PositionOrder(units), xs)
    ensures StrictTotal(WeaknessOrder(units), xs)
  {
    ActingOrderIsStrictTotal(units, xs);
    PositionOrderIsStrictTotal(units, xs);
    WeaknessOrderIsStrictTotal(units, xs);
  }

  lemma ActingOrderIsStrictTotal(units: seq<UnitState>, xs: seq<nat>)
    requires Roster(units) && forall i :: i in xs ==> i < |units|
    ensures StrictTotal(ActingOrder(units), xs)
  {
    forall i, j, k | i in xs && j in xs && k in xs
      ensures !ActingOrder(units)(i, i)
      ensures i != j ==> ActingOrder(units)(i, j) || ActingOrder(units)(j, i)
      ensures ActingOrder(units)(i, j) && ActingOrder(units)(j, k) ==> ActingOrder(units)(i, k)
    {
      ActsBeforeIsStrictTotal(units[i], units[j], units[k]);
    }
  }

  lemma PositionOrderIsStrictTotal(units: seq<UnitState>, xs: seq<nat>)
    requires Roster(units) && forall i :: i in xs ==> i < |units|
    ensures StrictTotal(PositionOrder(units), xs)
  {
    forall i, j, k | i in xs && j in xs && k in xs
      ensures !PositionOrder(units)(i, i)
      ensures i != j ==> PositionOrder(units)(i, j) || PositionOrder(units)(j, i)
      ensures PositionOrder(units)(i, j) && PositionOrder(units)(j, k) ==> PositionOrder(units)(i, k)
    {
      UnitLessIsStrictTotal(units[i], units[j], units[k]);
    }
  }

  lemma WeaknessOrderIsStrictTotal(units: seq<UnitState>, xs: seq<nat>)
    requires Roster(units) && forall i :: i in xs ==> i < |units|
    ensures StrictTotal(WeaknessOrder(units), xs)
  {
    forall i, j, k | i in xs && j in xs && k in xs
      ensures !WeaknessOrder(units)(i, i)
      ensures i != j ==> WeaknessOrder(units)(i, j) || WeaknessOrder(units)(j, i)
      ensures WeaknessOrder(units)(i, j) && WeaknessOrder(units)(j, k) ==> WeaknessOrder(units)(i, k)
    {
      WeakerThanIsStrictTotal(units[i], units[j], units[k]);
    }
  }

  // Whatever order the ready units are collected in and whichever sorting permutation
  // sort.Slice returns, the front unit is the one the model picks.
  lemma ActorChoiceIsUnique(threshold: int, units: seq<UnitState>, shuffled: seq<nat>, ys: seq<nat>)
    requires Roster(units)
    requires multiset(shuffled) == multiset(ReadyUnits(threshold, units, |units|))
    requires SortingOf(ActingOrder(units), shuffled, ys)
    ensures PickReady(threshold, units) == if ys == [] then None else Some(ys[0])
  {
    var ready := ReadyUnits(threshold, units, |units|);
    ReadyUnitsAre(threshold, units, |units|);
    OrdersAreStrictTotal(units, ready);
    AnySortingIsSorted(ActingOrder(units), ready, shuffled, ys);
  }

  // In particular the chosen unit beats every other ready unit, and one is chosen if any is ready.
  lemma PickedActsFirst(threshold: int, units: seq<UnitState>, i: nat)
    requires Roster(units) && i < |units| && IsReady(threshold, units[i])
    ensures PickReady(threshold, units).Some?
    ensures i == PickReady(threshold, units).value || ActsBefore(units[PickReady(threshold, units).value], units[i])
  {
    var ready := ReadyUnits(threshold, units, |units|);
    ReadyUnitsAre(threshold, units, |units|);
    var sorted := Sorted(ActingOrder(units), ready);
    OrdersAreStrictTotal(units, ready);
    SortedSorts(ActingOrder(units), ready);
    SameElements(sorted, ready);
    OrdersAreStrictTotal(units, sorted);
    HeadIsLeast(ActingOrder(units), sorted, i);
  }

  ghost predicate SortableBy(units: seq<UnitState>, rule: TargetRule, order: (nat, nat) -> bool) {
    match rule
    case EnemySingle => order == PositionOrder(units)
    case EnemyAll => order == PositionOrder(units)
    case AllyLowestHp => order == WeaknessOrder(units)
    case _ => false
  }

  // The same for targets: any sorting of any order of the candidates gives the model's target list.
  lemma TargetChoiceIsUnique(units: seq<UnitState>, a: nat, rule: TargetRule, order: (nat, nat) -> bool,
                             shuffled: seq<nat>, ys: seq<nat>)
    requires Roster(units) && a < |units| && SortableBy(units, rule, order)
    requires multiset(shuffled) == multiset(Candidates(units, a, rule.AllyLowestHp?, |units|))
    requires SortingOf(order, shuffled, ys)
    ensures Targets(units, a, rule) == if rule.EnemyAll? then ys else FirstOnly(ys)
  {
    var found := Candidates(units, a, rule.AllyLowestHp?, |units|);
    CandidatesAre(units, a, rule.AllyLowestHp?, |units|);
    OrdersAreStrictTotal(units, found);
    AnySortingIsSorted(order, found, shuffled, ys);
  }

  // ENEMY_ALL hits every living enemy, in position order.
  lemma EnemyAllHitsEveryEnemy(units: seq<UnitState>, a: nat, i: nat)
    requires Roster(units) && a < |units| && i < |units|
    requires Alive(units[i]) && units[i].config.team != units[a].config.team
    ensures i in Targets(units, a, EnemyAll) && Ordered(PositionOrder(units), Targets(units, a, EnemyAll))
  {
    var found := Candidates(units, a, false, |units|);
    CandidatesAre(units, a, false, |units|);
    OrdersAreStrictTotal(units, found);
    SortedFront(PositionOrder(units), found, i);
  }

  // A single-target rule hits exactly one unit, the least candidate, whenever there is one.
  lemma EnemySingleHitsTheFront(units: seq<UnitState>, a: nat, i: nat)
    requires Roster(units) && a < |units| && i < |units|
    requires Alive(units[i]) && units[i].config.team != units[a].config.team
    ensures exists t: nat :: t < |units| && Targets(units, a, EnemySingle) == [t] && (t == i || UnitLess(units[t], units[i]))
  {
    var found := Candidates(units, a, false, |units|);
    CandidatesAre(units, a, false, |units|);
    OrdersAreStrictTotal(units, found);
    SortedFront(PositionOrder(units), found, i);
    SingleTarget(Sorted(PositionOrder(units), found), found);
  }

  lemma AllyLowestHpHitsTheWeakest(units: seq<UnitState>, a: nat, i: nat)
    requires Roster(units) && a < |units| && i < |units|
    requires Alive(units[i]) && units[i].config.team == units[a].config.team
    ensures exists t: nat :: t < |units| && Targets(units, a, AllyLowestHp) == [t] && (t == i || WeakerThan(units[t], units[i]))
  {
    hide WeaknessOrder, WeakerThan, Sorted, Candidates;
    var found := Candidates(units, a, true, |units|);
    CandidatesAre(units, a, true, |units|);
    OrdersAreStrictTotal(units, found);
    SortedFront(WeaknessOrder(units), found, i);
    SingleTarget(Sorted(WeaknessOrder(units), found), found);
    WeaknessAt(units, Sorted(WeaknessOrder(units), found)[0], i);
  }

  lemma WeaknessAt(units: seq<UnitState>, i: nat, j: nat)
    requires i < |units| && j < |units|
    ensures WeaknessOrder(units)(i, j) == WeakerThan(units[i], units[j])
  {
  }

  // ---- the choices spelled out on the units' own figures ----

  // Front positions come first, and in one position the alphabetically smaller ID.
  ghost predicate Precedes(left: UnitState, right: UnitState) {
    || left.config.position < right.config.position
    || (left.config.position == right.config.position && Alphabetical(left.config.instanceId, right.config.instanceId))
  }

  lemma UnitLessPrecedes(left: UnitState, right: UnitState)
    ensures UnitLess(left, right) <==> Precedes(left, right)
  {
    StringLessIsAlphabetical(left.config.instanceId, right.config.instanceId);
  }

  function AttackFlat(m: AttributeModifier): int { m.attackFlat }

  function DefenseFlat(m: AttributeModifier): int { m.defenseFlat }

  function SpeedFlat(m: AttributeModifier): int { m.speedFlat }

  // The sum of one figure over the statuses still running.
  function SumRunning(statuses: seq<ActiveStatus>, figure: AttributeModifier -> int): int {
    if statuses == [] then 0 else
      SumRunning(statuses[1..], figure) + if statuses[0].remaining > 0 then figure(statuses[0].config.modifier) else 0
  }

  lemma {:induction false} SumRunningAppend(statuses: seq<ActiveStatus>, last: ActiveStatus, figure: AttributeModifier -> int)
    ensures SumRunning(statuses + [last], figure)
         == SumRunning(statuses, figure) + if last.remaining > 0 then figure(last.config.modifier) else 0
  {
    if statuses == [] {
      assert statuses + [last] == [last] && [last][1..] == [];
    } else {
      SumRunningAppend(statuses[1..], last, figure);
      assert (statuses + [last])[1..] == statuses[1..] + [last];
    }
  }

  // Each figure of the modifier is the sum of that figure over the running statuses.
  lemma {:induction false} ModifierIsSum(statuses: seq<ActiveStatus>)
    ensures ModifierOf(statuses).attackFlat == SumRunning(statuses, AttackFlat)
    ensures ModifierOf(statuses).defenseFlat == SumRunning(statuses, DefenseFlat)
    ensures ModifierOf(statuses).speedFlat == SumRunning(statuses, SpeedFlat)
  {
    if statuses != [] {
      var front, last := statuses[..|statuses| - 1], statuses[|statuses| - 1];
      ModifierIsSum(front);
      assert statuses == front + [last];
      SumRunningAppend(front, last, AttackFlat);
      SumRunningAppend(front, last, DefenseFlat);
      SumRunningAppend(front, last, SpeedFlat);
    }
  }

  // The picked unit has the largest gauge; among those the largest speed; among those it
  // stands in front.
  lemma PickedIsForemost(threshold: int, units: seq<UnitState>, i: nat)
    requires Roster(units) && i < |units| && units[i].hp > 0 && units[i].gauge >= threshold
    ensures PickReady(threshold, units).Some?
    ensures var u, v := units[PickReady(threshold, units).value], units[i];
            var fast, slow := Max(1, u.config.speed + ModifierOf(u.statuses).speedFlat),
                              Max(1, v.config.speed + ModifierOf(v.statuses).speedFlat);
            || i == PickReady(threshold, units).value
            || u.gauge > v.gauge
            || (u.gauge == v.gauge && (fast > slow || (fast == slow && Precedes(u, v))))
  {
    hide ModifierOf, PickReady;
    PickedActsFirst(threshold, units, i);
    UnitLessPrecedes(units[PickReady(threshold, units).value], units[i]);
  }

  predicate IsEnemy(units: seq<UnitState>, a: nat, t: nat) {
    a < |units| && t < |units| && units[t].hp > 0 && units[t].config.team != units[a].config.team
  }

  predicate IsFriend(units: seq<UnitState>, a: nat, t: nat) {
    a < |units| && t < |units| && units[t].hp > 0 && units[t].config.team == units[a].config.team
  }

  // The smaller share of hit points left, and in front among equals.
  ghost predicate WorseOff(left: UnitState, right: UnitState) {
    || left.hp * right.config.maxHp < right.hp * left.config.maxHp
    || (left.hp * right.config.maxHp == right.hp * left.config.maxHp && Precedes(left, right))
  }

  // What the target rules promise, on teams, hit points, positions and IDs alone.
  ghost predicate Aimed(units: seq<UnitState>, a: nat, rule: TargetRule, ts: seq<nat>)
    requires a < |units|
  {
    && (forall t :: t in ts ==> t < |units|)
    && match rule
       case Self => ts == if units[a].hp > 0 then [a] else []
       case EnemyAll =>
         && (forall t: nat :: t in ts <==> IsEnemy(units, a, t))
         && (forall x, y :: 0 <= x < y < |ts| ==> ts[x] < |units| && ts[y] < |units| && Precedes(units[ts[x]], units[ts[y]]))
       case EnemySingle =>
         if exists t: nat :: IsEnemy(units, a, t)
         then |ts| == 1 && IsEnemy(units, a, ts[0]) && forall t: nat :: IsEnemy(units, a, t) && t != ts[0] ==> Precedes(units[ts[0]], units[t])
         else ts == []
       case AllyLowestHp =>
         if exists t: nat :: IsFriend(units, a, t)
         then |ts| == 1 && IsFriend(units, a, ts[0]) && forall t: nat :: IsFriend(units, a, t) && t != ts[0] ==> WorseOff(units[ts[0]], units[t])
         else ts == []
       case OtherRule => ts == []
  }

  lemma TargetsAreAimed(units: seq<UnitState>, a: nat, rule: TargetRule)
    requires Roster(units) && a < |units|
    ensures Aimed(units, a, rule, Targets(units, a, rule))
  {
    hide Targets, UnitLess, WeakerThan, Precedes, WorseOff;
    match rule
    case EnemyAll => AllAreAimed(units, a);
    case EnemySingle => SingleIsAimed(units, a);
    case AllyLowestHp => WeakestIsAimed(units, a);
    case _ => OthersAreAimed(units, a, rule);
  }

  lemma OthersAreAimed(units: seq<UnitState>, a: nat, rule: TargetRule)
    requires a < |units| && (rule.Self? || rule.OtherRule?)
    ensures Targets(units, a, rule) == if rule.Self? && units[a].hp > 0 then [a] else []
  {
  }

  lemma AllAreAimed(units: seq<UnitState>, a: nat)
    requires Roster(units) && a < |units|
    ensures Aimed(units, a, EnemyAll, Targets(units, a, EnemyAll))
  {
    hide Roster, Precedes, PositionOrder, Sorted, Candidates;
    var ts := Targets(units, a, EnemyAll);
    AllAreInOrder(units, a);
    hide Targets;
    forall x, y | 0 <= x < y < |ts|
      ensures ts[x] < |units| && ts[y] < |units| && Precedes(units[ts[x]], units[ts[y]])
    {
      assert ts[x] in ts && ts[y] in ts;
      OrderedPrecedes(units, ts[x], ts[y]);
    }
    assert forall t: nat :: t in ts <==> IsEnemy(units, a, t);
    assert forall t: nat :: t in ts ==> t < |units|;
  }

  lemma AllAreInOrder(units: seq<UnitState>, a: nat)
    requires Roster(units) && a < |units|
    ensures var ts := Targets(units, a, EnemyAll);
            && (forall t: nat :: t in ts <==> IsEnemy(units, a, t))
            && Distinct(ts) && Ordered(PositionOrder(units), ts)
  {
    hide Roster, PositionOrder, Sorted, Candidates, StrictTotal;
    var found, ts := Candidates(units, a, false, |units|), Targets(units, a, EnemyAll);
    CandidatesAre(units, a, false, |units|);
    OrdersAreStrictTotal(units, found);
    SortedSorts(PositionOrder(units), found);
    CandidatesAreDistinct(units, a, false, |units|);
    DistinctStays(found, ts);
  }

  lemma OrderedPrecedes(units: seq<UnitState>, i: nat, j: nat)
    requires Roster(units) && i < |units| && j < |units| && i != j && !PositionOrder(units)(j, i)
    ensures Precedes(units[i], units[j])
  {
    hide UnitLess, Precedes;
    UnitLessIsStrictTotal(units[i], units[j], units[i]);
    UnitLessPrecedes(units[i], units[j]);
    assert units[i].config.instanceId != units[j].config.instanceId;
  }

  ghost predicate Distinct(xs: seq<nat>) {
    forall x, y :: 0 <= x < y < |xs| ==> xs[x] != xs[y]
  }

  lemma {:induction false} CandidatesAreDistinct(units: seq<UnitState>, a: nat, allies: bool, n: nat)
    requires a < |units| && n <= |units|
    ensures Distinct(Candidates(units, a, allies, n))
  {
    if n > 0 {
      CandidatesAre(units, a, allies, n - 1);
      CandidatesAreDistinct(units, a, allies, n - 1);
    }
  }

  lemma DistinctStays(xs: seq<nat>, ys: seq<nat>)
    requires Distinct(xs) && multiset(xs) == multiset(ys)
    ensures Distinct(ys)
  {
    forall x, y | 0 <= x < y < |ys| ensures ys[x] != ys[y] {
      if ys[x] == ys[y] {
        TwiceIsTwo(ys, x, y);
        OnceIsOne(xs, ys[x]);
      }
    }
  }

  lemma TwiceIsTwo(ys: seq<nat>, x: nat, y: nat)
    requires x < y < |ys| && ys[x] == ys[y]
    ensures multiset(ys)[ys[x]] >= 2
  {
    assert ys == ys[..y] + ys[y..];
    assert multiset(ys) == multiset(ys[..y]) + multiset(ys[y..]);
    assert ys[x] in ys[..y] && ys[y] in ys[y..];
  }

  lemma {:induction false} OnceIsOne(xs: seq<nat>, v: nat)
    requires Distinct(xs)
    ensures multiset(xs)[v] <= 1
  {
    if xs != [] {
      var front, last := xs[..|xs| - 1], xs[|xs| - 1];
      assert xs == front + [last];
      OnceIsOne(front, v);
      assert last !in front;
    }
  }

  lemma SingleIsAimed(units: seq<UnitState>, a: nat)
    requires Roster(units) && a < |units|
    ensures Aimed(units, a, EnemySingle, Targets(units, a, EnemySingle))
  {
    var ts := Targets(units, a, EnemySingle);
    EnemySingleIsFirst(units, a);
    hide Targets, UnitLess, Precedes;
    forall t: nat | IsEnemy(units, a, t)
      ensures |ts| == 1 && IsEnemy(units, a, ts[0]) && (t != ts[0] ==> Precedes(units[ts[0]], units[t]))
    {
      EnemySingleHitsTheFront(units, a, t);
      assert ts[0] in ts;
      UnitLessPrecedes(units[ts[0]], units[t]);
    }
  }

  lemma EnemySingleIsFirst(units: seq<UnitState>, a: nat)
    requires a < |units|
    ensures forall t :: t in Targets(units, a, EnemySingle) ==> IsEnemy(units, a, t)
    ensures (forall t: nat :: !IsEnemy(units, a, t)) ==> Targets(units, a, EnemySingle) == []
  {
    var ts := Targets(units, a, EnemySingle);
    assert ts != [] ==> ts[0] in ts && IsEnemy(units, a, ts[0]);
  }

  lemma WeakestIsAimed(units: seq<UnitState>, a: nat)
    requires Roster(units) && a < |units|
    ensures Aimed(units, a, AllyLowestHp, Targets(units, a, AllyLowestHp))
  {
    var ts := Targets(units, a, AllyLowestHp);
    AllyLowestIsFriend(units, a);
    hide Targets, UnitLess, Precedes, WorseOff;
    forall t: nat | IsFriend(units, a, t)
      ensures |ts| == 1 && IsFriend(units, a, ts[0]) && (t != ts[0] ==> WorseOff(units[ts[0]], units[t]))
    {
      AllyLowestHpHitsTheWeakest(units, a, t);
      assert ts[0] in ts;
      WeakerIsWorseOff(units[ts[0]], units[t]);
    }
  }

  lemma WeakerIsWorseOff(left: UnitState, right: UnitState)
    ensures WeakerThan(left, right) <==> WorseOff(left, right)
  {
    UnitLessPrecedes(left, right);
  }

  lemma AllyLowestIsFriend(units: seq<UnitState>, a: nat)
    requires a < |units|
    ensures forall t :: t in Targets(units, a, AllyLowestHp) ==> IsFriend(units, a, t)
    ensures (forall t: nat :: !IsFriend(units, a, t)) ==> Targets(units, a, AllyLowestHp) == []
  {
    var ts := Targets(units, a, AllyLowestHp);
    assert ts != [] ==> ts[0] in ts && IsFriend(units, a, ts[0]);
  }

  // ---- skills ----

  predicate OffCooldown(cooldowns: map<string, int>, skill: SkillConfig) {
    CooldownOf(cooldowns, skill.id) == 0
  }

  // The j-th skill is the first that is off cooldown; past the end, none is.
  ghost predicate FirstOff(skills: seq<SkillConfig>, cooldowns: map<string, int>, j: nat) {
    && j <= |skills|
    && (j < |skills| ==> OffCooldown(cooldowns, skills[j]))
    && forall i :: 0 <= i < j ==> !OffCooldown(cooldowns, skills[i])
  }

  // An unsilenced unit uses its first active skill that is off cooldown; a silenced one, and
  // one whose active skills all cool down, falls back on its basic skill.
  lemma SkillChoiceExactly(u: UnitState, j: nat)
    requires FirstOff(u.config.activeSkills, u.cooldowns, j)
    ensures ChooseSkill(u) == if !HasStatus(u.statuses, Silence) && j < |u.config.activeSkills|
                              then u.config.activeSkills[j] else u.config.basicSkill
  {
    FirstReadyIsFirst(u.config.activeSkills, u.cooldowns, u.config.basicSkill, j);
  }

  lemma {:induction false} FirstReadyIsFirst(skills: seq<SkillConfig>, cooldowns: map<string, int>, otherwise: SkillConfig, j: nat)
    requires FirstOff(skills, cooldowns, j)
    ensures FirstReadySkill(skills, cooldowns, otherwise) == if j < |skills| then skills[j] else otherwise
    decreases j
  {
    if j > 0 {
      assert !OffCooldown(cooldowns, skills[0]);
      FirstReadyIsFirst(skills[1..], cooldowns, otherwise, j - 1);
    }
  }

  lemma SingleTarget(sorted: seq<nat>, found: seq<nat>)
    requires sorted != [] && multiset(sorted) == multiset(found)
    ensures FirstOnly(sorted) == [sorted[0]] && sorted[0] in found
  {
    SameElements(sorted, found);
    assert sorted[0] in sorted;
  }

  lemma SortedFront(order: (nat, nat) -> bool, found: seq<nat>, i: nat)
    requires StrictTotal(order, found) && i in found
    ensures var s := Sorted(order, found); Ordered(order, s) && i in s && (s[0] == i || order(s[0], i))
  {
    var s := Sorted(order, found);
    SortedSorts(order, found);
    SameElements(s, found);
    HeadIsLeast(order, s, i);
  }
}
