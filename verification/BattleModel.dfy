// The meaning of each engine operation as a function on battle states (engine/battle.go).
// A *unit of the Go code is named here by its index in the battle's unit list.
module BattleModel {
  import opened Common
  import opened Config
  import opened Sorting
  import Rng
  import Damage

  datatype ActiveStatus = ActiveStatus(config: StatusConfig, remaining: int)

  datatype UnitState = UnitState(
    config: UnitConfig, hp: int, gauge: int, cooldowns: map<string, int>, statuses: seq<ActiveStatus>)

  datatype EventType =
    | ActionStarted | SkillUsed | DamageDealt | Healed | StatusApplied | ActionSkipped | ActionEnded | BattleEnded

  datatype Event = Event(
    sequence: nat, action: nat, tick: int, kind: EventType,
    actor: string, target: string, skill: string, status: string,
    amount: int, before: int, after: int, detail: string)

  datatype State = State(draws: nat, tick: int, action: nat, units: seq<UnitState>, events: seq<Event>)

  // What stays fixed during a battle: the rules, the words the RNG will produce, the damage stages.
  datatype Env = Env(rules: Rules, dice: Rng.Dice, pipeline: seq<Damage.Stage>)

  datatype Outcome = NoOutcome | AttackerWin | DefenderWin | Draw

  // ---- one unit ----

  predicate Alive(u: UnitState) {
    u.hp > 0
  }

  predicate HasStatus(statuses: seq<ActiveStatus>, kind: StatusKind) {
    exists j :: 0 <= j < |statuses| && statuses[j].remaining > 0 && statuses[j].config.kind == kind
  }

  const NO_MODIFIER := AttributeModifier(0, 0, 0)

  function Plus(a: AttributeModifier, b: AttributeModifier): AttributeModifier {
    AttributeModifier(a.attackFlat + b.attackFlat, a.defenseFlat + b.defenseFlat, a.speedFlat + b.speedFlat)
  }

  function ModifierOf(statuses: seq<ActiveStatus>): AttributeModifier {
    if statuses == [] then NO_MODIFIER else
      var last := statuses[|statuses| - 1];
      var sum := ModifierOf(statuses[..|statuses| - 1]);
      if last.remaining > 0 then Plus(sum, last.config.modifier) else sum
  }

  function AttackOf(u: UnitState): int {
    Max(0, u.config.attack + ModifierOf(u.statuses).attackFlat)
  }

  function DefenseOf(u: UnitState): int {
    Max(0, u.config.defense + ModifierOf(u.statuses).defenseFlat)
  }

  function SpeedOf(u: UnitState): (speed: int)
    ensures speed >= 1
  {
    Max(1, u.config.speed + ModifierOf(u.statuses).speedFlat)
  }

  function CooldownOf(cooldowns: map<string, int>, id: string): int {
    if id in cooldowns then cooldowns[id] else 0
  }

  // ---- construction ----

  function Activated(configs: seq<StatusConfig>): seq<ActiveStatus> {
    seq(|configs|, i requires 0 <= i < |configs| => ActiveStatus(configs[i], configs[i].durationTurns))
  }

  function InitialUnit(c: UnitConfig): UnitState {
    UnitState(c, c.maxHp, 0, map[], Activated(c.initialStatus))
  }

  function Initial(setup: Setup): (s: State)
    ensures |s.units| == |setup.units|
    ensures forall i :: 0 <= i < |s.units| ==> s.units[i] == InitialUnit(setup.units[i])
  {
    State(0, 0, 0,
          seq(|setup.units|, i requires 0 <= i < |setup.units| => InitialUnit(setup.units[i])), [])
  }

  // ---- outcome ----

  predicate TeamAlive(units: seq<UnitState>, team: Team) {
    exists i :: 0 <= i < |units| && units[i].config.team == team && Alive(units[i])
  }

  function OutcomeOf(units: seq<UnitState>): Outcome {
    var attacker, defender := TeamAlive(units, Attacker), TeamAlive(units, Defender);
    if attacker && defender then NoOutcome
    else if attacker then AttackerWin
    else if defender then DefenderWin
    else Draw
  }

  // ---- scheduling ----

  function TicksNeeded(threshold: int, u: UnitState): int {
    var need := threshold - u.gauge;
    if need > 0 then (need + SpeedOf(u) - 1) / SpeedOf(u) else 0
  }

  // Fewest ticks any living unit needs; -1 when nobody lives.
  function Delta(threshold: int, units: seq<UnitState>): int {
    if units == [] then -1 else
      var last := units[|units| - 1];
      var delta := Delta(threshold, units[..|units| - 1]);
      if !Alive(last) then delta
      else if delta < 0 || TicksNeeded(threshold, last) < delta then TicksNeeded(threshold, last)
      else delta
  }

  function Charged(u: UnitState, ticks: int): UnitState {
    if Alive(u) then u.(gauge := u.gauge + ticks * SpeedOf(u)) else u
  }

  function ChargeAll(units: seq<UnitState>, ticks: int): (r: seq<UnitState>)
    ensures |r| == |units|
    ensures forall i :: 0 <= i < |units| ==> r[i] == Charged(units[i], ticks)
  {
    seq(|units|, i requires 0 <= i < |units| => Charged(units[i], ticks))
  }

  function Jump(threshold: int, s: State): State {
    var delta := Delta(threshold, s.units);
    if delta > 0 then s.(units := ChargeAll(s.units, delta), tick := s.tick + delta) else s
  }

  predicate IsReady(threshold: int, u: UnitState) {
    Alive(u) && u.gauge >= threshold
  }

  function ReadyUnits(threshold: int, units: seq<UnitState>, n: nat): seq<nat>
    requires n <= |units|
  {
    if n == 0 then []
    else if IsReady(threshold, units[n - 1]) then ReadyUnits(threshold, units, n - 1) + [n - 1]
    else ReadyUnits(threshold, units, n - 1)
  }

  lemma {:induction false} ReadyUnitsAre(threshold: int, units: seq<UnitState>, n: nat)
    requires n <= |units|
    ensures forall i: nat :: i in ReadyUnits(threshold, units, n) <==> i < n && IsReady(threshold, units[i])
  {
    if n > 0 {
      ReadyUnitsAre(threshold, units, n - 1);
    }
  }

  // The comparator nextActor sorts by.
  predicate ActsBefore(left: UnitState, right: UnitState) {
    if left.gauge != right.gauge then left.gauge > right.gauge
    else if SpeedOf(left) != SpeedOf(right) then SpeedOf(left) > SpeedOf(right)
    else UnitLess(left, right)
  }

  predicate UnitLess(left: UnitState, right: UnitState) {
    if left.config.position != right.config.position then left.config.position < right.config.position
    else StringLess(left.config.instanceId, right.config.instanceId)
  }

  function ActingOrder(units: seq<UnitState>): (nat, nat) -> bool {
    (i: nat, j: nat) => i < |units| && j < |units| && ActsBefore(units[i], units[j])
  }

  function PickReady(threshold: int, units: seq<UnitState>): (a: Option<nat>)
    ensures a.Some? ==> a.value < |units| && IsReady(threshold, units[a.value])
  {
    var ready := ReadyUnits(threshold, units, |units|);
    var sorted := Sorted(ActingOrder(units), ready);
    if sorted == [] then None else
      SameElements(sorted, ready);
      ReadyUnitsAre(threshold, units, |units|);
      assert sorted[0] in sorted;
      Some(sorted[0])
  }

  function NextActor(threshold: int, s: State): (r: (State, Option<nat>))
    ensures r.0 == Jump(threshold, s)
    ensures r.1.Some? ==> r.1.value < |r.0.units| && IsReady(threshold, r.0.units[r.1.value])
  {
    var s' := Jump(threshold, s);
    (s', if Delta(threshold, s.units) < 0 then None else PickReady(threshold, s'.units))
  }

  // ---- target selection ----

  predicate IsCandidate(actor: UnitState, u: UnitState, allies: bool) {
    Alive(u) && (u.config.team == actor.config.team) == allies
  }

  function Candidates(units: seq<UnitState>, a: nat, allies: bool, n: nat): seq<nat>
    requires a < |units| && n <= |units|
  {
    if n == 0 then []
    else if IsCandidate(units[a], units[n - 1], allies) then Candidates(units, a, allies, n - 1) + [n - 1]
    else Candidates(units, a, allies, n - 1)
  }

  lemma {:induction false} CandidatesAre(units: seq<UnitState>, a: nat, allies: bool, n: nat)
    requires a < |units| && n <= |units|
    ensures forall i: nat :: i in Candidates(units, a, allies, n) <==> i < n && IsCandidate(units[a], units[i], allies)
  {
    if n > 0 {
      CandidatesAre(units, a, allies, n - 1);
    }
  }

  // The comparator of ALLY_LOWEST_HP: smaller HP ratio first, by cross-multiplication.
  predicate WeakerThan(left: UnitState, right: UnitState) {
    var l, r := left.hp * right.config.maxHp, right.hp * left.config.maxHp;
    if l != r then l < r else UnitLess(left, right)
  }

  function PositionOrder(units: seq<UnitState>): (nat, nat) -> bool {
    (i: nat, j: nat) => i < |units| && j < |units| && UnitLess(units[i], units[j])
  }

  function WeaknessOrder(units: seq<UnitState>): (nat, nat) -> bool {
    (i: nat, j: nat) => i < |units| && j < |units| && WeakerThan(units[i], units[j])
  }

  function FirstOnly(targets: seq<nat>): (r: seq<nat>)
    ensures |r| <= 1 && forall t :: t in r ==> t in targets
  {
    if |targets| > 1 then targets[..1] else targets
  }

  function Targets(units: seq<UnitState>, a: nat, rule: TargetRule): (ts: seq<nat>)
    requires a < |units|
    ensures forall t :: t in ts ==> t < |units|
  {
    match rule
    case Self => if Alive(units[a]) then [a] else []
    case EnemySingle => FirstOnly(SortedCandidates(units, a, false, PositionOrder(units)))
    case EnemyAll => SortedCandidates(units, a, false, PositionOrder(units))
    case AllyLowestHp => FirstOnly(SortedCandidates(units, a, true, WeaknessOrder(units)))
    case OtherRule => []
  }

  function SortedCandidates(units: seq<UnitState>, a: nat, allies: bool, order: (nat, nat) -> bool): (ts: seq<nat>)
    requires a < |units|
    ensures forall t: nat :: t in ts <==> t < |units| && IsCandidate(units[a], units[t], allies)
  {
    var found := Candidates(units, a, allies, |units|);
    CandidatesAre(units, a, allies, |units|);
    SameElements(Sorted(order, found), found);
    Sorted(order, found)
  }

  // Targets are alive and all of one team: the enemy's for the enemy rules, else the actor's.
  lemma TargetsAreOneTeam(units: seq<UnitState>, a: nat, rule: TargetRule, t: nat)
    requires a < |units| && t in Targets(units, a, rule)
    ensures Alive(units[t])
    ensures units[t].config.team == units[a].config.team <==> rule.Self? || rule.AllyLowestHp?
  {
  }

  // ---- one action ----

  function Emitted(s: State, kind: EventType, actor: string, target: string, skill: string, status: string,
                   amount: int, before: int, after: int, detail: string): State
  {
    s.(events := s.events + [Event(|s.events| + 1, s.action, s.tick, kind,
                                   actor, target, skill, status, amount, before, after, detail)])
  }

  function WithUnit(s: State, i: nat, u: UnitState): State
    requires i < |s.units|
  {
    s.(units := s.units[i := u])
  }

  function WithHp(s: State, i: nat, hp: int): State
    requires i < |s.units|
  {
    WithUnit(s, i, s.units[i].(hp := hp))
  }

  function CooledDown(cooldowns: map<string, int>): map<string, int> {
    map id | id in cooldowns && cooldowns[id] > 1 :: cooldowns[id] - 1
  }

  function PeriodicTick(s: State, a: nat, status: ActiveStatus): (r: State)
    requires a < |s.units| && Alive(s.units[a])
    ensures |r.units| == |s.units|
  {
    var u := s.units[a];
    match status.config.kind
    case Dot =>
      var amount := Min(status.config.potency, u.hp);
      Emitted(WithHp(s, a, u.hp - amount), DamageDealt, u.config.instanceId, u.config.instanceId, "",
              status.config.id, amount, u.hp, u.hp - amount, "dot")
    case Hot =>
      var hp := Min(u.config.maxHp, u.hp + status.config.potency);
      Emitted(WithHp(s, a, hp), Healed, u.config.instanceId, u.config.instanceId, "",
              status.config.id, hp - u.hp, u.hp, hp, "hot")
    case _ => s
  }

  function PeriodicTicks(s: State, a: nat, statuses: seq<ActiveStatus>): (r: State)
    requires a < |s.units|
    ensures |r.units| == |s.units|
    decreases |statuses|
  {
    if statuses == [] || !Alive(s.units[a]) then s
    else PeriodicTicks(PeriodicTick(s, a, statuses[0]), a, statuses[1..])
  }

  function Expired(statuses: seq<ActiveStatus>): (r: seq<ActiveStatus>)
    ensures |r| <= |statuses|
  {
    if statuses == [] then [] else
      var last, kept := statuses[|statuses| - 1], Expired(statuses[..|statuses| - 1]);
      if last.remaining - 1 > 0 then kept + [last.(remaining := last.remaining - 1)] else kept
  }

  function FirstReadySkill(skills: seq<SkillConfig>, cooldowns: map<string, int>, otherwise: SkillConfig): SkillConfig {
    if skills == [] then otherwise
    else if CooldownOf(cooldowns, skills[0].id) == 0 then skills[0]
    else FirstReadySkill(skills[1..], cooldowns, otherwise)
  }

  function ChooseSkill(u: UnitState): SkillConfig {
    if HasStatus(u.statuses, Silence) then u.config.basicSkill
    else FirstReadySkill(u.config.activeSkills, u.cooldowns, u.config.basicSkill)
  }

  function HitContext(rules: Rules, attack: int, defense: int, effect: EffectConfig): Damage.Context {
    Damage.Context(attack, defense, effect.coefficientPermille, effect.flat,
                   rules.damageVariancePermille, rules.critChancePermille, rules.critMultiplierPermille, 0, false)
  }

  function HealAmount(attack: int, effect: EffectConfig): int {
    Max(0, TruncDiv(attack * effect.coefficientPermille, 1000) + effect.flat)
  }

  function Strike(env: Env, s: State, a: nat, t: nat, skill: SkillConfig, effect: EffectConfig): (r: State)
    requires a < |s.units| && t < |s.units| && Alive(s.units[t])
    ensures |r.units| == |s.units|
  {
    var actor, target := s.units[a], s.units[t];
    var (hit, draws) :=
      Damage.Piped(env.pipeline, HitContext(env.rules, AttackOf(actor), DefenseOf(target), effect), env.dice, s.draws);
    var amount := Min(hit.amount, target.hp);
    Emitted(WithHp(s.(draws := draws), t, target.hp - amount), DamageDealt,
            actor.config.instanceId, target.config.instanceId, skill.id, "",
            amount, target.hp, target.hp - amount, if hit.critical then "critical" else "")
  }

  function Mend(s: State, a: nat, t: nat, skill: SkillConfig, effect: EffectConfig): (r: State)
    requires a < |s.units| && t < |s.units| && Alive(s.units[t])
    ensures |r.units| == |s.units|
  {
    var actor, target := s.units[a], s.units[t];
    var hp := Min(target.config.maxHp, target.hp + HealAmount(AttackOf(actor), effect));
    Emitted(WithHp(s, t, hp), Healed, actor.config.instanceId, target.config.instanceId, skill.id, "",
            hp - target.hp, target.hp, hp, "")
  }

  function ApplyEffect(env: Env, s: State, a: nat, t: nat, skill: SkillConfig, effect: EffectConfig): (r: State)
    requires a < |s.units| && t < |s.units|
    ensures |r.units| == |s.units|
  {
    var actor, target := s.units[a], s.units[t];
    if !Alive(target) then s else
      match effect.kind
      case Damage => Strike(env, s, a, t, skill, effect)
      case Heal => Mend(s, a, t, skill, effect)
      case ApplyStatus =>
        Emitted(s, StatusApplied, actor.config.instanceId, target.config.instanceId, skill.id, effect.statusId,
                0, target.hp, target.hp, "unsupported status config")
      case OtherEffect => s
  }

  function ApplyEffects(env: Env, s: State, a: nat, t: nat, skill: SkillConfig, effects: seq<EffectConfig>): (r: State)
    requires a < |s.units| && t < |s.units|
    ensures |r.units| == |s.units|
    decreases |effects|
  {
    if effects == [] then s
    else ApplyEffects(env, ApplyEffect(env, s, a, t, skill, effects[0]), a, t, skill, effects[1..])
  }

  function ApplyToTargets(env: Env, s: State, a: nat, targets: seq<nat>, skill: SkillConfig): (r: State)
    requires a < |s.units| && forall t :: t in targets ==> t < |s.units|
    ensures |r.units| == |s.units|
    decreases |targets|
  {
    if targets == [] then s else
      assert targets[0] in targets && forall t :: t in targets[1..] ==> t in targets;
      ApplyToTargets(env, ApplyEffects(env, s, a, targets[0], skill, skill.effects), a, targets[1..], skill)
  }

  function Announced(s: State, a: nat, kind: EventType, skill: string, detail: string): State
    requires a < |s.units|
  {
    Emitted(s, kind, s.units[a].config.instanceId, "", skill, "", 0, s.units[a].hp, s.units[a].hp, detail)
  }

  function CooldownsAfterUse(u: UnitState, skill: SkillConfig): map<string, int> {
    if skill.cooldown > 0 && skill.id != u.config.basicSkill.id then u.cooldowns[skill.id := skill.cooldown] else u.cooldowns
  }

  function UseSkill(env: Env, s: State, a: nat, skill: SkillConfig): State
    requires a < |s.units|
  {
    var targets := Targets(s.units, a, skill.targetRule);
    var s' := ApplyToTargets(env, Announced(s, a, SkillUsed, skill.id, ""), a, targets, skill);
    WithUnit(s', a, s'.units[a].(cooldowns := CooldownsAfterUse(s'.units[a], skill)))
  }

  function StartAction(s: State, a: nat): (r: State)
    requires a < |s.units|
    ensures |r.units| == |s.units|
  {
    var s1 := Announced(s.(action := s.action + 1), a, ActionStarted, "", "");
    var s2 := WithUnit(s1, a, s1.units[a].(cooldowns := CooledDown(s1.units[a].cooldowns)));
    PeriodicTicks(s2, a, s2.units[a].statuses)
  }

  function Act(env: Env, s: State, a: nat): (r: State)
    requires a < |s.units|
    ensures |r.units| == |s.units|
  {
    if !Alive(s.units[a]) then s
    else if HasStatus(s.units[a].statuses, Stun) then Announced(s, a, ActionSkipped, "", "stun")
    else UseSkill(env, s, a, ChooseSkill(s.units[a]))
  }

  function EndAction(env: Env, s: State, a: nat): (r: State)
    requires a < |s.units|
    ensures |r.units| == |s.units|
  {
    var u := s.units[a];
    var s' := WithUnit(s, a, u.(statuses := Expired(u.statuses), gauge := Max(0, u.gauge - env.rules.atbThreshold)));
    Announced(s', a, ActionEnded, "", "")
  }

  function Execute(env: Env, s: State, a: nat): (r: State)
    requires a < |s.units|
    ensures |r.units| == |s.units|
  {
    EndAction(env, Act(env, StartAction(s, a), a), a)
  }

  // ---- the whole battle ----

  // One iteration of the Run loop; None when no actor can be found.
  function Step(env: Env, s: State): (r: Option<State>)
    ensures r.Some? ==> |r.value.units| == |s.units|
  {
    var (jumped, actor) := NextActor(env.rules.atbThreshold, s);
    if actor.None? then None else Some(Execute(env, jumped, actor.value))
  }

  predicate Decided(s: State) {
    !OutcomeOf(s.units).NoOutcome?
  }

  // The Run loop: up to n iterations from s.
  function Loop(env: Env, s: State, n: nat): Option<State>
    decreases n
  {
    if n == 0 || Decided(s) then Some(s) else
      match Step(env, s)
      case None => None
      case Some(next) => Loop(env, next, n - 1)
  }

  // A recorded run: consecutive states of the loop.
  ghost predicate IsRun(env: Env, trace: seq<State>) {
    trace != [] && forall i :: 0 < i < |trace| ==> Steps(env, trace[i - 1], trace[i])
  }

  ghost predicate Steps(env: Env, s: State, next: State) {
    !Decided(s) && Step(env, s) == Some(next)
  }

  lemma {:induction false} RunIsLoop(env: Env, trace: seq<State>, n: nat)
    requires IsRun(env, trace) && |trace| - 1 <= n
    ensures Loop(env, trace[0], n) == Loop(env, trace[|trace| - 1], n - (|trace| - 1))
    decreases |trace|
  {
    hide Step, Decided;
    if |trace| > 1 {
      assert Steps(env, trace[0], trace[1]);
      forall i | 0 < i < |trace[1..]| ensures Steps(env, trace[1..][i - 1], trace[1..][i]) {
        assert Steps(env, trace[i + 1 - 1], trace[i + 1]);
      }
      RunIsLoop(env, trace[1..], n - 1);
    }
  }

  datatype UnitResult = UnitResult(instanceId: string, team: Team, hp: int, maxHp: int, alive: bool)

  datatype Result = Result(
    battleId: string, outcome: Outcome, tick: int, units: seq<UnitResult>, events: seq<Event>, checksum: string)

  function ResultOf(u: UnitState): UnitResult {
    UnitResult(u.config.instanceId, u.config.team, u.hp, u.config.maxHp, Alive(u))
  }

  function UnitResults(units: seq<UnitState>): (r: seq<UnitResult>)
    ensures |r| == |units|
    ensures forall i :: 0 <= i < |units| ==> r[i] == ResultOf(units[i])
  {
    seq(|units|, i requires 0 <= i < |units| => ResultOf(units[i]))
  }

  function FinalOutcome(units: seq<UnitState>): Outcome {
    if OutcomeOf(units).NoOutcome? then Draw else OutcomeOf(units)
  }

  function OutcomeDetail(outcome: Outcome): string {
    match outcome
    case NoOutcome => "outcome=0"
    case AttackerWin => "outcome=1"
    case DefenderWin => "outcome=2"
    case Draw => "outcome=3"
  }

  function Concluded(s: State): State {
    Emitted(s, BattleEnded, "", "", "", "", 0, 0, 0, OutcomeDetail(FinalOutcome(s.units)))
  }

  // The result sealed with its digest (the engine hashes its JSON form).
  function Sealed(setup: Setup, s: State, digest: Result -> string): Result {
    var result := Result(setup.battleId, FinalOutcome(s.units), s.tick, UnitResults(s.units), Concluded(s).events, "");
    result.(checksum := digest(result))
  }

  function EnvOf(setup: Setup): Env {
    Env(setup.rules, Rng.StreamOf(setup.seed), Damage.STAGES)
  }

  function Run(setup: Setup, digest: Result -> string): Option<Result>
    requires setup.rules.maxActions >= 0
  {
    match Loop(EnvOf(setup), Initial(setup), setup.rules.maxActions)
    case None => None
    case Some(s) => Some(Sealed(setup, s, digest))
  }
}
