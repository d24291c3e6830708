// Runtime inputs of one battle and their validation (engine/types.go).
module Config {
  import opened Common
  import Rng

  datatype Team = Unspecified | Attacker | Defender

  // OtherX stands for every numeric value the engine's switches do not name.
  datatype EffectKind = Damage | Heal | ApplyStatus | OtherEffect
  datatype StatusKind = Stun | Silence | Dot | Hot | AttributeChange | OtherStatus
  datatype TargetRule = Self | EnemySingle | EnemyAll | AllyLowestHp | OtherRule

  datatype AttributeModifier = AttributeModifier(attackFlat: int, defenseFlat: int, speedFlat: int)

  datatype StatusConfig = StatusConfig(
    id: string, kind: StatusKind, durationTurns: int, potency: int, modifier: AttributeModifier)

  datatype EffectConfig = EffectConfig(kind: EffectKind, coefficientPermille: int, flat: int, statusId: string)

  datatype SkillConfig = SkillConfig(id: string, cooldown: int, targetRule: TargetRule, effects: seq<EffectConfig>)

  datatype UnitConfig = UnitConfig(
    instanceId: string, team: Team, position: int, maxHp: int, attack: int, defense: int, speed: int,
    basicSkill: SkillConfig, activeSkills: seq<SkillConfig>, initialStatus: seq<StatusConfig>)

  datatype Rules = Rules(
    atbThreshold: int, maxActions: int,
    damageVariancePermille: int, critChancePermille: int, critMultiplierPermille: int)

  datatype Setup = Setup(battleId: string, seed: Rng.Word, rules: Rules, units: seq<UnitConfig>)

  datatype Invalid = Invalid(field: string, reason: string)

  // What a battle may rely on.
  ghost predicate Valid(s: Setup) {
    && s.battleId != ""
    && s.rules.atbThreshold > 0
    && s.rules.maxActions > 0
    && |s.units| >= 2
    && (forall i :: 0 <= i < |s.units| ==> WellFormed(s.units[i]))
    && DistinctIds(s.units)
    && HasTeam(s.units, Attacker)
    && HasTeam(s.units, Defender)
  }

  predicate WellFormed(u: UnitConfig) {
    u.instanceId != "" && u.team != Unspecified && u.maxHp > 0 && u.speed > 0 && u.basicSkill.id != ""
  }

  ghost predicate DistinctIds(units: seq<UnitConfig>) {
    forall i, j :: 0 <= i < j < |units| ==> units[i].instanceId != units[j].instanceId
  }

  ghost predicate HasTeam(units: seq<UnitConfig>, team: Team) {
    exists i :: 0 <= i < |units| && units[i].team == team
  }

  // The first complaint about one unit, given the IDs met before it.
  function UnitFault(u: UnitConfig, ids: set<string>): Option<Invalid> {
    if u.instanceId == "" then Some(Invalid("unit.instance_id", "required"))
    else if u.instanceId in ids then Some(Invalid("unit.instance_id", "duplicate"))
    else if u.team != Attacker && u.team != Defender then Some(Invalid("unit.team", "must be attacker or defender"))
    else if u.maxHp <= 0 || u.speed <= 0 then Some(Invalid("unit.attributes", "max hp and speed must be positive"))
    else if u.basicSkill.id == "" then Some(Invalid("unit.basic_skill", "required"))
    else None
  }

  function IdsOf(units: seq<UnitConfig>): set<string> {
    set i | 0 <= i < |units| :: units[i].instanceId
  }

  // The first complaint about the setup's own fields.
  function HeaderFault(s: Setup): Option<Invalid> {
    if s.battleId == "" then Some(Invalid("battle_id", "required"))
    else if s.rules.atbThreshold <= 0 then Some(Invalid("atb_threshold", "must be positive"))
    else if s.rules.maxActions <= 0 then Some(Invalid("max_actions", "must be positive"))
    else if |s.units| < 2 then Some(Invalid("units", "at least two units required"))
    else None
  }

  // The first n units give no cause for complaint.
  ghost predicate Faultless(units: seq<UnitConfig>, n: nat)
    requires n <= |units|
  {
    forall j :: 0 <= j < n ==> UnitFault(units[j], IdsOf(units[..j])).None?
  }

  const MISSING_TEAM := Invalid("units", "both teams required")

  // Validation answers nil exactly on valid setups. Otherwise it names the first fault: of
  // the header, else of the first unit at fault, else that a team is missing.
  method Validate(s: Setup) returns (err: Option<Invalid>)
    ensures err.None? <==> Valid(s)
    ensures HeaderFault(s).Some? ==> err == HeaderFault(s)
    ensures HeaderFault(s).None? && !Faultless(s.units, |s.units|) ==>
              exists i :: 0 <= i < |s.units| && Faultless(s.units, i)
                          && err == UnitFault(s.units[i], IdsOf(s.units[..i])) && err.Some?
    ensures HeaderFault(s).None? && Faultless(s.units, |s.units|) ==>
              err == if HasTeam(s.units, Attacker) && HasTeam(s.units, Defender) then None else Some(MISSING_TEAM)
  {
    if s.battleId == "" {
      return Some(Invalid("battle_id", "required"));
    }
    if s.rules.atbThreshold <= 0 {
      return Some(Invalid("atb_threshold", "must be positive"));
    }
    if s.rules.maxActions <= 0 {
      return Some(Invalid("max_actions", "must be positive"));
    }
    if |s.units| < 2 {
      return Some(Invalid("units", "at least two units required"));
    }
    hide HasTeam, IdsOf, Faultless, DistinctIds, WellFormed;
    var teams: set<Team> := {};
    var ids: set<string> := {};
    EmptyPrefix(s.units);
    for n := 0 to |s.units|
      invariant ids == IdsOf(s.units[..n])
      invariant forall t :: t in teams <==> HasTeam(s.units[..n], t)
      invariant Faultless(s.units, n)
    {
      var unit := s.units[n];
      FirstFault(s, n);
      if unit.instanceId == "" {
        return Some(Invalid("unit.instance_id", "required"));
      }
      if unit.instanceId in ids {
        return Some(Invalid("unit.instance_id", "duplicate"));
      }
      ids := ids + {unit.instanceId};
      if unit.team != Attacker && unit.team != Defender {
        return Some(Invalid("unit.team", "must be attacker or defender"));
      }
      GrowPrefix(s.units, n);
      teams := teams + {unit.team};
      if unit.maxHp <= 0 || unit.speed <= 0 {
        return Some(Invalid("unit.attributes", "max hp and speed must be positive"));
      }
      if unit.basicSkill.id == "" {
        return Some(Invalid("unit.basic_skill", "required"));
      }
    }
    assert s.units[..|s.units|] == s.units;
    FaultlessIsWellFormed(s.units);
    if Attacker !in teams || Defender !in teams {
      return Some(MISSING_TEAM);
    }
    return None;
  }

  lemma EmptyPrefix(units: seq<UnitConfig>)
    ensures IdsOf(units[..0]) == {} && Faultless(units, 0)
    ensures forall t :: !HasTeam(units[..0], t)
  {
  }

  // What the n-th unit's fault, or its absence, means for the whole setup.
  lemma FirstFault(s: Setup, n: nat)
    requires n < |s.units| && Faultless(s.units, n)
    ensures var fault := UnitFault(s.units[n], IdsOf(s.units[..n]));
            && (fault.Some? ==> !Faultless(s.units, |s.units|) && !Valid(s))
            && (fault.None? ==> Faultless(s.units, n + 1))
  {
    if UnitFault(s.units[n], IdsOf(s.units[..n])).Some? && s.units[n].instanceId in IdsOf(s.units[..n]) {
      var i :| 0 <= i < n && s.units[..n][i].instanceId == s.units[n].instanceId;
      assert s.units[i].instanceId == s.units[n].instanceId;
    }
  }

  lemma FaultlessIsWellFormed(units: seq<UnitConfig>)
    requires Faultless(units, |units|)
    ensures DistinctIds(units) && forall i :: 0 <= i < |units| ==> WellFormed(units[i])
  {
    forall i, j | 0 <= i < j < |units| ensures units[i].instanceId != units[j].instanceId {
      assert UnitFault(units[j], IdsOf(units[..j])).None?;
      assert units[..j][i].instanceId in IdsOf(units[..j]);
    }
    forall i | 0 <= i < |units| ensures WellFormed(units[i]) {
      assert UnitFault(units[i], IdsOf(units[..i])).None?;
    }
  }

  lemma GrowPrefix(units: seq<UnitConfig>, n: nat)
    requires n < |units|
    ensures IdsOf(units[..n + 1]) == IdsOf(units[..n]) + {units[n].instanceId}
    ensures forall t :: HasTeam(units[..n + 1], t) <==> HasTeam(units[..n], t) || t == units[n].team
  {
    var now, next := units[..n], units[..n + 1];
    assert next == now + [units[n]];
    forall id | id in IdsOf(now) ensures id in IdsOf(next) {
      var i :| 0 <= i < |now| && now[i].instanceId == id;
      assert next[i] == now[i];
    }
    assert next[n] == units[n];
    forall t | HasTeam(now, t) ensures HasTeam(next, t) {
      var i :| 0 <= i < |now| && now[i].team == t;
      assert next[i] == now[i];
    }
  }
}
