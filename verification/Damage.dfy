// The five-stage damage pipeline (engine/damage.go). Amounts are unbounded integers.
module Damage {
  import opened Common
  import opened Rng

  datatype Context = Context(
    attack: int, defense: int, coefficientPermille: int, flat: int,
    variancePermille: int, critChancePermille: int, critMultiplierPermille: int,
    amount: int, critical: bool)

  datatype Stage = Base | Scale | Variance | Critical | Floor

  const STAGES: seq<Stage> := [Base, Scale, Variance, Critical, Floor]

  // What each stage computes, and how many words it draws.
  function Draws(stage: Stage, c: Context): nat {
    match stage
    case Variance => if c.variancePermille > 0 then 1 else 0
    case Critical => if c.critChancePermille > 0 then 1 else 0
    case _ => 0
  }

  function Applied(stage: Stage, c: Context, word: Word): Context {
    match stage
    case Base => c.(amount := Max(1, c.attack - c.defense))
    case Scale => c.(amount := TruncDiv(c.amount * c.coefficientPermille, 1000) + c.flat)
    case Variance =>
      if c.variancePermille > 0
      then c.(amount := TruncDiv(c.amount * (1000 + Offset(word, c.variancePermille)), 1000))
      else c
    case Critical =>
      if c.critChancePermille > 0 && word % 1000 < c.critChancePermille
      then c.(critical := true, amount := TruncDiv(c.amount * c.critMultiplierPermille, 1000))
      else c
    case Floor => c.(amount := Max(1, c.amount))
  }

  function Offset(word: Word, variance: int): int
    requires variance > 0
  {
    word % (variance * 2 + 1) - variance
  }

  // The stages in order; `draws` words have been taken from the dice before.
  function Piped(stages: seq<Stage>, c: Context, dice: Dice, draws: nat): (Context, nat)
    decreases |stages|
  {
    if stages == [] then (c, draws)
    else Piped(stages[1..], Applied(stages[0], c, dice(draws)), dice, draws + Draws(stages[0], c))
  }

  method Apply(stage: Stage, c: Context, rng: RNG, ghost dice: Dice) returns (r: Context)
    requires rng.Valid() && Streams(dice, rng.seed)
    modifies rng
    ensures rng.Valid()
    ensures r == Applied(stage, c, dice(old(rng.draws)))
    ensures rng.draws == old(rng.draws) + Draws(stage, c)
  {
    match stage
    case Base => r := ApplyBase(c);
    case Scale => r := c.(amount := TruncDiv(c.amount * c.coefficientPermille, 1000) + c.flat);
    case Variance => r := ApplyVariance(c, rng, dice);
    case Critical => r := ApplyCritical(c, rng, dice);
    case Floor => r := if c.amount < 1 then c.(amount := 1) else c;
  }

  method ApplyBase(c: Context) returns (r: Context)
    ensures r == c.(amount := Max(1, c.attack - c.defense))
  {
    r := c.(amount := c.attack - c.defense);
    if r.amount < 1 {
      r := r.(amount := 1);
    }
  }

  method ApplyVariance(c: Context, rng: RNG, ghost dice: Dice) returns (r: Context)
    requires rng.Valid() && Streams(dice, rng.seed)
    modifies rng
    ensures rng.Valid()
    ensures r == Applied(Variance, c, dice(old(rng.draws)))
    ensures rng.draws == old(rng.draws) + Draws(Variance, c)
  {
    hide Output;
    r := c;
    if c.variancePermille > 0 {
      var span := c.variancePermille * 2 + 1;
      var word := rng.Uint64();
      assert word == dice(old(rng.draws));
      var offset := word % span - c.variancePermille;
      assert offset == Offset(word, c.variancePermille);
      hide Offset;
      r := r.(amount := TruncDiv(c.amount * (1000 + offset), 1000));
    }
  }

  method ApplyCritical(c: Context, rng: RNG, ghost dice: Dice) returns (r: Context)
    requires rng.Valid() && Streams(dice, rng.seed)
    modifies rng
    ensures rng.Valid()
    ensures r == Applied(Critical, c, dice(old(rng.draws)))
    ensures rng.draws == old(rng.draws) + Draws(Critical, c)
  {
    r := c;
    if c.critChancePermille > 0 {
      var roll := rng.Permille();
      if roll < c.critChancePermille {
        r := r.(critical := true, amount := TruncDiv(c.amount * c.critMultiplierPermille, 1000));
      }
    }
  }

  method Calculate(stages: seq<Stage>, c: Context, rng: RNG, ghost dice: Dice) returns (r: Context)
    requires rng.Valid() && Streams(dice, rng.seed)
    modifies rng
    ensures rng.Valid()
    ensures (r, rng.draws) == Piped(stages, c, dice, old(rng.draws))
  {
    hide Applied, Draws, Streams, Output, Piped;
    r := c;
    for n := 0 to |stages|
      invariant rng.Valid()
      invariant Piped(stages[n..], r, dice, rng.draws) == Piped(stages, c, dice, old(rng.draws))
    {
      assert stages[n..] == [stages[n]] + stages[n + 1..];
      PipedStep(stages[n], stages[n + 1..], r, dice, rng.draws);
      r := Apply(stages[n], r, rng, dice);
    }
    PipedNothing(r, dice, rng.draws);
    assert stages[|stages|..] == [];
  }

  lemma PipedNothing(c: Context, dice: Dice, draws: nat)
    ensures Piped([], c, dice, draws) == (c, draws)
  {
  }

  // ---- closed form, as a function of the words the two rolls would draw ----

  function Scaled(c: Context): int {
    TruncDiv(Max(1, c.attack - c.defense) * c.coefficientPermille, 1000) + c.flat
  }

  function Rolled(c: Context, word: Word): int {
    if c.variancePermille > 0
    then TruncDiv(Scaled(c) * (1000 + Offset(word, c.variancePermille)), 1000)
    else Scaled(c)
  }

  predicate Crits(c: Context, word: Word) {
    c.critChancePermille > 0 && word % 1000 < c.critChancePermille
  }

  // The amount dealt, when the variance roll draws `roll` and the critical roll draws `crit`.
  function Dealt(c: Context, roll: Word, crit: Word): (amount: int)
    ensures amount >= 1
  {
    Max(1, if Crits(c, crit) then TruncDiv(Rolled(c, roll) * c.critMultiplierPermille, 1000) else Rolled(c, roll))
  }

  // What a hit does, and the number of words drawn when it is over.
  function Resolve(c: Context, dice: Dice, draws: nat): (Context, nat) {
    var roll, crit := dice(draws), dice(draws + Draws(Variance, c));
    (c.(amount := Dealt(c, roll, crit), critical := c.critical || Crits(c, crit)),
     draws + Draws(Variance, c) + Draws(Critical, c))
  }

  // The stage loop computes the closed form: at least one hit point for every configuration,
  // drawing exactly [variance > 0] + [crit > 0] words whatever the combatants' stats are.
  lemma PipelineIsClosedForm(stages: seq<Stage>, c: Context, dice: Dice, draws: nat)
    requires stages == STAGES
    ensures Piped(stages, c, dice, draws) == Resolve(c, dice, draws)
  {
    hide Piped, Dealt, Scaled;
    var roll, crit := dice(draws), dice(draws + Draws(Variance, c));
    var c2 := c.(amount := Scaled(c));
    StagesCompose(c, roll, crit);
    var tail: seq<Stage> := [Variance] + ([Critical] + ([Floor] + []));
    assert stages == [Base] + ([Scale] + tail);
    hide Piped;
    PipedStep(Base, [Scale] + tail, c, dice, draws);
    PipedStep(Scale, tail, Applied(Base, c, roll), dice, draws);
    PipedTail(c2, dice, draws);
  }

  lemma PipedTail(c: Context, dice: Dice, draws: nat)
    ensures Piped([Variance] + ([Critical] + ([Floor] + [])), c, dice, draws)
         == (var crit := dice(draws + Draws(Variance, c));
             Applied(Floor, Applied(Critical, Applied(Variance, c, dice(draws)), crit), crit),
             draws + Draws(Variance, c) + Draws(Critical, c))
  {
    var mid := draws + Draws(Variance, c);
    var c1 := Applied(Variance, c, dice(draws));
    PipedStep(Variance, [Critical] + ([Floor] + []), c, dice, draws);
    PipedStep(Critical, [Floor] + [], c1, dice, mid);
    PipedStep(Floor, [], Applied(Critical, c1, dice(mid)), dice, mid + Draws(Critical, c));
  }

  lemma PipedStep(stage: Stage, rest: seq<Stage>, c: Context, dice: Dice, draws: nat)
    ensures Piped([stage] + rest, c, dice, draws)
         == Piped(rest, Applied(stage, c, dice(draws)), dice, draws + Draws(stage, c))
  {
  }

  lemma StagesCompose(c: Context, roll: Word, crit: Word)
    ensures Applied(Scale, Applied(Base, c, roll), roll) == c.(amount := Scaled(c))
    ensures var c2 := c.(amount := Scaled(c));
            Applied(Floor, Applied(Critical, Applied(Variance, c2, roll), crit), crit)
              == c.(amount := Dealt(c, roll, crit), critical := c.critical || Crits(c, crit))
  {
  }

  // Bounds of the roll: the truncated low roll and the truncated high roll, each
  // scaled by the multiplier exactly when the hit is critical.
  lemma DamageBounds(c: Context, roll: Word, crit: Word)
    requires c.coefficientPermille >= 0 && c.flat >= 0 && c.critMultiplierPermille >= 0
    requires 0 <= c.variancePermille <= 1000
    ensures var low := TruncDiv(Scaled(c) * (1000 - c.variancePermille), 1000);
            var high := TruncDiv(Scaled(c) * (1000 + c.variancePermille), 1000);
            var amount := Dealt(c, roll, crit);
            && 0 <= low <= high
            && (!Crits(c, crit) ==> Max(1, low) <= amount <= Max(1, high))
            && (Crits(c, crit) ==>
                  Max(1, TruncDiv(low * c.critMultiplierPermille, 1000)) <= amount
                    <= Max(1, TruncDiv(high * c.critMultiplierPermille, 1000)))
  {
    var v, s := c.variancePermille, Scaled(c);
    ScaledIsNonNegative(c);
    var rolled := Rolled(c, roll);
    var low, high := TruncDiv(s * (1000 - v), 1000), TruncDiv(s * (1000 + v), 1000);
    if v > 0 {
      var offset := Offset(roll, v);
      RollMonotone(s, 1000 - v, 1000 + offset);
      RollMonotone(s, 1000 + offset, 1000 + v);
    } else {
      assert s * 1000 / 1000 == s;
    }
    RollMonotone(s, 0, 1000 - v);
    RollMonotone(c.critMultiplierPermille, low, rolled);
    RollMonotone(c.critMultiplierPermille, rolled, high);
  }

  lemma ScaledIsNonNegative(c: Context)
    requires c.coefficientPermille >= 0 && c.flat >= 0
    ensures Scaled(c) >= 0
  {
    MulMonotone(0, Max(1, c.attack - c.defense), c.coefficientPermille);
  }

  lemma RollMonotone(s: int, a: int, b: int)
    requires s >= 0 && a <= b
    ensures TruncDiv(s * a, 1000) <= TruncDiv(s * b, 1000)
    ensures TruncDiv(a * s, 1000) <= TruncDiv(b * s, 1000)
  {
    MulMonotone(a, b, s);
    assert s * a == a * s && s * b == b * s;
    TruncDivMonotone(a * s, b * s, 1000);
  }

  // For the same RNG state, more attack never hurts less and more defense never hurts more;
  // the critical flag and the number of words drawn do not depend on the stats at all.
  lemma DamageMonotone(c: Context, d: Context, dice: Dice, draws: nat)
    requires c.coefficientPermille >= 0 && c.critMultiplierPermille >= 0 && c.variancePermille <= 1000
    requires d == c.(attack := d.attack, defense := d.defense)
    requires c.attack <= d.attack && d.defense <= c.defense
    ensures Resolve(c, dice, draws).0.amount <= Resolve(d, dice, draws).0.amount
    ensures Resolve(c, dice, draws).0.critical == Resolve(d, dice, draws).0.critical
    ensures Resolve(c, dice, draws).1 == Resolve(d, dice, draws).1
  {
    DealtMonotone(c, d, dice(draws), dice(draws + Draws(Variance, c)));
  }

  lemma DealtMonotone(c: Context, d: Context, roll: Word, crit: Word)
    requires c.coefficientPermille >= 0 && c.critMultiplierPermille >= 0 && c.variancePermille <= 1000
    requires d == c.(attack := d.attack, defense := d.defense)
    requires c.attack <= d.attack && d.defense <= c.defense
    ensures Dealt(c, roll, crit) <= Dealt(d, roll, crit)
  {
    RollMonotone(c.coefficientPermille, Max(1, c.attack - c.defense), Max(1, d.attack - d.defense));
    if c.variancePermille > 0 {
      RollMonotone(1000 + Offset(roll, c.variancePermille), Scaled(c), Scaled(d));
    }
    RollMonotone(c.critMultiplierPermille, Rolled(c, roll), Rolled(d, roll));
  }

  // ---- exactly when damage is monotone ----

  // Validation bounds neither coefficient, variance nor multiplier. A hit multiplies its base
  // three times: by the coefficient, by the variance roll and by the critical multiplier.
  function RollFactor(c: Context, roll: Word): int {
    if c.variancePermille > 0 then 1000 + Offset(roll, c.variancePermille) else 1000
  }

  function CritFactor(c: Context, crit: Word): int {
    if Crits(c, crit) then c.critMultiplierPermille else 1000
  }

  function Sign(x: int): int {
    if x > 0 then 1 else if x == 0 then 0 else -1
  }

  predicate Rising(coefficient: int, rollFactor: int, critFactor: int) {
    Sign(coefficient) * Sign(rollFactor) * Sign(critFactor) >= 0
  }

  function Permille(x: int, factor: int): int {
    TruncDiv(x * factor, 1000)
  }

  // The amount before the floor, for a base of `base` hit points.
  function Unfloored(c: Context, base: int, rollFactor: int, critFactor: int): int {
    Permille(Permille(Permille(base, c.coefficientPermille) + c.flat, rollFactor), critFactor)
  }

  // The weakest hit: the base that armour reduced to a single point.
  function WeakestHit(c: Context, rollFactor: int, critFactor: int): int {
    Max(1, Unfloored(c, 1, rollFactor, critFactor))
  }

  function Hit(c: Context, attack: int, defense: int, roll: Word, crit: Word): int {
    Dealt(c.(attack := attack, defense := defense), roll, crit)
  }

  // For one state of the generator: more attack and less defense never deal less.
  ghost predicate Monotone(c: Context, roll: Word, crit: Word) {
    forall a, d, b, e :: a <= b && e <= d ==> Hit(c, a, d, roll, crit) <= Hit(c, b, e, roll, crit)
  }

  predicate Safe(c: Context, rollFactor: int, critFactor: int) {
    Rising(c.coefficientPermille, rollFactor, critFactor) || WeakestHit(c, rollFactor, critFactor) == 1
  }

  lemma HitIs(c: Context, attack: int, defense: int, roll: Word, crit: Word)
    ensures Hit(c, attack, defense, roll, crit)
         == Max(1, Unfloored(c, Max(1, attack - defense), RollFactor(c, roll), CritFactor(c, crit)))
  {
    PermilleOfThousand(Scaled(c.(attack := attack, defense := defense)));
    PermilleOfThousand(Rolled(c.(attack := attack, defense := defense), roll));
  }

  lemma PermilleOfThousand(x: int)
    ensures Permille(x, 1000) == x
  {
  }

  // Scaling by a factor keeps, reverses or forgets the order, by the factor's sign.
  lemma PermilleOrder(x: int, y: int, factor: int)
    requires x <= y
    ensures factor >= 0 ==> Permille(x, factor) <= Permille(y, factor)
    ensures factor <= 0 ==> Permille(y, factor) <= Permille(x, factor)
  {
    if factor >= 0 {
      MulMonotone(x, y, factor);
      TruncDivMonotone(x * factor, y * factor, 1000);
    }
    if factor <= 0 {
      MulMonotone(x, y, -factor);
      assert x * factor == -(x * -factor) && y * factor == -(y * -factor);
      TruncDivMonotone(y * factor, x * factor, 1000);
    }
  }

  lemma UnflooredOrder(c: Context, x: int, y: int, r: int, m: int)
    requires x <= y
    ensures Rising(c.coefficientPermille, r, m) ==> Unfloored(c, x, r, m) <= Unfloored(c, y, r, m)
    ensures Sign(c.coefficientPermille) * Sign(r) * Sign(m) <= 0 ==> Unfloored(c, y, r, m) <= Unfloored(c, x, r, m)
  {
    hide Permille;
    var k := c.coefficientPermille;
    PermilleOrder(x, y, k);
    var x1, y1 := Permille(x, k) + c.flat, Permille(y, k) + c.flat;
    PermilleOrder(Min(x1, y1), Max(x1, y1), r);
    var x2, y2 := Permille(x1, r), Permille(y1, r);
    PermilleOrder(Min(x2, y2), Max(x2, y2), m);
  }

  // A falling hit reaches the floor once the base outgrows the flat part.
  lemma FallsToTheFloor(c: Context, r: int, m: int)
    requires !Rising(c.coefficientPermille, r, m)
    ensures Unfloored(c, 1000 * (Max(c.flat, -c.flat) + 1), r, m) <= 0
  {
    var k, base := c.coefficientPermille, 1000 * (Max(c.flat, -c.flat) + 1);
    PermilleReaches(Max(c.flat, -c.flat) + 1, k);
    var x1 := Permille(base, k) + c.flat;
    assert Sign(x1) == Sign(k);
    hide Permille;
    PermilleSign(x1, r);
    PermilleSign(Permille(x1, r), m);
  }

  lemma PermilleReaches(n: int, factor: int)
    requires n >= 0
    ensures factor >= 1 ==> Permille(1000 * n, factor) >= n
    ensures factor <= -1 ==> Permille(1000 * n, factor) <= -n
  {
    hide Permille;
    PermilleOfUnit(n);
    if factor >= 1 {
      PermilleOrderInFactor(1000 * n, 1, factor);
    } else if factor <= -1 {
      PermilleOrderInFactor(1000 * n, factor, -1);
    }
  }

  lemma PermilleOfUnit(n: int)
    requires n >= 0
    ensures Permille(1000 * n, 1) == n && Permille(1000 * n, -1) == -n
  {
  }

  lemma PermilleOrderInFactor(x: nat, f: int, g: int)
    requires f <= g
    ensures Permille(x, f) <= Permille(x, g)
  {
    RollMonotone(x, f, g);
  }

  // Truncation may lose the value, never turn its sign.
  lemma PermilleSign(x: int, factor: int)
    ensures Sign(x) * Sign(factor) >= 0 ==> Permille(x, factor) >= 0
    ensures Sign(x) * Sign(factor) <= 0 ==> Permille(x, factor) <= 0
  {
    PermilleOrder(Min(x, 0), Max(x, 0), factor);
    assert Permille(0, factor) == 0;
  }

  // For every configuration and every state of the generator: damage is monotone in attack
  // and defense if and only if the three factors do not turn it round, or even the weakest
  // hit is floored to one.
  lemma MonotoneExactlyWhenSafe(c: Context, roll: Word, crit: Word)
    ensures Monotone(c, roll, crit) <==> Safe(c, RollFactor(c, roll), CritFactor(c, crit))
  {
    hide Hit, Unfloored, RollFactor, CritFactor, Sign;
    var r, m := RollFactor(c, roll), CritFactor(c, crit);
    if Safe(c, r, m) {
      forall a, d, b, e | a <= b && e <= d ensures Hit(c, a, d, roll, crit) <= Hit(c, b, e, roll, crit) {
        HitIs(c, a, d, roll, crit);
        HitIs(c, b, e, roll, crit);
        UnflooredOrder(c, 1, Max(1, a - d), r, m);
        UnflooredOrder(c, Max(1, a - d), Max(1, b - e), r, m);
      }
    } else {
      var gap := 1000 * (Max(c.flat, -c.flat) + 1);
      FallsToTheFloor(c, r, m);
      HitIs(c, 1, 0, roll, crit);
      HitIs(c, gap, 0, roll, crit);
      assert Hit(c, gap, 0, roll, crit) < Hit(c, 1, 0, roll, crit);
    }
  }

  // ---- the same for a configuration, whatever the dice ----

  // The variance offsets some word rolls: all of -v..v, unless the span exceeds 2^64.
  predicate Rollable(c: Context, offset: int) {
    if c.variancePermille > 0 then -c.variancePermille <= offset <= c.variancePermille && offset + c.variancePermille < WORD
    else offset == 0
  }

  // A critical hit needs a positive chance, an ordinary one a chance below certainty.
  predicate Possible(c: Context, critical: bool) {
    if critical then c.critChancePermille > 0 else c.critChancePermille < 1000
  }

  // A check over the finitely many factors a configuration allows.
  predicate SafeForAllDice(c: Context) {
    forall offset | -Max(0, c.variancePermille) <= offset <= Max(0, c.variancePermille) ::
      Rollable(c, offset) ==>
        && (Possible(c, true) ==> Safe(c, 1000 + offset, c.critMultiplierPermille))
        && (Possible(c, false) ==> Safe(c, 1000 + offset, 1000))
  }

  lemma WordOf(c: Context, offset: int, critical: bool) returns (roll: Word, crit: Word)
    requires Rollable(c, offset) && Possible(c, critical)
    ensures RollFactor(c, roll) == 1000 + offset
    ensures Crits(c, crit) == critical
  {
    roll := if c.variancePermille > 0 then offset + c.variancePermille else 0;
    crit := if critical then 0 else 999;
    if c.variancePermille > 0 {
      assert roll % (c.variancePermille * 2 + 1) == roll;
    }
  }

  lemma FactorsOf(c: Context, roll: Word, crit: Word)
    ensures Rollable(c, RollFactor(c, roll) - 1000) && Possible(c, Crits(c, crit))
    ensures CritFactor(c, crit) == if Crits(c, crit) then c.critMultiplierPermille else 1000
  {
    if c.variancePermille > 0 {
      RemainderIsSmall(roll, c.variancePermille * 2 + 1);
    }
  }

  lemma RemainderIsSmall(a: nat, n: nat)
    requires n > 0
    ensures 0 <= a % n < n && a % n <= a
  {
  }

  // A configuration's damage is monotone under all dice if and only if every factor it can
  // roll is safe.
  lemma MonotoneForAllDice(c: Context)
    ensures (forall roll: Word, crit: Word :: Monotone(c, roll, crit)) <==> SafeForAllDice(c)
  {
    hide Monotone, Safe, RollFactor, CritFactor, Crits;
    if SafeForAllDice(c) {
      forall roll: Word, crit: Word ensures Monotone(c, roll, crit) {
        MonotoneExactlyWhenSafe(c, roll, crit);
        FactorsOf(c, roll, crit);
        assert Rollable(c, RollFactor(c, roll) - 1000);
      }
    }
    if forall roll: Word, crit: Word :: Monotone(c, roll, crit) {
      forall offset, critical | Rollable(c, offset) && Possible(c, critical)
        ensures Safe(c, 1000 + offset, if critical then c.critMultiplierPermille else 1000)
      {
        var roll, crit := WordOf(c, offset, critical);
        MonotoneExactlyWhenSafe(c, roll, crit);
        FactorsOf(c, roll, crit);
      }
    }
  }
}
