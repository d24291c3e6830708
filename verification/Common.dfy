// Vocabulary shared by every component.
module Common {
  datatype Option<+T> = None | Some(value: T)

  function Max(a: int, b: int): int {
    if a > b then a else b
  }

  function Min(a: int, b: int): int {
    if a < b then a else b
  }

  // Go's integer division by a positive divisor truncates toward zero.
  function TruncDiv(a: int, d: int): int
    requires d > 0
  {
    if a >= 0 then a / d else -((-a) / d)
  }

  // Go's < on strings: lexicographic (Dafny's < on sequences is "proper prefix").
  predicate StringLess(a: string, b: string) {
    if b == "" then false
    else if a == "" then true
    else if a[0] != b[0] then a[0] < b[0]
    else StringLess(a[1..], b[1..])
  }

  lemma {:induction false} StringLessIsStrictTotal(a: string, b: string, c: string)
    ensures !StringLess(a, a)
    ensures StringLess(a, b) ==> !StringLess(b, a)
    ensures a != b ==> StringLess(a, b) || StringLess(b, a)
    ensures StringLess(a, b) && StringLess(b, c) ==> StringLess(a, c)
    decreases |a| + |b| + |c|
  {
    if a != "" {
      var b' := if b == "" then "" else b[1..];
      var c' := if c == "" then "" else c[1..];
      StringLessIsStrictTotal(a[1..], b', c');
      if b != "" {
        assert a == [a[0]] + a[1..] && b == [b[0]] + b[1..];
      }
    }
  }

  // The same, spelled out: b goes on where a ends, or is larger at the first difference.
  ghost predicate Alphabetical(a: string, b: string) {
    exists k: nat :: DiffersAt(a, b, k)
  }

  predicate DiffersAt(a: string, b: string, k: nat) {
    k < |b| && k <= |a| && a[..k] == b[..k] && (k == |a| || a[k] < b[k])
  }

  lemma SameStart(a: string, b: string, k: nat)
    requires DiffersAt(a, b, k)
    ensures k > 0 ==> a[0] == b[0]
  {
    if k > 0 {
      assert a[..k][0] == b[..k][0];
    }
  }

  lemma {:induction false} StringLessIsAlphabetical(a: string, b: string)
    ensures StringLess(a, b) <==> Alphabetical(a, b)
    decreases |a|
  {
    if b != "" && a == "" {
      assert DiffersAt(a, b, 0);
    } else if b != "" && a[0] != b[0] {
      if a[0] < b[0] {
        assert DiffersAt(a, b, 0);
      }
      if k: nat :| DiffersAt(a, b, k) {
        SameStart(a, b, k);
      }
    } else if b != "" {
      StringLessIsAlphabetical(a[1..], b[1..]);
      if k: nat :| DiffersAt(a[1..], b[1..], k) {
        assert a[..k + 1] == [a[0]] + a[1..][..k] && b[..k + 1] == [b[0]] + b[1..][..k];
        assert DiffersAt(a, b, k + 1);
      }
      if k: nat :| DiffersAt(a, b, k) {
        assert k > 0;
        assert a[1..][..k - 1] == a[..k][1..] && b[1..][..k - 1] == b[..k][1..];
        assert DiffersAt(a[1..], b[1..], k - 1);
      }
    }
  }

  // An order in which a loop over a map can come by all its keys.
  ghost predicate Visits<T>(order: seq<T>, keys: set<T>) {
    forall k :: k in keys ==> k in order
  }

  lemma SomeMember<T>(keys: set<T>) returns (k: T)
    requires keys != {}
    ensures k in keys
  {
    k :| k in keys;
  }

  lemma TruncDivMonotone(a: int, b: int, d: int)
    requires d > 0 && a <= b
    ensures TruncDiv(a, d) <= TruncDiv(b, d)
  {
    if a >= 0 {
      DivMonotone(a, b, d);
    } else if b < 0 {
      DivMonotone(-b, -a, d);
    } else {
      DivMonotone(0, -a, d);
      DivMonotone(0, b, d);
    }
  }

  lemma DivMonotone(a: int, b: int, d: int)
    requires d > 0 && 0 <= a <= b
    ensures 0 <= a / d <= b / d
  {
    assert a == a / d * d + a % d && b == b / d * d + b % d;
    if b / d < a / d {
      MulMonotone(b / d + 1, a / d, d);
    } else if a / d < 0 {
      MulMonotone(a / d, -1, d);
    }
  }

  lemma MulMonotone(a: int, b: int, m: int)
    requires a <= b && 0 <= m
    ensures a * m <= b * m
  {
    assert (b - a) * m >= 0;
  }
}
