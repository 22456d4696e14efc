// What the rank-major qualifier order does to the knockout draw
// (backend/internal/fixtures/groupknockout.go, lines 13-18 and 77-80).

module QualifierDraw {
  import opened FixtureModels
  import opened SeedSlots
  import opened Knockout
  import opened Groups

  /** How many qualifiers g groups send, q each. */
  function FieldOf(g: nat, q: nat): nat { q * g }

  /** Seed of the rank-th (1-based) qualifier of group k (0-based). */
  function SeedOf(g: nat, k: int, rank: int): int {
    (rank - 1) * g + k + 1
  }

  /** The qualifier list holds the rank-th of group k at his seed. */
  lemma SeedOfRank(g: nat, q: nat, k: nat, rank: nat)
    requires k < g && 1 <= rank <= q
    ensures 1 <= SeedOf(g, k, rank) <= FieldOf(g, q)
    ensures Qualifiers(g, FieldOf(g, q))[SeedOf(g, k, rank) - 1] == Qualifier(GroupLabel(k), rank)
  {
    QualifierIs(g, rank - 1, k);
    assert (rank - 1) * g + g == rank * g;
    MulAtLeast(q, rank, g);
  }

  ghost predicate SameGroup(g: nat, a: int, b: int)
    requires g > 0
  {
    (a - 1) % g == (b - 1) % g
  }

  /** Seeds a and 2^m + 1 - a both qualified, so they are drawn together in round one. */
  ghost predicate DrawnTogether(q: nat, m: nat, a: int, b: int) {
    1 <= a < b <= q && a + b == Pow2(m) + 1
  }

  /** Round one repeats a group game for seed a. */
  ghost predicate Rematch(g: nat, q: nat, m: nat, a: int)
    requires g > 0
  {
    DrawnTogether(g * q, m, a, Pow2(m) + 1 - a) && SameGroup(g, a, Pow2(m) + 1 - a)
  }

  // ---- same-group rematches in round one ----

  lemma SameGroupGap(g: nat, a: int, b: int) returns (k: int)
    requires g > 0 && a < b && SameGroup(g, a, b)
    ensures k >= 1 && b - a == k * g
  {
    var x, y := (a - 1) / g, (b - 1) / g;
    k := y - x;
    assert a - 1 == g * x + (a - 1) % g && b - 1 == g * y + (b - 1) % g;
    assert b - a == k * g;
    if k <= 0 {}
  }

  lemma GapIsSameGroup(g: nat, a: int, k: nat)
    requires g > 0 && a >= 1
    ensures SameGroup(g, a, a + k * g)
  {
    var x, r := (a - 1) / g, (a - 1) % g;
    assert a - 1 == x * g + r;
    assert a + k * g - 1 == (x + k) * g + r;
    DivMod(x, g, r);
    DivMod(x + k, g, r);
  }

  lemma OddGap(m: nat, k: int, g: nat, a: int)
    requires m >= 1 && Pow2(m) + 1 - 2 * a == k * g
    ensures k % 2 == 1 && g % 2 == 1
  {
    assert Pow2(m) == 2 * Pow2(m - 1);
    if k % 2 == 0 || g % 2 == 0 { EvenProduct(k, g); }
  }

  lemma EvenProduct(k: int, g: nat)
    requires k % 2 == 0 || g % 2 == 0
    ensures (k * g) % 2 == 0
  {
    if k % 2 == 0 {
      assert k * g == 2 * ((k / 2) * g);
    } else {
      assert k * g == 2 * (k * (g / 2));
    }
  }

  /** A rematch means the two seeds are an odd multiple of g apart, within what the field leaves room for. */
  lemma RematchGap(g: nat, q: nat, m: nat, a: int) returns (k: int)
    requires g > 0 && m >= 1 && Rematch(g, q, m, a)
    ensures k >= 1 && k % 2 == 1 && g % 2 == 1
    ensures Pow2(m) + 1 - 2 * a == k * g <= 2 * (g * q) - Pow2(m) - 1
  {
    k := SameGroupGap(g, a, Pow2(m) + 1 - a);
    OddGap(m, k, g, a);
  }

  /** Conversely every odd multiple of an odd g that fits is a rematch. */
  lemma GapIsRematch(g: nat, q: nat, m: nat, k: nat) returns (a: int)
    requires m >= 1 && Fits(g * q, m) && g % 2 == 1 && k % 2 == 1
    requires k * g <= 2 * (g * q) - Pow2(m) - 1
    ensures Pow2(m) + 1 - 2 * a == k * g && Rematch(g, q, m, a)
  {
    var kh, gh := k / 2, g / 2;
    assert k * g == 2 * (kh * g) + g;
    assert Pow2(m) == 2 * Pow2(m - 1);
    a := Pow2(m - 1) - kh * g - gh;
    GapIsSameGroup(g, a, k);
  }

  /** Round one is free of same-group rematches exactly when the group count is even,
      or odd and larger than the part of the field that plays in round one leaves room for. */
  lemma NoRematchIff(g: nat, q: nat, m: nat)
    requires g >= 2 && Fits(g * q, m)
    ensures (forall a :: !Rematch(g, q, m, a)) <==> g % 2 == 0 || 2 * (g * q) - Pow2(m) - 1 < g
  {
    forall a ensures Rematch(g, q, m, a) ==> g % 2 == 1 && g <= 2 * (g * q) - Pow2(m) - 1 {
      if Rematch(g, q, m, a) {
        var k := RematchGap(g, q, m, a);
        MulAtLeast(k, 1, g);
      }
    }
    if g % 2 == 1 && g <= 2 * (g * q) - Pow2(m) - 1 {
      var a := GapIsRematch(g, q, m, 1);
    }
  }

  lemma MulAtLeast(k: int, l: int, g: nat)
    requires k >= l
    ensures k * g >= l * g
  {
  }

  ghost predicate AtMostOneRematch(g: nat, q: nat, m: nat)
    requires g > 0
  {
    forall a, b | Rematch(g, q, m, a) && Rematch(g, q, m, b) :: a == b
  }

  /** The builder warns of one possible rematch for an odd group count.  There is at most one
      exactly when g is even or three times g does not fit. */
  lemma AtMostOneRematchIff(g: nat, q: nat, m: nat)
    requires g >= 2 && Fits(g * q, m)
    ensures AtMostOneRematch(g, q, m) <==> g % 2 == 0 || 2 * (g * q) - Pow2(m) - 1 < 3 * g
  {
    if g % 2 == 0 || 2 * (g * q) - Pow2(m) - 1 < 3 * g {
      forall a, b | Rematch(g, q, m, a) && Rematch(g, q, m, b) ensures a == b {
        var k := RematchGap(g, q, m, a);
        var l := RematchGap(g, q, m, b);
        OneIfBelowThree(k, g, 2 * (g * q) - Pow2(m) - 1);
        OneIfBelowThree(l, g, 2 * (g * q) - Pow2(m) - 1);
      }
    } else {
      var a := GapIsRematch(g, q, m, 1);
      var b := GapIsRematch(g, q, m, 3);
      assert a != b;
    }
  }

  lemma OneIfBelowThree(k: int, g: nat, room: int)
    requires k >= 1 && k % 2 == 1 && k * g <= room && (room < 3 * g || g % 2 == 0) && g % 2 == 1
    ensures k == 1
  {
  }

  /** Three groups of five qualifiers each: seeds 4-13 and 7-10 are two rematches. */
  lemma TwoRematches()
    ensures Fits(3 * 5, 4) && Rematch(3, 5, 4, 4) && Rematch(3, 5, 4, 7)
  {
  }

  // ---- a group's own qualifiers in opposite halves ----

  ghost predicate InFirstHalf(m: nat, l: int)
    requires m >= 1
  {
    LabelPosition(m, l) < Pow2(m - 1)
  }

  lemma FirstHalfByResidue(m: nat, l: int)
    requires m >= 2 && 1 <= l <= Pow2(m)
    ensures InFirstHalf(m, l) <==> (l - 1) % 4 == 0 || (l - 1) % 4 == 3
  {
    EveryLabelOccurs(m, l);
    FirstHalf(m, LabelPosition(m, l));
  }

  /** Any two qualifiers of a group are drawn into different halves of the bracket. */
  ghost predicate OppositeHalves(g: nat, q: nat, m: nat)
    requires m >= 1
  {
    forall k, r, s | 0 <= k < g && 1 <= r < s <= q ::
      InFirstHalf(m, SeedOf(g, k, r)) != InFirstHalf(m, SeedOf(g, k, s))
  }

  /** The documented placement of a group's qualifiers in opposite halves holds exactly for one
      qualifier per group, or two with a group count that is 2 modulo 4. */
  lemma OppositeHalvesIff(g: nat, q: nat, m: nat)
    requires g >= 2 && q >= 1 && Fits(g * q, m)
    ensures OppositeHalves(g, q, m) <==> q == 1 || (q == 2 && g % 4 == 2)
  {
    if q >= 2 {
      MulAtLeast(q, 2, g);
      if m < 2 { assert Pow2(1) == 2; }
      if q >= 3 {
        ThreeInTwoHalves(g, q, m);
      } else {
        forall k | 0 <= k < g ensures SeedOf(g, k, 1) == k + 1 && SeedOf(g, k, 2) == g + k + 1 {
        }
        TwoQualifiers(g, m);
      }
    }
  }

  lemma ThreeInTwoHalves(g: nat, q: nat, m: nat)
    requires g >= 2 && q >= 3 && m >= 1
    ensures !OppositeHalves(g, q, m)
  {
    var a, b, c := InFirstHalf(m, SeedOf(g, 0, 1)), InFirstHalf(m, SeedOf(g, 0, 2)), InFirstHalf(m, SeedOf(g, 0, 3));
    assert a == b || b == c || a == c;
  }

  lemma TwoQualifiers(g: nat, m: nat)
    requires g >= 2 && m >= 2 && Fits(g * 2, m)
    ensures OppositeHalves(g, 2, m) <==> g % 4 == 2
  {
    if g % 4 == 2 {
      forall k, r, s | 0 <= k < g && 1 <= r < s <= 2
        ensures InFirstHalf(m, SeedOf(g, k, r)) != InFirstHalf(m, SeedOf(g, k, s))
      {
        PairHalves(g, m, k);
      }
    } else {
      PairHalves(g, m, if g % 4 == 1 then 1 else 0);
    }
  }

  ghost predicate Outer(r: int) {
    r % 4 == 0 || r % 4 == 3
  }

  lemma PairHalves(g: nat, m: nat, k: nat)
    requires g >= 2 && m >= 2 && Fits(g * 2, m) && k < g
    ensures InFirstHalf(m, SeedOf(g, k, 1)) <==> Outer(k)
    ensures InFirstHalf(m, SeedOf(g, k, 2)) <==> Outer(g + k)
    ensures g % 4 == 2 ==> Outer(k) != Outer(g + k)
    ensures g % 4 != 2 && k == (if g % 4 == 1 then 1 else 0) ==> Outer(k) == Outer(g + k)
  {
    OuterPairs(g, k);
    assert SeedOf(g, k, 1) == k + 1 && SeedOf(g, k, 2) == g + k + 1;
    FirstHalfByResidue(m, k + 1);
    FirstHalfByResidue(m, g + k + 1);
  }

  lemma OuterPairs(g: nat, k: nat)
    ensures g % 4 == 2 ==> Outer(k) != Outer(g + k)
    ensures g % 4 != 2 && k == (if g % 4 == 1 then 1 else 0) ==> Outer(k) == Outer(g + k)
  {
  }

  /** Four groups with two qualifiers each: winner and runner-up of the first group share a half. */
  lemma SameHalfExample()
    ensures Fits(4 * 2, 3) && InFirstHalf(3, SeedOf(4, 0, 1)) && InFirstHalf(3, SeedOf(4, 0, 2))
  {
  }

  /** With an even group count, two seeds drawn together come from different groups. */
  lemma DrawnFromDifferentGroups(g: nat, m: nat, a: int, b: int)
    requires g >= 2 && g % 2 == 0 && m >= 1 && 1 <= a < b && a + b == Pow2(m) + 1
    ensures QualifierAt(g, a - 1).group != QualifierAt(g, b - 1).group
  {
    NotSameGroup(g, m, a, b);
    QualifierGroup(g, a - 1, b - 1);
  }

  lemma NotSameGroup(g: nat, m: nat, a: int, b: int)
    requires g >= 2 && g % 2 == 0 && m >= 1 && 1 <= a < b && a + b == Pow2(m) + 1
    ensures !SameGroup(g, a, b)
  {
    if SameGroup(g, a, b) {
      var k := SameGroupGap(g, a, b);
      OddGap(m, k, g, a);
    }
  }
}
