// Dealing seeds into groups, and the qualifier order
// (backend/internal/fixtures/groupknockout.go, lines 41-47 and 85-98 and 124-130).

module Groups {
  import opened FixtureModels

  // ---- division by a variable group count ----

  lemma DivMod(c: int, g: int, pos: int)
    requires g > 0 && 0 <= pos < g
    ensures (c * g + pos) / g == c && (c * g + pos) % g == pos
  {
    var x := c * g + pos;
    var k, r := x / g, x % g;
    assert x == g * k + r;
    if k > c { AtLeast(g, k - c); }
    if k < c { AtLeast(g, c - k); }
  }

  lemma AtLeast(d: nat, t: int)
    requires t >= 1
    ensures d * t >= d
  {
  }

  // ---- the serpentine deal ----

  /** In pass c the groups are dealt forwards when c is even, backwards when it is odd. */
  function Turn(c: int, g: int, k: int): int {
    if c % 2 == 1 then g - 1 - k else k
  }

  function SnakeGroup(g: int, i: nat): int
    requires g > 0
  {
    Turn(i / g, g, i % g)
  }

  /** Seed positions below i that group k holds, in order. */
  ghost function Members(g: int, k: int, i: nat): seq<int>
    requires g > 0
  {
    if i == 0 then []
    else Members(g, k, i - 1) + if SnakeGroup(g, i - 1) == k then [i - 1] else []
  }

  lemma {:induction false} MembersAre(g: int, k: int, i: nat, x: int)
    requires g > 0
    ensures x in Members(g, k, i) <==> 0 <= x < i && SnakeGroup(g, x) == k
  {
    if i > 0 { MembersAre(g, k, i - 1, x); }
  }

  lemma {:induction false} MembersIncrease(g: int, k: int, i: nat)
    requires g > 0
    ensures forall a, b | 0 <= a < b < |Members(g, k, i)| :: Members(g, k, i)[a] < Members(g, k, i)[b]
    ensures forall a | 0 <= a < |Members(g, k, i)| :: 0 <= Members(g, k, i)[a] < i
  {
    if i > 0 { MembersIncrease(g, k, i - 1); }
  }

  /** After c full passes and pos more deals, group k holds c members, and one more if its turn has come. */
  lemma {:induction false} MemberCount(g: int, k: int, i: nat, c: nat, pos: nat)
    requires g > 0 && 0 <= k < g && pos < g && i == c * g + pos
    ensures |Members(g, k, i)| == c + if Turn(c, g, k) < pos then 1 else 0
  {
    if pos > 0 {
      MemberCount(g, k, i - 1, c, pos - 1);
      DivMod(c, g, pos - 1);
    } else if c > 0 {
      assert c * g == (c - 1) * g + g;
      MemberCount(g, k, i - 1, c - 1, g - 1);
      DivMod(c - 1, g, g - 1);
    }
  }

  /** Sizes differ by at most one, and every group holds at least n / g. */
  lemma GroupSizes(g: int, k: int, n: nat)
    requires g > 0 && 0 <= k < g
    ensures n / g <= |Members(g, k, n)| <= n / g + 1
    ensures n % g == 0 ==> |Members(g, k, n)| == n / g
  {
    var c, pos := n / g, n % g;
    assert n == c * g + pos;
    MemberCount(g, k, n, c, pos);
  }

  ghost function Sum(s: seq<int>): int {
    if s == [] then 0 else Sum(s[..|s|-1]) + s[|s|-1]
  }

  /** Two passes add the same to every group, so after an even number 2c of passes all sums agree. */
  lemma {:induction false} EvenPassSums(g: int, k: int, c: nat, u: nat)
    requires g > 0 && 0 <= k < g && u == c * g
    ensures Sum(Members(g, k, 2 * u)) == c * (2 * u - 1)
  {
    if c > 0 {
      var v := (c - 1) * g;
      assert u == v + g;
      EvenPassSums(g, k, c - 1, v);
      TwoPasses(g, k, c - 1, v);
      PairOfPassesSum(g, c, v);
    }
  }

  lemma TwoPasses(g: int, k: int, c: nat, v: nat)
    requires g > 0 && 0 <= k < g && v == c * g
    ensures Sum(Members(g, k, 2 * v + 2 * g)) == Sum(Members(g, k, 2 * v)) + 4 * v + 2 * g - 1
  {
    DoublePass(c, g);
    PassAdds(g, k, 2 * v, 2 * c);
    PassAdds(g, k, 2 * v + g, 2 * c + 1);
  }

  lemma DoublePass(c: nat, g: int)
    ensures (2 * c) * g == 2 * (c * g) && (2 * c + 1) * g == 2 * (c * g) + g
  {
  }

  lemma PairOfPassesSum(g: int, c: nat, v: nat)
    requires c > 0 && v == (c - 1) * g
    ensures (c - 1) * (2 * v - 1) + 4 * v + 2 * g - 1 == c * (2 * (v + g) - 1)
  {
  }

  /** When 2g divides n, all groups have the same sum of seed positions. */
  lemma EqualStrength(g: int, k: int, l: int, n: nat)
    requires g > 0 && 0 <= k < g && 0 <= l < g && n % (2 * g) == 0
    ensures Sum(Members(g, k, n)) == Sum(Members(g, l, n))
  {
    var c := n / (2 * g);
    assert n == (2 * g) * c;
    assert (2 * g) * c == 2 * (c * g);
    EvenPassSums(g, k, c, c * g);
    EvenPassSums(g, l, c, c * g);
  }

  /** A full pass starting at i adds the one position at group k's turn. */
  lemma PassAdds(g: int, k: int, i: nat, c: nat)
    requires g > 0 && 0 <= k < g && i == c * g
    ensures Members(g, k, i + g) == Members(g, k, i) + [i + Turn(c, g, k)]
    ensures Sum(Members(g, k, i + g)) == Sum(Members(g, k, i)) + i + Turn(c, g, k)
  {
    PassPrefix(g, k, i, c, g);
    var m := Members(g, k, i);
    assert (m + [i + Turn(c, g, k)])[..|m|] == m;
  }

  lemma {:induction false} PassPrefix(g: int, k: int, i: nat, c: nat, pos: nat)
    requires g > 0 && 0 <= k < g && i == c * g && pos <= g
    ensures Members(g, k, i + pos) == Members(g, k, i) + if Turn(c, g, k) < pos then [i + Turn(c, g, k)] else []
  {
    if pos > 0 {
      PassPrefix(g, k, i, c, pos - 1);
      DivMod(c, g, pos - 1);
    }
  }

  ghost function Chosen(seeded: seq<Participant>, s: seq<int>): seq<Participant>
    requires forall a | 0 <= a < |s| :: 0 <= s[a] < |seeded|
  {
    seq(|s|, a requires 0 <= a < |s| => seeded[s[a]])
  }

  /** Group k holds, in order, the seeds that the serpentine gives it. */
  ghost predicate DealtUpTo(seeded: seq<Participant>, groups: seq<seq<Participant>>, g: int, i: nat)
    requires g > 0 && i <= |seeded|
  {
    |groups| == g && forall k | 0 <= k < g :: HoldsMembers(seeded, groups[k], g, k, i)
  }

  ghost predicate HoldsMembers(seeded: seq<Participant>, members: seq<Participant>, g: int, k: int, i: nat)
    requires g > 0 && i <= |seeded|
  {
    MembersIncrease(g, k, i);
    members == Chosen(seeded, Members(g, k, i))
  }

  method DistributeSnake(seeded: seq<Participant>, g: int) returns (groups: seq<seq<Participant>>)
    requires g > 0
    ensures DealtUpTo(seeded, groups, g, |seeded|)
    ensures forall k | 0 <= k < g :: |seeded| / g <= |groups[k]| <= |seeded| / g + 1
  {
    groups := seq(g, _ => []);
    for i := 0 to |seeded|
      invariant DealtUpTo(seeded, groups, g, i)
    {
      var cycle, pos := i / g, i % g;
      var gi := pos;
      if cycle % 2 == 1 {
        gi := g - 1 - pos;
      }
      groups := groups[gi := groups[gi] + [seeded[i]]];
    }
    forall k | 0 <= k < g ensures |seeded| / g <= |groups[k]| <= |seeded| / g + 1 {
      GroupSizes(g, k, |seeded|);
      assert HoldsMembers(seeded, groups[k], g, k, |seeded|);
    }
  }

  lemma PassIndex(g: int, c: nat, n: nat, pos: int)
    requires g > 0 && 0 <= pos < g && c * g + pos < n
    ensures SnakeGroup(g, c * g + pos) == Turn(c, g, pos)
  {
    DivMod(c, g, pos);
  }

  /** The c-th member of a group is the seed at its turn of pass c, which runs forwards for even c and backwards for odd c. */
  lemma SnakeSeats(seeded: seq<Participant>, groups: seq<seq<Participant>>, g: int, c: nat, k: nat)
    requires g > 0 && DealtUpTo(seeded, groups, g, |seeded|) && k < g
    ensures var pos := if c % 2 == 0 then k else g - 1 - k;
            c * g + pos < |seeded| ==> c < |groups[k]| && groups[k][c] == seeded[c * g + pos]
    ensures |groups| == g
  {
    var pos := if c % 2 == 0 then k else g - 1 - k;
    var i, n := c * g + pos, |seeded|;
    assert HoldsMembers(seeded, groups[k], g, k, n);
    if i < n {
      MembersIncrease(g, k, n);
      MemberCount(g, k, i, c, pos);
      PassIndex(g, c, n, pos);
      assert Members(g, k, i + 1) == Members(g, k, i) + [i];
      MembersPrefix(g, k, i + 1, n);
      assert Members(g, k, n)[c] == i;
    }
  }

  lemma {:induction false} MembersPrefix(g: int, k: int, i: nat, n: nat)
    requires g > 0 && i <= n
    ensures Members(g, k, i) <= Members(g, k, n)
    decreases n
  {
    if i < n {
      MembersPrefix(g, k, i, n - 1);
      assert Members(g, k, n - 1) <= Members(g, k, n);
    }
  }

  // ---- labels ----

  function Digit(d: int): char
    requires 0 <= d < 10
  {
    "0123456789"[d]
  }

  function Decimal(n: nat): (s: string)
    ensures |s| > 0
  {
    if n < 10 then [Digit(n)] else Decimal(n / 10) + [Digit(n % 10)]
  }

  lemma DigitsDiffer(a: int, b: int)
    requires 0 <= a < 10 && 0 <= b < 10 && Digit(a) == Digit(b)
    ensures a == b
  {
  }

  lemma {:induction false} DecimalDiffers(a: nat, b: nat)
    requires Decimal(a) == Decimal(b)
    ensures a == b
  {
    var s, t := Decimal(a), Decimal(b);
    assert s[|s|-1] == t[|t|-1] && s[..|s|-1] == t[..|t|-1];
    DigitsDiffer(a % 10, b % 10);
    if a >= 10 && b >= 10 {
      assert s[..|s|-1] == Decimal(a / 10) && t[..|t|-1] == Decimal(b / 10);
      DecimalDiffers(a / 10, b / 10);
    }
  }

  /** A..Z, then G27, G28, ... */
  function GroupLabel(i: nat): (s: string)
    ensures |s| == 1 <==> i < 26
  {
    if i < 26 then [('A' as int + i) as char] else "G" + Decimal(i + 1)
  }

  /** The number a string of decimal digits stands for. */
  ghost function ValueOf(s: string): int {
    if s == "" then 0 else 10 * ValueOf(s[..|s|-1]) + (s[|s|-1] as int - '0' as int)
  }

  ghost predicate IsNumeral(s: string) {
    s != "" && forall k | 0 <= k < |s| :: '0' <= s[k] <= '9'
  }

  lemma {:induction false} DecimalIs(n: nat)
    ensures IsNumeral(Decimal(n)) && ValueOf(Decimal(n)) == n
  {
    var s := Decimal(n);
    if n >= 10 {
      DecimalIs(n / 10);
      assert s[..|s|-1] == Decimal(n / 10);
    } else {
      assert s[..0] == "";
    }
  }

  /** The first 26 groups are A to Z, and every later one is G and its number, counted from one. */
  lemma GroupLabelIs(i: nat)
    ensures i < 26 ==> GroupLabel(i) == ["ABCDEFGHIJKLMNOPQRSTUVWXYZ"[i]]
    ensures i >= 26 ==> GroupLabel(i)[0] == 'G' && IsNumeral(GroupLabel(i)[1..]) && ValueOf(GroupLabel(i)[1..]) == i + 1
  {
    if i >= 26 {
      DecimalIs(i + 1);
      assert GroupLabel(i)[1..] == Decimal(i + 1);
    }
  }

  lemma GroupLabelsDiffer(i: nat, j: nat)
    requires GroupLabel(i) == GroupLabel(j)
    ensures i == j
  {
    if i < 26 {
      assert GroupLabel(i)[0] == GroupLabel(j)[0];
    } else {
      assert GroupLabel(i)[1..] == Decimal(i + 1) && GroupLabel(j)[1..] == Decimal(j + 1);
      DecimalDiffers(i + 1, j + 1);
    }
  }

  // ---- the qualifier order: all winners first, then all runners-up, ... ----

  /** The i-th qualifier: every g entries the groups repeat with the next rank. */
  function QualifierAt(g: nat, i: nat): (ref: SlotRef)
    requires g > 0
    ensures ref.Qualifier?
  {
    if i < g then Qualifier(GroupLabel(i), 1)
    else
      var earlier := QualifierAt(g, i - g);
      Qualifier(earlier.group, earlier.rank + 1)
  }

  lemma {:induction false} QualifierIs(g: nat, c: nat, k: nat)
    requires k < g
    ensures QualifierAt(g, c * g + k) == Qualifier(GroupLabel(k), c + 1)
  {
    if c > 0 {
      assert c * g == (c - 1) * g + g;
      QualifierIs(g, c - 1, k);
    }
  }

  function Qualifiers(g: nat, count: nat): seq<SlotRef>
    requires g > 0
  {
    seq(count, i requires 0 <= i < count => QualifierAt(g, i))
  }

  lemma NextQualifier(g: nat, rank: nat, listed: nat, group: nat)
    requires rank >= 1 && group < g && listed == (rank - 1) * g
    ensures Qualifiers(g, listed + group + 1) == Qualifiers(g, listed + group) + [Qualifier(GroupLabel(group), rank)]
  {
    QualifierIs(g, rank - 1, group);
  }

  lemma NextRank(g: nat, rank: nat)
    requires rank >= 1
    ensures (rank - 1) * g + g == rank * g
  {
  }

  method ListQualifiers(g: nat, q: nat) returns (qualifiers: seq<SlotRef>)
    requires g > 0
    ensures qualifiers == Qualifiers(g, q * g)
  {
    qualifiers := [];
    var rank := 1;
    ghost var listed := 0;
    while rank <= q
      invariant 1 <= rank <= q + 1 && listed == (rank - 1) * g && qualifiers == Qualifiers(g, listed)
    {
      for group := 0 to g
        invariant qualifiers == Qualifiers(g, listed + group)
      {
        NextQualifier(g, rank, listed, group);
        qualifiers := qualifiers + [Qualifier(GroupLabel(group), rank)];
      }
      NextRank(g, rank);
      listed := listed + g;
      rank := rank + 1;
    }
  }

  lemma {:induction false} Quotient(i: nat, g: nat) returns (c: nat, k: nat)
    requires g > 0
    ensures i == c * g + k && k < g && c == i / g && k == i % g
  {
    if i < g {
      c, k := 0, i;
    } else {
      c, k := Quotient(i - g, g);
      c := c + 1;
    }
    DivMod(c, g, k);
  }

  lemma QualifierIsAt(g: nat, i: nat)
    requires g > 0
    ensures i / g >= 0 && 0 <= i % g < g && QualifierAt(g, i) == Qualifier(GroupLabel(i % g), i / g + 1)
  {
    var c, k := Quotient(i, g);
    QualifierIs(g, c, k);
  }

  /** Two entries share a group exactly when they are a multiple of g apart. */
  lemma QualifierGroup(g: nat, i: nat, j: nat)
    requires g > 0
    ensures i / g >= 0 && j / g >= 0 && 0 <= i % g < g && 0 <= j % g < g
    ensures QualifierAt(g, i) == Qualifier(GroupLabel(i % g), i / g + 1)
    ensures QualifierAt(g, i).group == QualifierAt(g, j).group <==> i % g == j % g
  {
    QualifierIsAt(g, i);
    QualifierIsAt(g, j);
    if QualifierAt(g, i).group == QualifierAt(g, j).group {
      GroupLabelsDiffer(i % g, j % g);
    }
  }

  lemma GroupOfEntry(g: nat, i: nat, j: nat)
    requires g > 0
    ensures QualifierAt(g, i).group == QualifierAt(g, j).group <==> i % g == j % g
  {
    QualifierGroup(g, i, j);
  }

  lemma QualifiersDiffer(g: nat, count: nat)
    requires g > 0
    ensures Distinct(Qualifiers(g, count))
  {
    forall i, j | 0 <= i < j < count ensures QualifierAt(g, i) != QualifierAt(g, j) {
      QualifierGroup(g, i, j);
      QualifierGroup(g, j, i);
      if QualifierAt(g, i) == QualifierAt(g, j) {
        SameQuotient(g, i, j);
      }
    }
  }

  lemma SameQuotient(g: nat, i: nat, j: nat)
    requires g > 0 && i / g == j / g && i % g == j % g
    ensures i == j
  {
  }
}
