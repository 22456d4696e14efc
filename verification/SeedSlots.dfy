// Seed labels in bracket order (backend/internal/fixtures/knockout.go, lines 145-176).

module SeedSlots {

  function Pow2(k: nat): (p: nat)
    ensures p >= 1
  {
    if k == 0 then 1 else 2 * Pow2(k - 1)
  }

  /** The least k with 2^k >= n. */
  function CeilLog(n: int): nat {
    if n <= 1 then 0 else 1 + CeilLog((n + 1) / 2)
  }

  lemma {:induction false} CeilLogOfPow2(k: nat)
    ensures CeilLog(Pow2(k)) == k
  {
    if k > 0 { CeilLogOfPow2(k - 1); }
  }

  lemma {:induction false} CeilLogBounds(n: int)
    ensures n <= Pow2(CeilLog(n))
    ensures n > 1 ==> Pow2(CeilLog(n) - 1) < n
  {
    if n > 1 { CeilLogBounds((n + 1) / 2); }
  }

  lemma {:induction false} Pow2Monotone(a: nat, b: nat)
    requires a < b
    ensures 2 * Pow2(a) <= Pow2(b)
  {
    if a + 1 < b { Pow2Monotone(a, b - 1); }
  }

  lemma CeilLogUnique(n: int, k: nat)
    requires n <= Pow2(k) && (k > 0 ==> Pow2(k - 1) < n)
    ensures k == CeilLog(n)
  {
    CeilLogBounds(n);
    var c := CeilLog(n);
    if k < c { Pow2Monotone(k, c); }
    if c < k { Pow2Monotone(c, k); }
  }

  method NextPow2(n: int) returns (p: nat)
    ensures p == Pow2(CeilLog(n))
  {
    p := 1;
    ghost var k := 0;
    CeilLogBounds(n);
    while p < n
      invariant p == Pow2(k) && (k > 0 ==> Pow2(k - 1) < n)
      decreases n - p
    {
      p := p * 2;
      k := k + 1;
    }
    CeilLogUnique(n, k);
  }

  method Log2(n: int) returns (k: nat)
    ensures k == CeilLog(n)
  {
    k := 0;
    var p := 1;
    while p < n
      invariant p == Pow2(k) && (k > 0 ==> Pow2(k - 1) < n)
      decreases n - p
    {
      k := k + 1;
      p := p * 2;
    }
    CeilLogUnique(n, k);
  }

  // ---- the recursive order ----

  /** Each slot s is followed by its round-one opponent, so that the two add up to sum. */
  function Interleave(slots: seq<int>, sum: int): (r: seq<int>)
    ensures |r| == 2 * |slots|
  {
    if slots == [] then []
    else Interleave(slots[..|slots|-1], sum) + [slots[|slots|-1], sum - slots[|slots|-1]]
  }

  lemma {:induction false} InterleaveAt(slots: seq<int>, sum: int, q: nat)
    requires q < |slots|
    ensures Interleave(slots, sum)[2 * q] == slots[q] && Interleave(slots, sum)[2 * q + 1] == sum - slots[q]
  {
    if q < |slots| - 1 { InterleaveAt(slots[..|slots|-1], sum, q); }
  }

  function SlotOrder(m: nat): (s: seq<int>)
    ensures |s| == Pow2(m)
  {
    if m == 0 then [1] else Interleave(SlotOrder(m - 1), Pow2(m) + 1)
  }

  method SeedSlotOrder(size: int) returns (slots: seq<int>)
    ensures slots == SlotOrder(CeilLog(size))
  {
    slots := [1];
    ghost var m := 0;
    while |slots| < size
      invariant slots == SlotOrder(m) && (m > 0 ==> Pow2(m - 1) < size)
      decreases size - |slots|
    {
      var sum := |slots| * 2 + 1;
      var next: seq<int> := [];
      for i := 0 to |slots|
        invariant next == Interleave(slots[..i], sum)
      {
        assert slots[..i+1][..i] == slots[..i];
        next := next + [slots[i], sum - slots[i]];
      }
      assert slots[..|slots|] == slots;
      slots := next;
      m := m + 1;
    }
    CeilLogUnique(size, m);
  }

  /** The two leaves that slot q of the smaller order is split into. */
  lemma SplitSlot(m: nat, q: nat)
    requires m > 0 && q < Pow2(m - 1)
    ensures 2 * q + 1 < Pow2(m)
    ensures SlotOrder(m)[2 * q] == SlotOrder(m - 1)[q]
    ensures SlotOrder(m)[2 * q + 1] == Pow2(m) + 1 - SlotOrder(m - 1)[q]
  {
    InterleaveAt(SlotOrder(m - 1), Pow2(m) + 1, q);
  }

  /** The slot of the smaller order that leaf p was split from. */
  lemma Parent(m: nat, p: nat) returns (q: nat)
    requires m > 0 && p < Pow2(m)
    ensures q == p / 2 && q < Pow2(m - 1) && (if p % 2 == 0 then p == 2 * q else p == 2 * q + 1)
    ensures SlotOrder(m)[p] == if p % 2 == 0 then SlotOrder(m - 1)[q] else Pow2(m) + 1 - SlotOrder(m - 1)[q]
  {
    q := p / 2;
    SplitSlot(m, q);
  }

  // ---- a permutation of 1..2^m ----

  lemma {:induction false} LabelRange(m: nat, p: nat)
    requires p < Pow2(m)
    ensures 1 <= SlotOrder(m)[p] <= Pow2(m)
    ensures m > 0 ==> (SlotOrder(m)[p] <= Pow2(m - 1) <==> p % 2 == 0)
  {
    if m > 0 {
      var q := Parent(m, p);
      LabelRange(m - 1, q);
    }
  }

  /** Where label l sits: the inverse of SlotOrder. */
  function LabelPosition(m: nat, l: int): int {
    if m == 0 then 0
    else if l <= Pow2(m - 1) then 2 * LabelPosition(m - 1, l)
    else 2 * LabelPosition(m - 1, Pow2(m) + 1 - l) + 1
  }

  /** SlotOrder(m) is a permutation of 1..2^m with inverse LabelPosition. */
  lemma {:induction false} EveryLabelOccurs(m: nat, l: int)
    requires 1 <= l <= Pow2(m)
    ensures 0 <= LabelPosition(m, l) < Pow2(m) && SlotOrder(m)[LabelPosition(m, l)] == l
  {
    if m > 0 {
      var parent := if l <= Pow2(m - 1) then l else Pow2(m) + 1 - l;
      EveryLabelOccurs(m - 1, parent);
      SplitSlot(m, LabelPosition(m - 1, parent));
    }
  }

  lemma {:induction false} LabelsDiffer(m: nat, p: nat)
    requires p < Pow2(m)
    ensures LabelPosition(m, SlotOrder(m)[p]) == p
  {
    LabelRange(m, p);
    if m > 0 {
      var q := Parent(m, p);
      LabelsDiffer(m - 1, q);
      LabelRange(m - 1, q);
    }
  }

  // ---- seed protection ----

  /** Position p lies in the b-th aligned block of 2^j leaves: those below node b of round j. */
  ghost predicate InBlock(p: int, j: nat, b: int) {
    b * Pow2(j) <= p < b * Pow2(j) + Pow2(j)
  }

  lemma HalveBlock(p: int, j: nat, b: int)
    requires j > 0
    ensures InBlock(p, j, b) <==> InBlock(p / 2, j - 1, b)
    ensures b * Pow2(j) == 2 * (b * Pow2(j - 1))
  {
  }

  /** Each block of 2^j leaves holds exactly one label up to 2^(m-j), at its first leaf,
      and that label is what the smaller order 2^(m-j) has at position b. */
  lemma {:induction false} BlockLeader(m: nat, j: nat, b: nat, p: nat)
    requires j <= m && b < Pow2(m - j) && p < Pow2(m) && InBlock(p, j, b)
    ensures if p == b * Pow2(j) then SlotOrder(m)[p] == SlotOrder(m - j)[b]
            else SlotOrder(m)[p] > Pow2(m - j)
  {
    LabelRange(m, p);
    if j > 0 {
      var q := Parent(m, p);
      HalveBlock(p, j, b);
      BlockLeader(m - 1, j - 1, b, q);
      if j < m { Pow2Monotone(m - j, m); }
    }
  }

  lemma {:induction false} BlockExists(m: nat, j: nat, p: nat) returns (b: nat)
    requires j <= m && p < Pow2(m)
    ensures b < Pow2(m - j) && InBlock(p, j, b)
  {
    if j == 0 {
      b := p;
    } else {
      b := BlockExists(m - 1, j - 1, p / 2);
      HalveBlock(p, j, b);
    }
  }

  /** Two of the top 2^k seeds are never below the same node of rounds 1..m-k:
      they cannot meet before the last k rounds. */
  lemma TopSeedsMeetLate(m: nat, k: nat, j: nat, p: nat, q: nat, b: nat)
    requires k <= m && j <= m - k && p < Pow2(m) && q < Pow2(m) && p != q && b < Pow2(m - j)
    requires SlotOrder(m)[p] <= Pow2(k) && SlotOrder(m)[q] <= Pow2(k)
    ensures !(InBlock(p, j, b) && InBlock(q, j, b))
  {
    if InBlock(p, j, b) && InBlock(q, j, b) {
      if k < m - j { Pow2Monotone(k, m - j); }
      BlockLeader(m, j, b, p);
      BlockLeader(m, j, b, q);
    }
  }

  /** If the better seed always wins, the two sides of a round-(j+1) match add up to 2^(m-j) + 1. */
  lemma LeadersAddUp(m: nat, j: nat, c: nat)
    requires j < m && c < Pow2(m - j - 1)
    ensures 2 * c + 1 < Pow2(m - j)
    ensures SlotOrder(m - j)[2 * c] + SlotOrder(m - j)[2 * c + 1] == Pow2(m - j) + 1
  {
    SplitSlot(m - j, c);
  }

  lemma MirrorModFour(q: int, a: int)
    ensures (4 * q - 1 - a) % 4 == 3 - a % 4
  {
  }

  /** A label is in the first half of the bracket exactly when its distance from 1 is 0 or 3 modulo 4. */
  lemma {:induction false} FirstHalf(m: nat, p: nat)
    requires m >= 2 && p < Pow2(m)
    ensures p < Pow2(m - 1) <==> (SlotOrder(m)[p] - 1) % 4 == 0 || (SlotOrder(m)[p] - 1) % 4 == 3
  {
    if m == 2 {
      SplitSlot(1, 0);
      SplitSlot(2, 0);
      SplitSlot(2, 1);
    } else {
      var q := Parent(m, p);
      FirstHalf(m - 1, q);
      MirrorModFour(Pow2(m - 2), SlotOrder(m - 1)[q] - 1);
    }
  }
}
