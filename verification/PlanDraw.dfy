// What a built group_knockout plan does with the qualifiers of one group
// (backend/internal/fixtures/groupknockout.go, lines 13-18, 49-83).

module PlanDraw {
  import opened FixtureModels
  import opened SeedSlots
  import opened Bracket
  import opened BracketTree
  import opened Knockout
  import opened Groups
  import opened QualifierDraw
  import GK = GroupKnockout

  // ---- where the slots of a bracket lead ----

  /** Following the edges from slot s of match i: the slot of the last match that its winner would play in. */
  ghost function FinalSlot(ms: seq<PlannedMatch>, i: nat, s: int): int
    decreases |ms| - i
  {
    if i < |ms| && ms[i].nextMatchIndex.Some? && ms[i].nextSlot.Some? && i < ms[i].nextMatchIndex.value < |ms|
      then FinalSlot(ms, ms[i].nextMatchIndex.value, ms[i].nextSlot.value)
    else s
  }

  /** Slot s of node (r, j) leads to the final's first slot exactly when it lies in the first half. */
  lemma {:induction false} FinalSlotOfNode(leaves: seq<Leaf>, m: nat, offset: int, ms: seq<PlannedMatch>, nodes: seq<Node>, i: nat, s: int)
    requires Complete(leaves, m, offset, ms, nodes) && i < |ms| && (s == 1 || s == 2)
    ensures 1 <= nodes[i].0 <= m && (FinalSlot(ms, i, s) == 1 <==> 2 * nodes[i].1 + s - 1 < Pow2(m - nodes[i].0))
    decreases |ms| - i
  {
    EdgeOf(leaves, m, offset, ms, nodes, i);
    assert Describes(ms[i], i, offset, leaves, nodes[i]) && IsNode(leaves, m, nodes[i]);
    if i == |ms| - 1 {
      RootIsLast(leaves, m, offset, ms, nodes);
    } else {
      EdgeGoesForward(leaves, m, offset, ms, nodes, i);
      var t, side := ms[i].nextMatchIndex.value, ms[i].nextSlot.value;
      FinalSlotOfNode(leaves, m, offset, ms, nodes, t, side);
      ChildBlock(m, nodes[i].0, nodes[i].1, s);
    }
  }

  lemma ChildBlock(m: nat, r: nat, j: int, s: int)
    requires 1 <= r < m && (s == 1 || s == 2)
    ensures 2 * (j / 2) + (1 + j % 2) - 1 == j
    ensures 2 * j + s - 1 < Pow2(m - r) <==> j < Pow2(m - r - 1)
  {
  }

  lemma LeafBlock(leaves: seq<Leaf>, m: nat, p: nat, nd: Node, s: int)
    requires PlaceOf(leaves, p) == (nd, s) && 1 <= nd.0 <= m
    ensures 2 * nd.1 + s - 1 < Pow2(m - nd.0) <==> p < Pow2(m - 1)
  {
  }

  lemma {:induction false} FinalSlotIsSide(ms: seq<PlannedMatch>, i: nat, s: int)
    requires Progression(ms) && i < |ms| && (s == 1 || s == 2)
    ensures FinalSlot(ms, i, s) == 1 || FinalSlot(ms, i, s) == 2
    decreases |ms| - i
  {
    assert GoesForward(ms, i);
    if ms[i].nextMatchIndex.Some? {
      FinalSlotIsSide(ms, ms[i].nextMatchIndex.value, ms[i].nextSlot.value);
    }
  }

  // ---- what a knockout does with its seeds ----

  /** Seed l sits in one slot, in the half of his leaf. */
  ghost predicate SeedIsDrawn(refs: seq<SlotRef>, m: nat, ko: seq<PlannedMatch>, l: nat)
    requires m >= 1 && 1 <= l <= |refs|
  {
    && PlacedOnce(ko, refs[l - 1])
    && forall t, s | Holds(ko, t, s, refs[l - 1]) :: FinalSlot(ko, t, s) == if InFirstHalf(m, l) then 1 else 2
  }

  /** Match i is the round-one tie of seeds a and 2^m + 1 - a. */
  ghost predicate IsTie(refs: seq<SlotRef>, m: nat, offset: int, ko: seq<PlannedMatch>, i: int, a: int) {
    && 1 <= a < Pow2(m) + 1 - a <= |refs| && 0 <= i < |ko| && ko[i].roundNumber == offset + 1
    && ko[i].home == refs[a - 1] && ko[i].away == refs[Pow2(m) - a]
  }

  ghost predicate HasTie(refs: seq<SlotRef>, m: nat, offset: int, ko: seq<PlannedMatch>, a: int) {
    exists i :: IsTie(refs, m, offset, ko, i, a)
  }

  ghost predicate TieOfSomebody(refs: seq<SlotRef>, m: nat, offset: int, ko: seq<PlannedMatch>, i: int) {
    exists a :: IsTie(refs, m, offset, ko, i, a)
  }

  /** Every seed is drawn once, and round one is played by exactly the pairs of seeds that add up. */
  ghost predicate IsDrawn(refs: seq<SlotRef>, m: nat, offset: int, ko: seq<PlannedMatch>) {
    && Fits(|refs|, m) && Distinct(refs) && Progression(ko)
    && (forall l | 1 <= l <= |refs| :: SeedIsDrawn(refs, m, ko, l))
    && (forall i | 0 <= i < |ko| && ko[i].roundNumber == offset + 1 :: TieOfSomebody(refs, m, offset, ko, i))
    && (forall a | 1 <= a < Pow2(m) + 1 - a <= |refs| :: HasTie(refs, m, offset, ko, a))
  }

  /** Two seeds that add up do meet in round one. */
  lemma TieOfSeeds(refs: seq<SlotRef>, m: nat, offset: int, ms: seq<PlannedMatch>, nodes: seq<Node>, a: int) returns (i: nat)
    requires IsKnockout(refs, m, offset, ms, nodes) && 1 <= a < Pow2(m) + 1 - a <= |refs|
    ensures i < |ms| && ms[i].roundNumber == offset + 1 && ms[i].home == refs[a - 1] && ms[i].away == refs[Pow2(m) - a]
  {
    EveryLabelOccurs(m - 1, a);
    var j := LabelPosition(m - 1, a);
    PairOfField(refs, m, j);
    i := IndexOf(FieldLeaves(refs, m), m, nodes, (m + 1, 0), (1, j));
    KnockoutRound(refs, m, offset, ms, nodes, i);
  }

  lemma SeedIsInHalf(refs: seq<SlotRef>, m: nat, offset: int, ms: seq<PlannedMatch>, nodes: seq<Node>, l: nat, t: nat, s: int)
    requires IsKnockout(refs, m, offset, ms, nodes) && Distinct(refs) && 1 <= l <= |refs| && Holds(ms, t, s, refs[l - 1])
    ensures FinalSlot(ms, t, s) == if InFirstHalf(m, l) then 1 else 2
  {
    var leaves, p := FieldLeaves(refs, m), LabelPosition(m, l);
    FieldDistinct(refs, m);
    SeedLeaf(refs, m, l);
    HolderIsPlace(leaves, m, offset, ms, nodes, p, t, s);
    PlaceIsInHalf(leaves, m, offset, ms, nodes, p, t, s);
  }

  lemma PlaceIsInHalf(leaves: seq<Leaf>, m: nat, offset: int, ms: seq<PlannedMatch>, nodes: seq<Node>, p: nat, t: nat, s: int)
    requires Complete(leaves, m, offset, ms, nodes) && Progression(ms) && t < |ms| && (s == 1 || s == 2)
    requires PlaceOf(leaves, p) == (nodes[t], s)
    ensures FinalSlot(ms, t, s) == if p < Pow2(m - 1) then 1 else 2
  {
    FinalSlotOfNode(leaves, m, offset, ms, nodes, t, s);
    FinalSlotIsSide(ms, t, s);
    LeafBlock(leaves, m, p, nodes[t], s);
  }

  lemma KnockoutIsDrawn(refs: seq<SlotRef>, m: nat, offset: int, ms: seq<PlannedMatch>, nodes: seq<Node>)
    requires IsKnockout(refs, m, offset, ms, nodes) && Distinct(refs)
    ensures IsDrawn(refs, m, offset, ms)
  {
    forall l | 1 <= l <= |refs| ensures SeedIsDrawn(refs, m, ms, l) {
      ParticipantsPlacedOnce(refs, m, offset, ms, nodes, l);
      forall t, s | Holds(ms, t, s, refs[l - 1]) ensures FinalSlot(ms, t, s) == if InFirstHalf(m, l) then 1 else 2 {
        SeedIsInHalf(refs, m, offset, ms, nodes, l, t, s);
      }
    }
    forall i | 0 <= i < |ms| && ms[i].roundNumber == offset + 1 ensures TieOfSomebody(refs, m, offset, ms, i) {
      var a := RoundOneSeeds(refs, m, offset, ms, nodes, i);
      assert IsTie(refs, m, offset, ms, i, a);
    }
    forall a | 1 <= a < Pow2(m) + 1 - a <= |refs| ensures HasTie(refs, m, offset, ms, a) {
      var i := TieOfSeeds(refs, m, offset, ms, nodes, a);
      assert IsTie(refs, m, offset, ms, i, a);
    }
  }

  // ---- the plan ----

  /** A plan with the parts it was built from. */
  datatype GroupPlan = GroupPlan(
    seeded: seq<Participant>, g: nat, q: nat, matches: seq<PlannedMatch>, groups: seq<seq<Participant>>, legs: seq<GK.Leg>,
    maxRound: int, ko: seq<PlannedMatch>, m: nat, nodes: seq<Node>)

  ghost predicate IsGroupPlan(p: GroupPlan) {
    GK.IsGroupKnockout(p.seeded, p.g, p.q, p.matches, p.groups, p.legs, p.maxRound, p.ko, p.m, p.nodes)
  }

  ghost function Refs(p: GroupPlan): seq<SlotRef>
    requires p.g > 0
  {
    Qualifiers(p.g, FieldOf(p.g, p.q))
  }

  ghost function Base(p: GroupPlan): int { |p.matches| - |p.ko| }

  /** The part of a plan that the draw is about. */
  ghost predicate HasDraw(p: GroupPlan) {
    p.g >= 2 && p.q >= 1 && EndsWith(p.matches, p.ko) && IsDrawn(Refs(p), p.m, p.maxRound, p.ko)
  }

  /** ms is concrete matches and then ko, shifted. */
  ghost predicate EndsWith(ms: seq<PlannedMatch>, ko: seq<PlannedMatch>) {
    var base := |ms| - |ko|;
    && base >= 0 && (forall i | 0 <= i < |ko| :: ms[base + i] == GK.Shift(ko[i], base))
    && (forall i | 0 <= i < base :: ms[i].home.Concrete? && ms[i].away.Concrete?)
  }

  lemma PlanHasDraw(p: GroupPlan)
    requires IsGroupPlan(p)
    ensures HasDraw(p)
  {
    PartsOfPlan(GK.Stages(p.groups, p.legs, p.g), p.ko, p.matches);
    QualifiersDiffer(p.g, FieldOf(p.g, p.q));
    KnockoutIsDrawn(Refs(p), p.m, p.maxRound, p.ko, p.nodes);
  }

  lemma PartsOfPlan(stages: seq<PlannedMatch>, ko: seq<PlannedMatch>, ms: seq<PlannedMatch>)
    requires ms == stages + GK.ShiftAll(ko, |stages|) && GK.IsGroupPart(stages)
    ensures EndsWith(ms, ko)
  {
    forall i | 0 <= i < |stages| ensures ms[i].home.Concrete? && ms[i].away.Concrete? {
      assert ms[i] == stages[i] && GK.IsGroupMatch(stages[i], i);
    }
  }

  /** How large the knockout bracket is: the least power of two that holds g times q. */
  function BracketSize(g: nat, q: nat): nat { Pow2(CeilLog(FieldOf(g, q))) }

  lemma SizeOfPlan(p: GroupPlan)
    requires HasDraw(p)
    ensures Fits(p.g * p.q, p.m) && Pow2(p.m) == BracketSize(p.g, p.q)
  {
    CeilLogUnique(FieldOf(p.g, p.q), p.m);
  }

  // ---- round one ----

  /** Match i of the plan is a round-one knockout match between two qualifiers of one group. */
  ghost predicate Repeats(p: GroupPlan, i: int) {
    && 0 <= i < |p.matches| && Base(p) <= i && p.matches[i].roundNumber == p.maxRound + 1
    && p.matches[i].home.Qualifier? && p.matches[i].away.Qualifier? && p.matches[i].home.group == p.matches[i].away.group
  }

  ghost predicate TieAt(p: GroupPlan, i: int, a: int)
    requires p.g > 0
  {
    i >= Base(p) && IsTie(Refs(p), p.m, p.maxRound, p.ko, i - Base(p), a)
  }

  lemma SameGroupMeans(g: nat, a: int, b: int, i: nat, j: nat)
    requires g > 0 && i == a - 1 && j == b - 1
    ensures SameGroup(g, a, b) <==> QualifierAt(g, i).group == QualifierAt(g, j).group
  {
    GroupOfEntry(g, i, j);
  }

  lemma RematchMeans(g: nat, q: nat, m: nat, a: int)
    requires g > 0 && 1 <= a < Pow2(m) + 1 - a <= FieldOf(g, q)
    ensures Rematch(g, q, m, a) <==> SameGroup(g, a, Pow2(m) + 1 - a)
  {
    assert g * q == q * g;
  }

  /** A tie repeats a group game exactly when its seeds are of one group. */
  lemma TieRepeats(p: GroupPlan, i: int, a: int)
    requires p.g > 0 && EndsWith(p.matches, p.ko) && TieAt(p, i, a)
    ensures Repeats(p, i) <==> Rematch(p.g, p.q, p.m, a)
  {
    var x, y := TieShows(p, i, a);
    RematchMeans(p.g, p.q, p.m, a);
    SameGroupMeans(p.g, a, Pow2(p.m) + 1 - a, x, y);
  }

  lemma TieShows(p: GroupPlan, i: int, a: int) returns (x: nat, y: nat)
    requires p.g > 0 && EndsWith(p.matches, p.ko) && TieAt(p, i, a)
    ensures x == a - 1 && y == Pow2(p.m) + 1 - a - 1
    ensures Repeats(p, i) <==> QualifierAt(p.g, x).group == QualifierAt(p.g, y).group
  {
    x, y := a - 1, Pow2(p.m) - a;
    assert p.matches[Base(p) + (i - Base(p))] == GK.Shift(p.ko[i - Base(p)], Base(p));
  }

  lemma RepeatOf(p: GroupPlan, i: nat) returns (a: int)
    requires HasDraw(p) && Repeats(p, i)
    ensures TieAt(p, i, a) && Rematch(p.g, p.q, p.m, a)
  {
    assert TieOfSomebody(Refs(p), p.m, p.maxRound, p.ko, i - Base(p));
    a :| IsTie(Refs(p), p.m, p.maxRound, p.ko, i - Base(p), a);
    TieRepeats(p, i, a);
  }

  lemma RematchIsPlayed(p: GroupPlan, a: int) returns (i: nat)
    requires HasDraw(p) && Rematch(p.g, p.q, p.m, a)
    ensures TieAt(p, i, a) && Repeats(p, i)
  {
    assert HasTie(Refs(p), p.m, p.maxRound, p.ko, a);
    var k :| IsTie(Refs(p), p.m, p.maxRound, p.ko, k, a);
    i := Base(p) + k;
    TieRepeats(p, i, a);
  }

  /** One match per pair of seeds. */
  lemma TiesDiffer(refs: seq<SlotRef>, m: nat, offset: int, ko: seq<PlannedMatch>, i: int, a: int, j: int, b: int)
    requires IsDrawn(refs, m, offset, ko) && IsTie(refs, m, offset, ko, i, a) && IsTie(refs, m, offset, ko, j, b)
    ensures i == j <==> a == b
  {
    assert SeedIsDrawn(refs, m, ko, a);
    TiesOfOnePlace(refs, m, offset, ko, i, a, j, b);
  }

  lemma TiesOfOnePlace(refs: seq<SlotRef>, m: nat, offset: int, ko: seq<PlannedMatch>, i: int, a: int, j: int, b: int)
    requires Distinct(refs) && IsTie(refs, m, offset, ko, i, a) && IsTie(refs, m, offset, ko, j, b) && PlacedOnce(ko, refs[a - 1])
    ensures i == j <==> a == b
  {
    assert Holds(ko, i, 1, refs[a - 1]) && Holds(ko, j, 1, refs[b - 1]);
  }

  /** No round-one knockout match of the plan repeats a group game exactly when the group count is even, or odd
      and above twice the field less the bracket size and one. */
  lemma PlanWithoutRematchIff(p: GroupPlan)
    requires IsGroupPlan(p)
    ensures (forall i :: !Repeats(p, i)) <==> p.g % 2 == 0 || 2 * (p.g * p.q) - BracketSize(p.g, p.q) - 1 < p.g
  {
    PlanHasDraw(p);
    SizeOfPlan(p);
    NoRematchIff(p.g, p.q, p.m);
    if i :| Repeats(p, i) {
      var a := RepeatOf(p, i);
    }
    if a :| Rematch(p.g, p.q, p.m, a) {
      var i := RematchIsPlayed(p, a);
    }
  }

  /** The plan has at most the one rematch its warning speaks of exactly when the group count is even, or three
      times it is above that. */
  lemma PlanWithOneRematchIff(p: GroupPlan)
    requires IsGroupPlan(p)
    ensures (forall i, j | Repeats(p, i) && Repeats(p, j) :: i == j)
            <==> p.g % 2 == 0 || 2 * (p.g * p.q) - BracketSize(p.g, p.q) - 1 < 3 * p.g
  {
    PlanHasDraw(p);
    SizeOfPlan(p);
    AtMostOneRematchIff(p.g, p.q, p.m);
    OneRepeatIffOneRematch(p);
  }

  lemma OneRepeatIffOneRematch(p: GroupPlan)
    requires HasDraw(p)
    ensures (forall i, j | Repeats(p, i) && Repeats(p, j) :: i == j) <==> AtMostOneRematch(p.g, p.q, p.m)
  {
    if AtMostOneRematch(p.g, p.q, p.m) {
      forall i, j | Repeats(p, i) && Repeats(p, j) ensures i == j {
        var a, b := SeedsOfTwo(p, i, j);
      }
    } else {
      var a, b :| Rematch(p.g, p.q, p.m, a) && Rematch(p.g, p.q, p.m, b) && a != b;
      var i, j := TwoOfSeeds(p, a, b);
    }
  }

  lemma SeedsOfTwo(p: GroupPlan, i: nat, j: nat) returns (a: int, b: int)
    requires HasDraw(p) && Repeats(p, i) && Repeats(p, j)
    ensures Rematch(p.g, p.q, p.m, a) && Rematch(p.g, p.q, p.m, b) && (i == j <==> a == b)
  {
    a := RepeatOf(p, i);
    b := RepeatOf(p, j);
    PlanTiesDiffer(p, i, a, j, b);
  }

  lemma TwoOfSeeds(p: GroupPlan, a: int, b: int) returns (i: nat, j: nat)
    requires HasDraw(p) && Rematch(p.g, p.q, p.m, a) && Rematch(p.g, p.q, p.m, b)
    ensures Repeats(p, i) && Repeats(p, j) && (i == j <==> a == b)
  {
    i := RematchIsPlayed(p, a);
    j := RematchIsPlayed(p, b);
    PlanTiesDiffer(p, i, a, j, b);
  }

  lemma PlanTiesDiffer(p: GroupPlan, i: nat, a: int, j: nat, b: int)
    requires HasDraw(p) && TieAt(p, i, a) && TieAt(p, j, b)
    ensures i == j <==> a == b
  {
    TiesDiffer(Refs(p), p.m, p.maxRound, p.ko, i - Base(p), a, j - Base(p), b);
  }

  /** Every plan over three groups with five qualifiers each has two rematches in round one. */
  lemma TwoRematchesInPlan(p: GroupPlan) returns (i: nat, j: nat)
    requires IsGroupPlan(p) && p.g == 3 && p.q == 5
    ensures i != j && Repeats(p, i) && Repeats(p, j)
  {
    PlanHasDraw(p);
    FifteenSeeds(p);
    i, j := TwoOfSeeds(p, 4, 7);
  }

  lemma FifteenSeeds(p: GroupPlan)
    requires HasDraw(p) && p.g == 3 && p.q == 5
    ensures Rematch(p.g, p.q, p.m, 4) && Rematch(p.g, p.q, p.m, 7)
  {
    CeilLogUnique(15, 4);
    CeilLogUnique(15, p.m);
    TwoRematches();
  }

  // ---- halves ----

  /** Embedding the knockout in the plan does not change where its slots lead. */
  lemma {:induction false} FinalSlotShifted(ms: seq<PlannedMatch>, ko: seq<PlannedMatch>, i: nat, s: int)
    requires EndsWith(ms, ko) && Progression(ko) && i < |ko|
    ensures FinalSlot(ms, |ms| - |ko| + i, s) == FinalSlot(ko, i, s)
    decreases |ko| - i
  {
    assert GoesForward(ko, i) && ms[|ms| - |ko| + i] == GK.Shift(ko[i], |ms| - |ko|);
    if ko[i].nextMatchIndex.Some? {
      FinalSlotShifted(ms, ko, ko[i].nextMatchIndex.value, ko[i].nextSlot.value);
    }
  }

  /** The slot of the rank-th qualifier of group k. */
  ghost predicate Seats(p: GroupPlan, k: int, rank: int, t: int, s: int) {
    0 <= k < p.g && 1 <= rank <= p.q && Holds(p.matches, t, s, Qualifier(GroupLabel(k), rank))
  }

  /** Any two qualifiers of a group sit in different halves of the plan's bracket. */
  ghost predicate GroupsSplit(p: GroupPlan) {
    forall k, a, b, t: nat, s, t': nat, s' | a < b && Seats(p, k, a, t, s) && Seats(p, k, b, t', s') ::
      FinalSlot(p.matches, t, s) != FinalSlot(p.matches, t', s')
  }

  lemma SeatHalf(p: GroupPlan, k: nat, rank: nat, t: nat, s: int)
    requires HasDraw(p) && Seats(p, k, rank, t, s)
    ensures FinalSlot(p.matches, t, s) == if InFirstHalf(p.m, SeedOf(p.g, k, rank)) then 1 else 2
  {
    SeedOfRank(p.g, p.q, k, rank);
    SeedHalf(p, SeedOf(p.g, k, rank), t, s);
  }

  lemma SeedHalf(p: GroupPlan, l: nat, t: nat, s: int)
    requires HasDraw(p) && 1 <= l <= |Refs(p)| && Holds(p.matches, t, s, Refs(p)[l - 1])
    ensures FinalSlot(p.matches, t, s) == if InFirstHalf(p.m, l) then 1 else 2
  {
    var i := InKnockout(p.matches, p.ko, t, s, Refs(p)[l - 1]);
    assert SeedIsDrawn(Refs(p), p.m, p.ko, l);
    FinalSlotShifted(p.matches, p.ko, i, s);
  }

  /** Qualifiers sit in the knockout part. */
  lemma InKnockout(ms: seq<PlannedMatch>, ko: seq<PlannedMatch>, t: nat, s: int, ref: SlotRef) returns (i: nat)
    requires EndsWith(ms, ko) && ref.Qualifier? && Holds(ms, t, s, ref)
    ensures t == |ms| - |ko| + i && Holds(ko, i, s, ref)
  {
    i := t - (|ms| - |ko|);
    assert ms[|ms| - |ko| + i] == GK.Shift(ko[i], |ms| - |ko|);
  }

  lemma SeatOf(p: GroupPlan, k: nat, rank: nat) returns (t: nat, s: int)
    requires HasDraw(p) && k < p.g && 1 <= rank <= p.q
    ensures Seats(p, k, rank, t, s)
  {
    SeedOfRank(p.g, p.q, k, rank);
    t, s := SeedSeat(p, SeedOf(p.g, k, rank));
  }

  lemma SeedSeat(p: GroupPlan, l: nat) returns (t: nat, s: int)
    requires HasDraw(p) && 1 <= l <= |Refs(p)|
    ensures Holds(p.matches, t, s, Refs(p)[l - 1])
  {
    assert SeedIsDrawn(Refs(p), p.m, p.ko, l);
    var i;
    i, s :| Holds(p.ko, i, s, Refs(p)[l - 1]);
    t := Base(p) + i;
    assert p.matches[t] == GK.Shift(p.ko[i], Base(p));
  }

  /** The plan keeps a group's qualifiers in opposite halves exactly for one qualifier per group, or two with
      a group count that is 2 modulo 4. */
  lemma PlanSplitsGroupsIff(p: GroupPlan)
    requires IsGroupPlan(p)
    ensures GroupsSplit(p) <==> p.q == 1 || (p.q == 2 && p.g % 4 == 2)
  {
    PlanHasDraw(p);
    SizeOfPlan(p);
    OppositeHalvesIff(p.g, p.q, p.m);
    SplitIffOpposite(p);
  }

  lemma SplitIffOpposite(p: GroupPlan)
    requires HasDraw(p)
    ensures GroupsSplit(p) <==> OppositeHalves(p.g, p.q, p.m)
  {
    if OppositeHalves(p.g, p.q, p.m) {
      forall k, a, b, t: nat, s, t': nat, s' | a < b && Seats(p, k, a, t, s) && Seats(p, k, b, t', s')
        ensures FinalSlot(p.matches, t, s) != FinalSlot(p.matches, t', s')
      {
        SeatHalf(p, k, a, t, s);
        SeatHalf(p, k, b, t', s');
        assert InFirstHalf(p.m, SeedOf(p.g, k, a)) != InFirstHalf(p.m, SeedOf(p.g, k, b));
      }
    } else {
      var k, a, b :| 0 <= k < p.g && 1 <= a < b <= p.q
                     && InFirstHalf(p.m, SeedOf(p.g, k, a)) == InFirstHalf(p.m, SeedOf(p.g, k, b));
      var t, s, t', s' := SharedHalf(p, k, a, b);
    }
  }

  lemma SharedHalf(p: GroupPlan, k: nat, a: nat, b: nat) returns (t: nat, s: int, t': nat, s': int)
    requires HasDraw(p) && k < p.g && 1 <= a <= p.q && 1 <= b <= p.q
    requires InFirstHalf(p.m, SeedOf(p.g, k, a)) == InFirstHalf(p.m, SeedOf(p.g, k, b))
    ensures Seats(p, k, a, t, s) && Seats(p, k, b, t', s') && FinalSlot(p.matches, t, s) == FinalSlot(p.matches, t', s')
  {
    t, s := SeatOf(p, k, a);
    t', s' := SeatOf(p, k, b);
    SeatHalf(p, k, a, t, s);
    SeatHalf(p, k, b, t', s');
  }

  /** In every plan over four groups with two qualifiers each, winner and runner-up of the first group are in one
      half, so they can meet before the final. */
  lemma SameHalfInPlan(p: GroupPlan) returns (t: nat, s: int, t': nat, s': int)
    requires IsGroupPlan(p) && p.g == 4 && p.q == 2
    ensures Seats(p, 0, 1, t, s) && Seats(p, 0, 2, t', s')
    ensures FinalSlot(p.matches, t, s) == FinalSlot(p.matches, t', s')
  {
    PlanHasDraw(p);
    EightSeeds(p);
    t, s, t', s' := SharedHalf(p, 0, 1, 2);
  }

  lemma EightSeeds(p: GroupPlan)
    requires HasDraw(p) && p.g == 4 && p.q == 2
    ensures InFirstHalf(p.m, SeedOf(p.g, 0, 1)) && InFirstHalf(p.m, SeedOf(p.g, 0, 2))
  {
    CeilLogUnique(8, p.m);
    CeilLogUnique(8, 3);
    SameHalfExample();
  }
}
