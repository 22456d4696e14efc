// Seeded knockout over any field of two or more (backend/internal/fixtures/knockout.go, lines 11-29).

module Knockout {
  import opened FixtureModels
  import opened Counting
  import opened SeedSlots
  import opened Bracket
  import opened BracketTree

  /** 2^m is the bracket size for a field of n. */
  ghost predicate Fits(n: nat, m: nat) {
    m >= 1 && Pow2(m - 1) < n <= Pow2(m)
  }

  lemma CeilLogFits(n: nat)
    requires n >= 2
    ensures Fits(n, CeilLog(n)) && CeilLog(Pow2(CeilLog(n))) == CeilLog(n)
  {
    CeilLogBounds(n);
    CeilLogOfPow2(CeilLog(n));
  }

  /** Labels up to the field size become entrants, the phantom labels above it byes. */
  function LeafFor(refs: seq<SlotRef>, seed: int): Leaf {
    if 1 <= seed <= |refs| then Entrant(refs[seed - 1]) else ByeLeaf
  }

  function FieldLeaves(refs: seq<SlotRef>, m: nat): (leaves: seq<Leaf>)
    ensures |leaves| == Pow2(m)
  {
    seq(Pow2(m), p requires 0 <= p < Pow2(m) => LeafFor(refs, SlotOrder(m)[p]))
  }

  function Entries(ids: seq<string>): seq<SlotRef> {
    seq(|ids|, i requires 0 <= i < |ids| => Concrete(ids[i]))
  }

  /** The better seed of round-one pair j. */
  ghost function Better(m: nat, j: nat): int
    requires m >= 1 && j < Pow2(m - 1)
  {
    SlotOrder(m - 1)[j]
  }

  /** Exactly the best 2^m - n seeds sit out round one. */
  ghost predicate GetsBye(n: nat, m: nat, l: int) {
    1 <= l <= Pow2(m) - n
  }

  /** Pair j holds its better label as an entrant, and is a match unless that seed gets a bye. */
  lemma PairOfField(refs: seq<SlotRef>, m: nat, j: nat)
    requires Fits(|refs|, m) && j < Pow2(m - 1)
    ensures var (leaves, l) := (FieldLeaves(refs, m), Better(m, j));
            && 1 <= l <= |refs| && PairAt(leaves, j)
            && leaves[2 * j] == Entrant(refs[l - 1])
            && leaves[2 * j + 1] == LeafFor(refs, Pow2(m) + 1 - l)
            && (leaves[2 * j + 1].ByeLeaf? <==> GetsBye(|refs|, m, l))
  {
    LabelRange(m - 1, j);
    SplitSlot(m, j);
  }

  lemma FieldIsBracket(refs: seq<SlotRef>, m: nat)
    requires Fits(|refs|, m)
    ensures IsBracket(FieldLeaves(refs, m), m)
  {
    forall j | 0 <= j < Pow2(m - 1)
      ensures !DoubleBye(FieldLeaves(refs, m), j)
    {
      PairOfField(refs, m, j);
    }
  }

  ghost function OneTo(n: nat): (s: set<int>)
    ensures |s| == n && forall l :: l in s <==> 1 <= l <= n
  {
    if n == 0 then {} else OneTo(n - 1) + {n}
  }

  /** Exactly n leaves hold entrants. */
  lemma FieldEntrants(refs: seq<SlotRef>, m: nat)
    requires Fits(|refs|, m)
    ensures EntrantCount(FieldLeaves(refs, m)) == |refs|
  {
    var n, order := |refs|, SlotOrder(m);
    var isEntrant := (l: int) => 1 <= l <= n;
    var id := (l: int) => l;
    CountSame(FieldLeaves(refs, m), order, HoldsEntrant(), isEntrant);
    forall k, l | 0 <= k < l < |order| ensures id(order[k]) != id(order[l]) {
      LabelsDiffer(m, k);
      LabelsDiffer(m, l);
    }
    forall y | y in OneTo(n) ensures Hits(order, isEntrant, id, y) {
      EveryLabelOccurs(m, y);
    }
    CountIsSize(order, isEntrant, id, OneTo(n));
  }

  /** Where the leaf of seed l (1-based) is. */
  lemma SeedLeaf(refs: seq<SlotRef>, m: nat, l: nat)
    requires Fits(|refs|, m) && 1 <= l <= |refs|
    ensures 0 <= LabelPosition(m, l) < Pow2(m)
    ensures FieldLeaves(refs, m)[LabelPosition(m, l)] == Entrant(refs[l - 1])
  {
    EveryLabelOccurs(m, l);
  }

  lemma FieldDistinct(refs: seq<SlotRef>, m: nat)
    requires Fits(|refs|, m) && Distinct(refs)
    ensures DistinctEntrants(FieldLeaves(refs, m))
  {
    var leaves := FieldLeaves(refs, m);
    forall p, q | 0 <= p < q < |leaves| && leaves[p].Entrant? && leaves[q].Entrant?
      ensures leaves[p].ref != leaves[q].ref
    {
      LabelsDiffer(m, p);
      LabelsDiffer(m, q);
      var a, b := SlotOrder(m)[p] - 1, SlotOrder(m)[q] - 1;
      assert a != b && (a < b || b < a);
    }
  }

  // ---- byes ----

  ghost predicate ByeFor(ids: seq<string>, m: nat, l: int, b: Bye, round: int) {
    GetsBye(|ids|, m, l) && l <= |ids| && b == Bye(ids[l - 1], round)
  }

  ghost predicate ReportsOnlyByes(ids: seq<string>, m: nat, byes: seq<Bye>, round: int) {
    forall i | 0 <= i < |byes| :: IsByeOfField(ids, m, byes[i], round)
  }

  ghost predicate IsByeOfField(ids: seq<string>, m: nat, b: Bye, round: int) {
    exists l :: ByeFor(ids, m, l, b, round)
  }

  ghost predicate Reports(ids: seq<string>, m: nat, byes: seq<Bye>, l: int, round: int) {
    exists i :: 0 <= i < |byes| && ByeFor(ids, m, l, byes[i], round)
  }

  ghost predicate ReportsByesBelow(ids: seq<string>, m: nat, byes: seq<Bye>, round: int, pairs: nat)
    requires Fits(|ids|, m) && pairs <= Pow2(m - 1)
  {
    forall j | 0 <= j < pairs && GetsBye(|ids|, m, Better(m, j)) ::
      Reports(ids, m, byes, Better(m, j), round)
  }

  lemma {:induction false} ByesBelow(ids: seq<string>, m: nat, offset: int, pairs: nat)
    requires Fits(|ids|, m) && pairs <= Pow2(m - 1)
    ensures var leaves := FieldLeaves(Entries(ids), m);
            var byes := ByesOf(leaves, offset, pairs);
            && |byes| + EntrantCount(leaves[..2 * pairs]) == 2 * pairs
            && ReportsOnlyByes(ids, m, byes, offset + 2)
            && ReportsByesBelow(ids, m, byes, offset + 2, pairs)
  {
    if pairs > 0 {
      var j := pairs - 1;
      var leaves := FieldLeaves(Entries(ids), m);
      var before := ByesOf(leaves, offset, j);
      ByesBelow(ids, m, offset, j);
      PairOfField(Entries(ids), m, j);
      EntrantsOfPair(leaves, j);
      var l := Better(m, j);
      var byes := ByesOf(leaves, offset, pairs);
      if GetsBye(|ids|, m, l) {
        assert byes == before + [Bye(ids[l - 1], offset + 2)];
        ReportOne(ids, m, before, offset + 2, j);
      } else {
        assert byes == before;
      }
    }
  }

  lemma ReportOne(ids: seq<string>, m: nat, before: seq<Bye>, round: int, j: nat)
    requires Fits(|ids|, m) && j < Pow2(m - 1) && GetsBye(|ids|, m, Better(m, j)) && Better(m, j) <= |ids|
    requires ReportsOnlyByes(ids, m, before, round) && ReportsByesBelow(ids, m, before, round, j)
    ensures var byes := before + [Bye(ids[Better(m, j) - 1], round)];
            ReportsOnlyByes(ids, m, byes, round) && ReportsByesBelow(ids, m, byes, round, j + 1)
  {
    var l := Better(m, j);
    var byes := before + [Bye(ids[l - 1], round)];
    assert ByeFor(ids, m, l, byes[|before|], round);
    forall k | 0 <= k < j + 1 && GetsBye(|ids|, m, Better(m, k)) ensures Reports(ids, m, byes, Better(m, k), round) {
      if k < j {
        var i :| 0 <= i < |before| && ByeFor(ids, m, Better(m, k), before[i], round);
        assert ByeFor(ids, m, Better(m, k), byes[i], round);
      }
    }
  }

  /** The bye report: one entry for each of the best 2^m - n seeds, into round two, and no other. */
  ghost predicate ByesProtectTopSeeds(ids: seq<string>, m: nat, byes: seq<Bye>, round: int) {
    && |byes| == Pow2(m) - |ids|
    && ReportsOnlyByes(ids, m, byes, round)
    && forall l | GetsBye(|ids|, m, l) :: Reports(ids, m, byes, l, round)
  }

  lemma FieldByes(ids: seq<string>, m: nat, offset: int)
    requires Fits(|ids|, m)
    ensures ByesProtectTopSeeds(ids, m, ByesOf(FieldLeaves(Entries(ids), m), offset, Pow2(m - 1)), offset + 2)
  {
    var leaves := FieldLeaves(Entries(ids), m);
    var byes := ByesOf(leaves, offset, Pow2(m - 1));
    ByesBelow(ids, m, offset, Pow2(m - 1));
    FieldEntrants(Entries(ids), m);
    assert leaves[..2 * Pow2(m - 1)] == leaves;
    forall l | GetsBye(|ids|, m, l) ensures Reports(ids, m, byes, l, offset + 2) {
      EveryLabelOccurs(m - 1, l);
      assert Better(m, LabelPosition(m - 1, l)) == l;
    }
  }

  // ---- the builder ----

  /** What a knockout over refs is: a tree of n - 1 matches in which each reference sits in one slot. */
  ghost predicate IsKnockout(refs: seq<SlotRef>, m: nat, offset: int, matches: seq<PlannedMatch>, nodes: seq<Node>) {
    && Fits(|refs|, m) && |matches| == |refs| - 1
    && Complete(FieldLeaves(refs, m), m, offset, matches, nodes)
    && Progression(matches) && Rooted(matches)
  }

  ghost predicate NoTBD(refs: seq<SlotRef>) {
    forall i | 0 <= i < |refs| :: refs[i] != TBD
  }

  /** Seed-slot order, phantom labels as byes. */
  method PlaceField(refs: seq<SlotRef>) returns (leaves: seq<Leaf>, size: nat, ghost m: nat)
    requires |refs| >= 2
    ensures Fits(|refs|, m) && size == Pow2(m) && leaves == FieldLeaves(refs, m)
    ensures |refs| <= size < 2 * |refs| && |leaves| == size
  {
    m := CeilLog(|refs|);
    CeilLogFits(|refs|);
    size := NextPow2(|refs|);
    var order := SeedSlotOrder(size);
    leaves := [];
    for pos := 0 to |order|
      invariant leaves == FieldLeaves(refs, m)[..pos]
    {
      LabelRange(m, pos);
      var seed := order[pos];
      leaves := leaves + [if seed <= |refs| then Entrant(refs[seed - 1]) else ByeLeaf];
    }
    assert leaves == FieldLeaves(refs, m);
  }

  lemma FieldComplete(refs: seq<SlotRef>, m: nat, offset: int, matches: seq<PlannedMatch>, nodes: seq<Node>)
    requires Fits(|refs|, m) && NoTBD(refs) && |refs| >= 2
    requires Built(FieldLeaves(refs, m), m, offset, matches, nodes, (m + 1, 0))
    requires |matches| == EntrantCount(FieldLeaves(refs, m)) - 1
    ensures IsKnockout(refs, m, offset, matches, nodes)
  {
    FieldIsBracket(refs, m);
    FieldEntrants(refs, m);
    BracketIsTree(FieldLeaves(refs, m), m, offset, matches, nodes);
  }

  /** The leaf placement and bracket construction shared by the knockout and the knockout phase. */
  method BuildField(refs: seq<SlotRef>, roundOffset: int)
    returns (matches: seq<PlannedMatch>, byes: seq<Bye>, size: nat, ghost m: nat, ghost nodes: seq<Node>)
    requires |refs| >= 2 && NoTBD(refs)
    ensures IsKnockout(refs, m, roundOffset, matches, nodes) && size == Pow2(m)
    ensures byes == ByesOf(FieldLeaves(refs, m), roundOffset, Pow2(m - 1))
    ensures |matches| == |refs| - 1 && Progression(matches) && Rooted(matches)
  {
    var leaves;
    leaves, size, m := PlaceField(refs);
    FieldIsBracket(refs, m);
    matches, byes, nodes := BuildBracket(leaves, roundOffset, m);
    FieldComplete(refs, m, roundOffset, matches, nodes);
  }

  method BuildKnockout(seeded: seq<Participant>)
    returns (matches: seq<PlannedMatch>, byes: seq<Bye>, ghost m: nat, ghost nodes: seq<Node>)
    requires |seeded| >= 2
    ensures IsKnockout(Entries(Ids(seeded)), m, 0, matches, nodes)
    ensures ByesProtectTopSeeds(Ids(seeded), m, byes, 2)
    ensures |matches| == |seeded| - 1 && Progression(matches) && Rooted(matches)
  {
    var size;
    matches, byes, size, m, nodes := BuildField(Entries(Ids(seeded)), 0);
    FieldByes(Ids(seeded), m, 0);
  }

  /** Every participant is written to exactly one slot of the bracket. */
  lemma ParticipantsPlacedOnce(refs: seq<SlotRef>, m: nat, offset: int, matches: seq<PlannedMatch>, nodes: seq<Node>, l: nat)
    requires IsKnockout(refs, m, offset, matches, nodes) && Distinct(refs) && 1 <= l <= |refs|
    ensures PlacedOnce(matches, refs[l - 1])
  {
    FieldDistinct(refs, m);
    SeedLeaf(refs, m, l);
    EntrantsPlacedOnce(FieldLeaves(refs, m), m, offset, matches, nodes, LabelPosition(m, l));
  }

  /** And each filled slot holds a participant. */
  lemma SlotsHoldParticipants(refs: seq<SlotRef>, m: nat, offset: int, matches: seq<PlannedMatch>, nodes: seq<Node>, t: nat, s: int)
    requires IsKnockout(refs, m, offset, matches, nodes)
    requires t < |matches| && (s == 1 || s == 2) && SlotOf(matches[t], s) != TBD
    ensures SlotOf(matches[t], s) in refs
  {
  }

  lemma KnockoutRound(refs: seq<SlotRef>, m: nat, offset: int, matches: seq<PlannedMatch>, nodes: seq<Node>, i: nat)
    requires IsKnockout(refs, m, offset, matches, nodes) && i < |matches|
    ensures matches[i].roundNumber == offset + nodes[i].0 && nodes[i].0 >= 1 && IsNode(FieldLeaves(refs, m), m, nodes[i])
    ensures Describes(matches[i], i, offset, FieldLeaves(refs, m), nodes[i])
  {
  }

  /** The best 2^m - n seeds enter in round two, everybody else in round one. */
  lemma SeedEntersInRound(refs: seq<SlotRef>, m: nat, offset: int, matches: seq<PlannedMatch>, nodes: seq<Node>, l: nat, t: nat, s: int)
    requires IsKnockout(refs, m, offset, matches, nodes) && Distinct(refs) && 1 <= l <= |refs|
    requires Holds(matches, t, s, refs[l - 1])
    ensures matches[t].roundNumber == offset + if GetsBye(|refs|, m, l) then 2 else 1
  {
    var p := LabelPosition(m, l);
    FieldDistinct(refs, m);
    SeedLeaf(refs, m, l);
    HolderIsPlace(FieldLeaves(refs, m), m, offset, matches, nodes, p, t, s);
    KnockoutRound(refs, m, offset, matches, nodes, t);
    SeedMeets(refs, m, l, p);
  }

  /** A seed's round-one opponent is missing exactly when he gets a bye. */
  lemma SeedMeets(refs: seq<SlotRef>, m: nat, l: nat, p: nat)
    requires Fits(|refs|, m) && Distinct(refs) && 1 <= l <= |refs| && p < Pow2(m)
    requires FieldLeaves(refs, m)[p] == Entrant(refs[l - 1])
    ensures PairAt(FieldLeaves(refs, m), p / 2) && (RealPair(FieldLeaves(refs, m), p / 2) <==> !GetsBye(|refs|, m, l))
  {
    var j := p / 2;
    assert p == 2 * j || p == 2 * j + 1;
    PairOfField(refs, m, j);
    var other := if p == 2 * j then Better(m, j) else Pow2(m) + 1 - Better(m, j);
    assert refs[other - 1] == refs[l - 1];
  }

  /** A round-one match is played by two seeds that add up to 2^m + 1. */
  lemma RoundOneSeeds(refs: seq<SlotRef>, m: nat, offset: int, matches: seq<PlannedMatch>, nodes: seq<Node>, i: nat) returns (a: int)
    requires IsKnockout(refs, m, offset, matches, nodes) && i < |matches| && matches[i].roundNumber == offset + 1
    ensures 1 <= a < Pow2(m) + 1 - a <= |refs| && m >= 1
    ensures matches[i].home == refs[a - 1] && matches[i].away == refs[Pow2(m) - a]
  {
    KnockoutRound(refs, m, offset, matches, nodes, i);
    a := PairSeeds(refs, m, offset, matches[i], i, nodes[i]);
  }

  lemma PairSeeds(refs: seq<SlotRef>, m: nat, offset: int, match_: PlannedMatch, i: int, nd: Node) returns (a: int)
    requires Fits(|refs|, m) && nd.0 == 1 && IsNode(FieldLeaves(refs, m), m, nd)
    requires Describes(match_, i, offset, FieldLeaves(refs, m), nd)
    ensures 1 <= a < Pow2(m) + 1 - a <= |refs|
    ensures match_.home == refs[a - 1] && match_.away == refs[Pow2(m) - a]
  {
    var j := nd.1;
    assert PairAt(FieldLeaves(refs, m), j);
    PairOfField(refs, m, j);
    a := Better(m, j);
    LabelRange(m - 1, j);
  }
}
