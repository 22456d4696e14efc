// In which plans match numbers follow the rounds (backend/internal/fixtures/generator.go, lines 70-77).

module RoundOrder {
  import opened FixtureModels
  import opened Circle
  import opened RoundRobin
  import B = Bracket
  import K = Knockout
  import opened Groups
  import opened QualifierDraw
  import GK = GroupKnockout

  /** Later matches are not in earlier rounds. */
  ghost predicate InRoundOrder(matches: seq<PlannedMatch>) {
    forall i, j | 0 <= i < j < |matches| :: matches[i].roundNumber <= matches[j].roundNumber
  }

  lemma KnockoutInOrder(refs: seq<SlotRef>, m: nat, offset: int, ms: seq<PlannedMatch>, nodes: seq<B.Node>)
    requires K.IsKnockout(refs, m, offset, ms, nodes)
    ensures InRoundOrder(ms)
  {
  }

  lemma LeagueInOrder(ids: seq<string>, legs: nat, matches: seq<PlannedMatch>,
                      leg0: seq<Oriented>, pairs: seq<Pair>, orient: map<(int, int), bool>)
    requires IsLeague(ids, legs, matches, leg0, pairs, orient)
    ensures InRoundOrder(matches)
  {
    forall i, j | 0 <= i < j < |matches| ensures matches[i].roundNumber <= matches[j].roundNumber {
      RoundsAreOrdered(ids, legs, matches, leg0, pairs, orient, i, j);
    }
  }

  // ---- the group stage ----

  /** Groups follow one another. */
  lemma {:induction false} StartsAfter(groups: seq<seq<Participant>>, legs: seq<GK.Leg>, a: nat, a': nat)
    requires a < a' <= |legs| <= |groups|
    ensures |GK.Stages(groups, legs, a)| + |legs[a].games| <= |GK.Stages(groups, legs, a')|
  {
    if a < a' - 1 { StartsAfter(groups, legs, a, a' - 1); }
  }

  lemma OrderOfPlaces(groups: seq<seq<Participant>>, legs: seq<GK.Leg>, k: nat, i: int, a: nat, b: nat, j: int, a': nat, b': nat)
    requires k <= |legs| <= |groups| && GK.At(groups, legs, k, i, a, b) && GK.At(groups, legs, k, j, a', b')
    ensures i < j <==> a < a' || (a == a' && b < b')
  {
    if a < a' { StartsAfter(groups, legs, a, a'); }
    if a' < a { StartsAfter(groups, legs, a', a); }
  }

  /** Within a leg the rounds go up; a group of two has one round, a larger one plays a second. */
  lemma GamesInOrder(n: nat, leg: GK.Leg, b: nat, b': nat)
    requires IsLeg(n, leg.games, leg.pairs, leg.orient) && b < |leg.games| && b' < |leg.games|
    ensures b < b' ==> leg.games[b].round <= leg.games[b'].round
    ensures 1 <= leg.games[b].round && n >= 2 && (n == 2 ==> leg.games[b].round == 1)
  {
  }

  /** Somebody plays in every round of a leg. */
  lemma GameInRound(n: nat, leg: GK.Leg, r: int) returns (b: nat)
    requires IsLeg(n, leg.games, leg.pairs, leg.orient) && n >= 2 && 1 <= r < EvenCount(n)
    ensures b < |leg.games| && leg.games[b].round == r
  {
    var x := if n % 2 == 1 && r == RoundFor(n + 1, 0, n) then 1 else 0;
    if n % 2 == 1 { RestsApart(n, r); }
    assert PlaysIn(leg.pairs, r, x);
    b :| 0 <= b < |leg.pairs| && leg.pairs[b].round == r && Involves(leg.pairs[b], x);
    assert leg.games[b] == Orient(leg.orient, leg.pairs[b]);
  }

  /** Participants 0 and 1 do not rest in the same round. */
  lemma RestsApart(n: nat, r: int)
    requires n >= 2 && n % 2 == 1
    ensures !(r == RoundFor(n + 1, 0, n) && r == RoundFor(n + 1, 1, n))
  {
  }

  /** A group with a second round is followed by a group with a first one. */
  ghost predicate StepsBack(groups: seq<seq<Participant>>, a: int, a': int) {
    0 <= a < a' < |groups| && |groups[a]| >= 3 && |groups[a']| >= 2
  }

  lemma StageOrder(groups: seq<seq<Participant>>, legs: seq<GK.Leg>, k: nat)
    requires GK.AreGroupLegs(groups, legs) && k == |legs| == |groups|
    ensures InRoundOrder(GK.Stages(groups, legs, k)) <==> forall a, a' :: !StepsBack(groups, a, a')
  {
    if forall a, a' :: !StepsBack(groups, a, a') {
      forall i, j | 0 <= i < j < |GK.Stages(groups, legs, k)|
        ensures GK.Stages(groups, legs, k)[i].roundNumber <= GK.Stages(groups, legs, k)[j].roundNumber
      {
        TwoInOrder(groups, legs, k, i, j);
      }
    } else {
      var a, a' :| StepsBack(groups, a, a');
      OutOfOrder(groups, legs, k, a, a');
    }
  }

  lemma TwoInOrder(groups: seq<seq<Participant>>, legs: seq<GK.Leg>, k: nat, i: nat, j: nat)
    requires GK.AreGroupLegs(groups, legs) && k == |legs| == |groups| && i < j < |GK.Stages(groups, legs, k)|
    requires forall a, a' :: !StepsBack(groups, a, a')
    ensures GK.Stages(groups, legs, k)[i].roundNumber <= GK.Stages(groups, legs, k)[j].roundNumber
  {
    var a, b := GK.StageAt(groups, legs, k, i);
    var a', b' := GK.StageAt(groups, legs, k, j);
    OrderOfPlaces(groups, legs, k, i, a, b, j, a', b');
    GamesInOrder(|groups[a']|, legs[a'], b', b');
    if a == a' {
      GamesInOrder(|groups[a]|, legs[a], b, b');
    } else {
      GamesInOrder(|groups[a]|, legs[a], b, b);
      assert !StepsBack(groups, a, a');
    }
  }

  lemma OutOfOrder(groups: seq<seq<Participant>>, legs: seq<GK.Leg>, k: nat, a: nat, a': nat)
    requires GK.AreGroupLegs(groups, legs) && k == |legs| == |groups| && StepsBack(groups, a, a')
    ensures !InRoundOrder(GK.Stages(groups, legs, k))
  {
    assert GK.IsGroupLeg(groups[a], legs[a]) && GK.IsGroupLeg(groups[a'], legs[a']);
    var b := GameInRound(|groups[a]|, legs[a], 2);
    var b' := GameInRound(|groups[a']|, legs[a'], 1);
    var i := GK.StageOf(groups, legs, k, a, b);
    var j := GK.StageOf(groups, legs, k, a', b');
    OrderOfPlaces(groups, legs, k, i, a, b, j, a', b');
  }

  lemma GroupSize(seeded: seq<Participant>, groups: seq<seq<Participant>>, g: nat, k: nat, c: nat, pos: nat)
    requires g > 0 && k < g && DealtUpTo(seeded, groups, g, |seeded|) && |seeded| == c * g + pos && pos < g
    ensures |groups[k]| == c + if Turn(c, g, k) < pos then 1 else 0
  {
    assert HoldsMembers(seeded, groups[k], g, k, |seeded|);
    MemberCount(g, k, |seeded|, c, pos);
  }

  lemma TwoPasses(n: nat, g: nat, c: nat, pos: nat)
    requires pos < g && n == c * g + pos
    ensures n <= 2 * g <==> c < 2 || (c == 2 && pos == 0)
  {
    if c >= 3 { assert c * g == 3 * g + (c - 3) * g; }
  }

  /** With more than two participants per group on average the first group has a second round, and the group
      after it a first one. */
  lemma StepsBackIff(seeded: seq<Participant>, groups: seq<seq<Participant>>, g: nat)
    requires g >= 2 && DealtUpTo(seeded, groups, g, |seeded|)
    ensures (forall a, a' :: !StepsBack(groups, a, a')) <==> |seeded| <= 2 * g
  {
    var c, pos := |seeded| / g, |seeded| % g;
    assert |seeded| == c * g + pos;
    TwoPasses(|seeded|, g, c, pos);
    if |seeded| <= 2 * g {
      forall a | 0 <= a < |groups| ensures |groups[a]| <= 2 { GroupSize(seeded, groups, g, a, c, pos); }
    } else {
      GroupSize(seeded, groups, g, 0, c, pos);
      GroupSize(seeded, groups, g, 1, c, pos);
      assert StepsBack(groups, 0, 1);
    }
  }

  /** A group_knockout plan is numbered in round order exactly when there are at most two participants per
      group on average. */
  lemma GroupPlanInOrderIff(seeded: seq<Participant>, g: nat, q: nat, matches: seq<PlannedMatch>,
                            groups: seq<seq<Participant>>, legs: seq<GK.Leg>, maxRound: int,
                            ko: seq<PlannedMatch>, m: nat, nodes: seq<B.Node>)
    requires GK.IsGroupKnockout(seeded, g, q, matches, groups, legs, maxRound, ko, m, nodes)
    ensures InRoundOrder(matches) <==> |seeded| <= 2 * g
  {
    var stages := GK.Stages(groups, legs, g);
    StepsBackIff(seeded, groups, g);
    StageOrder(groups, legs, g);
    KnockoutInOrder(Qualifiers(g, FieldOf(g, q)), m, maxRound, ko, nodes);
    GK.GroupPlanIsWellFormed(seeded, g, q, matches, groups, legs, maxRound, ko, m, nodes);
    OrderOfParts(stages, ko, matches);
  }

  /** Six participants in two groups: the second group's round one comes after the first group's round three. */
  lemma OutOfOrderExample(seeded: seq<Participant>, matches: seq<PlannedMatch>, groups: seq<seq<Participant>>,
                          legs: seq<GK.Leg>, maxRound: int, ko: seq<PlannedMatch>, m: nat, nodes: seq<B.Node>)
    requires |seeded| == 6 && GK.IsGroupKnockout(seeded, 2, 1, matches, groups, legs, maxRound, ko, m, nodes)
    ensures !InRoundOrder(matches)
  {
    GroupPlanInOrderIff(seeded, 2, 1, matches, groups, legs, maxRound, ko, m, nodes);
  }

  lemma OrderOfParts(stages: seq<PlannedMatch>, ko: seq<PlannedMatch>, matches: seq<PlannedMatch>)
    requires matches == stages + GK.ShiftAll(ko, |stages|) && InRoundOrder(ko)
    requires forall i, j | 0 <= i < |stages| <= j < |matches| :: matches[i].roundNumber < matches[j].roundNumber
    ensures InRoundOrder(matches) <==> InRoundOrder(stages)
  {
    if InRoundOrder(stages) {
      forall i, j | 0 <= i < j < |matches| ensures matches[i].roundNumber <= matches[j].roundNumber {
        if j < |stages| {
          assert stages[i].roundNumber <= stages[j].roundNumber;
        } else if i >= |stages| {
          assert ko[i - |stages|].roundNumber <= ko[j - |stages|].roundNumber;
        }
      }
    }
    if InRoundOrder(matches) {
      forall i, j | 0 <= i < j < |stages| ensures stages[i].roundNumber <= stages[j].roundNumber {
        assert matches[i] == stages[i] && matches[j] == stages[j];
      }
    }
  }
}
