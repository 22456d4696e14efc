// The stored group stage of a group_knockout tournament: who plays in it, and what its standings list
// (backend/internal/fixtures/groupknockout.go, lines 21-83; backend/internal/fixturegen/repository.go, lines 224-346).

module FinishedGroups {
  import opened FixtureModels
  import opened Seeding
  import opened Circle
  import opened RoundRobin
  import B = Bracket
  import opened BracketTree
  import opened Groups
  import GK = GroupKnockout
  import Gen = Generator
  import opened MatchStore
  import P = PlanInsertion
  import opened Qualification

  /** A stored group_knockout plan and the parts it was built from. */
  datatype GroupDraw = GroupDraw(
    seeded: seq<Participant>, g: nat, q: nat, matches: seq<PlannedMatch>, groups: seq<seq<Participant>>, legs: seq<GK.Leg>,
    maxRound: int, ko: seq<PlannedMatch>, m: nat, nodes: seq<B.Node>, tournament: Uuid, teams: bool, keys: seq<Uuid>)

  ghost predicate IsGroupDraw(d: GroupDraw) {
    && UniqueIds(d.seeded) && Distinct(d.keys) && |d.keys| == |d.matches|
    && GK.IsGroupKnockout(d.seeded, d.g, d.q, d.matches, d.groups, d.legs, d.maxRound, d.ko, d.m, d.nodes)
  }

  /** How many of the plan's matches are group matches. */
  ghost function Base(d: GroupDraw): int { |d.matches| - |d.ko| }

  // ---- who plays in which group ----

  /** Every member of a group of at least two has a game. */
  lemma GameOf(n: nat, leg: GK.Leg, x: nat) returns (b: nat)
    requires IsLeg(n, leg.games, leg.pairs, leg.orient) && x < n && n >= 2
    ensures b < |leg.games| && (leg.games[b].home == x || leg.games[b].away == x)
  {
    var y := if x == 0 then 1 else 0;
    assert Met(leg.pairs, if x < y then x else y, if x < y then y else x);
    b :| 0 <= b < |leg.pairs| && Joins(leg.pairs[b], if x < y then x else y, if x < y then y else x);
    assert leg.games[b] == Orient(leg.orient, leg.pairs[b]);
  }

  /** A game needs two different members. */
  lemma GameNeedsTwo(n: nat, leg: GK.Leg, b: nat)
    requires IsLeg(n, leg.games, leg.pairs, leg.orient) && b < |leg.games|
    ensures n >= 2 && 0 <= leg.games[b].home < n && 0 <= leg.games[b].away < n
  {
  }

  ghost predicate InGroup(d: GroupDraw, k: nat, p: string) {
    k < |d.groups| && exists a :: 0 <= a < |d.groups[k]| && d.groups[k][a].id == p
  }

  /** p has a match in the group with this label. */
  ghost predicate HasMatch(d: GroupDraw, l: string, p: string) {
    exists i :: PlannedFor(d, i, l, p)
  }

  ghost predicate ShowsIn(m: PlannedMatch, l: string, p: string) {
    m.groupLabel == l && (m.home == Concrete(p) || m.away == Concrete(p))
  }

  ghost predicate PlannedFor(d: GroupDraw, i: int, l: string, p: string) {
    0 <= i < Base(d) && i < |d.matches| && ShowsIn(d.matches[i], l, p)
  }

  lemma BaseIsStages(d: GroupDraw)
    requires IsGroupDraw(d)
    ensures GK.AreGroupLegs(d.groups, d.legs) && |d.legs| == d.g == |d.groups|
    ensures Base(d) == |GK.Stages(d.groups, d.legs, d.g)| >= 0
    ensures forall i | 0 <= i < Base(d) :: d.matches[i] == GK.Stages(d.groups, d.legs, d.g)[i]
    ensures forall i | 0 <= i < |d.ko| :: d.matches[Base(d) + i] == GK.Shift(d.ko[i], Base(d))
  {
  }

  /** Exactly the members of groups of two or more have group matches. */
  lemma MembersPlay(d: GroupDraw, k: nat, p: string)
    requires IsGroupDraw(d) && k < d.g
    ensures HasMatch(d, GroupLabel(k), p) <==> |d.groups[k]| >= 2 && InGroup(d, k, p)
  {
    BaseIsStages(d);
    if HasMatch(d, GroupLabel(k), p) { MatchShowsMember(d, k, p); }
    if |d.groups[k]| >= 2 && InGroup(d, k, p) { MemberShowsMatch(d, k, p); }
  }

  lemma MatchShowsMember(d: GroupDraw, k: nat, p: string)
    requires IsGroupDraw(d) && k < d.g == |d.groups| && HasMatch(d, GroupLabel(k), p)
    ensures |d.groups[k]| >= 2 && InGroup(d, k, p)
  {
    BaseIsStages(d);
    var i :| PlannedFor(d, i, GroupLabel(k), p);
    StageShowsMember(d, k, i, p);
  }

  lemma StageShowsMember(d: GroupDraw, k: nat, i: nat, p: string)
    requires GK.AreGroupLegs(d.groups, d.legs) && k < |d.legs| == |d.groups|
    requires i < |GK.Stages(d.groups, d.legs, |d.legs|)|
    requires ShowsIn(GK.Stages(d.groups, d.legs, |d.legs|)[i], GroupLabel(k), p)
    ensures |d.groups[k]| >= 2 && InGroup(d, k, p)
  {
    var a, b := GK.StageAt(d.groups, d.legs, |d.legs|, i);
    GroupLabelsDiffer(a, k);
    assert GK.IsGroupLeg(d.groups[k], d.legs[k]);
    GameNeedsTwo(|d.groups[k]|, d.legs[k], b);
    var o := d.legs[k].games[b];
    assert d.groups[k][o.home].id == p || d.groups[k][o.away].id == p;
  }

  lemma MemberShowsMatch(d: GroupDraw, k: nat, p: string)
    requires IsGroupDraw(d) && k < d.g == |d.groups| && |d.groups[k]| >= 2 && InGroup(d, k, p)
    ensures HasMatch(d, GroupLabel(k), p)
  {
    BaseIsStages(d);
    var i := StageOfMember(d, k, p);
    assert PlannedFor(d, i, GroupLabel(k), p);
  }

  lemma StageOfMember(d: GroupDraw, k: nat, p: string) returns (i: nat)
    requires GK.AreGroupLegs(d.groups, d.legs) && k < |d.legs| == |d.groups| && |d.groups[k]| >= 2 && InGroup(d, k, p)
    ensures i < |GK.Stages(d.groups, d.legs, |d.legs|)|
    ensures ShowsIn(GK.Stages(d.groups, d.legs, |d.legs|)[i], GroupLabel(k), p)
  {
    var x :| 0 <= x < |d.groups[k]| && d.groups[k][x].id == p;
    assert GK.IsGroupLeg(d.groups[k], d.legs[k]);
    var b := GameOf(|d.groups[k]|, d.legs[k], x);
    i := GK.StageOf(d.groups, d.legs, |d.legs|, k, b);
  }

  // ---- nobody is in two groups ----

  lemma GroupsDisjoint(d: GroupDraw, k: nat, k': nat, p: string)
    requires IsGroupDraw(d) && k < d.g && k' < d.g && InGroup(d, k, p) && InGroup(d, k', p)
    ensures k == k'
  {
    var n := |d.seeded|;
    assert HoldsMembers(d.seeded, d.groups[k], d.g, k, n) && HoldsMembers(d.seeded, d.groups[k'], d.g, k', n);
    var a :| 0 <= a < |d.groups[k]| && d.groups[k][a].id == p;
    var b :| 0 <= b < |d.groups[k']| && d.groups[k'][b].id == p;
    MembersIncrease(d.g, k, n);
    MembersIncrease(d.g, k', n);
    var x, y := Members(d.g, k, n)[a], Members(d.g, k', n)[b];
    MembersAre(d.g, k, n, x);
    MembersAre(d.g, k', n, y);
    SameSeed(d.seeded, x, y);
  }

  lemma SameSeed(seeded: seq<Participant>, x: nat, y: nat)
    requires UniqueIds(seeded) && x < |seeded| && y < |seeded| && seeded[x].id == seeded[y].id
    ensures x == y
  {
  }

  lemma GroupIdsDiffer(d: GroupDraw, k: nat)
    requires IsGroupDraw(d) && k < d.g
    ensures |d.groups| == d.g && UniqueIds(d.groups[k]) && |d.groups[k]| >= d.q
  {
    var n := |d.seeded|;
    assert HoldsMembers(d.seeded, d.groups[k], d.g, k, n);
    MembersIncrease(d.g, k, n);
    forall a, b | 0 <= a < b < |d.groups[k]| ensures d.groups[k][a].id != d.groups[k][b].id {
      var x, y := Members(d.g, k, n)[a], Members(d.g, k, n)[b];
      assert x < y && d.groups[k][a] == d.seeded[x] && d.groups[k][b] == d.seeded[y];
    }
  }

  // ---- the stored tournament before its qualifiers are resolved ----

  /** A stored group match: its participants and the absence of a link never change. */
  ghost predicate IsGroupRow(d: GroupDraw, row: Row, i: int)
    requires 0 <= i < |d.matches|
  {
    && row.tournament == d.tournament && row.nextMatch.None?
    && row.home == P.SlotColumns(d.teams, d.matches[i].home) && row.away == P.SlotColumns(d.teams, d.matches[i].away)
  }

  /** A stored knockout match: as generated, or cancelled. */
  ghost predicate IsWaitingRow(d: GroupDraw, row: Row, i: int)
    requires 0 <= i < |d.matches| == |d.keys|
  {
    row.(status := Scheduled) == P.PlanRow(d.matches, d.tournament, d.teams, d.keys, i) && (row.status.Scheduled? || row.status.Cancelled?)
  }

  /** The card of match i: numbers are assigned after the plan is built. */
  ghost function CardOf(d: GroupDraw, i: int): Card
    requires 0 <= i < |d.matches|
  {
    P.CardFor(Gen.Numbered(d.matches)[i])
  }

  ghost predicate HasRow(d: GroupDraw, rows: Rows, cards: Cards, i: int)
    requires 0 <= i < |d.matches| == |d.keys|
  {
    && d.keys[i] in rows && d.keys[i] in cards && cards[d.keys[i]] == CardOf(d, i)
    && if i < Base(d) then IsGroupRow(d, rows[d.keys[i]], i) else IsWaitingRow(d, rows[d.keys[i]], i)
  }

  /** Hand-made matches of the tournament are outside the group stage and await nobody. */
  ghost predicate IsPlain(card: Card) { card.groupLabel == "" && card.homeQualifier.None? && card.awayQualifier.None? }

  ghost predicate IsForeign(d: GroupDraw, rows: Rows, cards: Cards, id: Uuid)
    requires id in rows
  {
    && (id in cards && rows[id].tournament == d.tournament ==> IsPlain(cards[id]))
    && (rows[id].nextMatch.Some? ==> rows[id].nextMatch.value !in d.keys)
  }

  /** The group stage is being played: from generation until the qualifiers are resolved. */
  ghost predicate InGroupStage(d: GroupDraw, rows: Rows, cards: Cards) {
    IsGroupDraw(d) && GroupTable(d, rows, cards)
  }

  ghost predicate GroupTable(d: GroupDraw, rows: Rows, cards: Cards) {
    && |d.keys| == |d.matches|
    && (forall i | 0 <= i < |d.keys| :: HasRow(d, rows, cards, i))
    && (forall id | id in rows && id !in d.keys :: IsForeign(d, rows, cards, id))
  }

  predicate IsOver(row: Row) { row.status.Completed? || row.status.Walkover? || row.status.Cancelled? }

  /** Match i counts for the standings: a cancelled match does not. */
  ghost predicate Concluded(d: GroupDraw, rows: Rows, i: int) {
    0 <= i < |d.keys| && d.keys[i] in rows && (rows[d.keys[i]].status.Completed? || rows[d.keys[i]].status.Walkover?)
  }

  ghost predicate GroupsOver(d: GroupDraw, rows: Rows) {
    forall i | 0 <= i < |d.keys| && i < Base(d) :: d.keys[i] in rows && IsOver(rows[d.keys[i]])
  }

  /** No group match is open, and none was cancelled. */
  ghost predicate AllConcluded(d: GroupDraw, rows: Rows) {
    forall i | 0 <= i < |d.keys| && i < Base(d) :: Concluded(d, rows, i)
  }

  lemma ConcludedIsOver(d: GroupDraw, rows: Rows)
    requires AllConcluded(d, rows)
    ensures GroupsOver(d, rows)
  {
    forall i | 0 <= i < |d.keys| && i < Base(d) ensures d.keys[i] in rows && IsOver(rows[d.keys[i]]) {
      assert Concluded(d, rows, i);
    }
  }

  /** p has a concluded match in the group with this label. */
  ghost predicate HasPlayed(d: GroupDraw, rows: Rows, l: string, p: string) {
    exists i :: PlannedFor(d, i, l, p) && Concluded(d, rows, i)
  }

  /** ids is a query over the whole table. */
  ghost predicate Covers(ids: seq<Uuid>, rows: Rows) {
    Distinct(ids) && forall id :: id in ids <==> id in rows
  }

  lemma KeyIndex(d: GroupDraw, id: Uuid) returns (i: nat)
    requires id in d.keys
    ensures i < |d.keys| && d.keys[i] == id
  {
    i :| 0 <= i < |d.keys| && d.keys[i] == id;
  }

  /** A match of the plan has a group label exactly when it is a group match. */
  lemma LabelsOf(d: GroupDraw, i: nat)
    requires IsGroupDraw(d) && i < |d.matches|
    ensures d.matches[i].groupLabel != "" <==> i < Base(d)
    ensures i < Base(d) ==> d.matches[i].home.Concrete? && d.matches[i].away.Concrete?
    ensures i >= Base(d) ==> 0 <= i - Base(d) < |d.ko| && d.matches[i] == GK.Shift(d.ko[i - Base(d)], Base(d))
  {
    BaseIsStages(d);
    if i < Base(d) {
      assert GK.IsGroupMatch(GK.Stages(d.groups, d.legs, d.g)[i], i);
    } else {
      KnockoutLabel(d, i - Base(d));
    }
  }

  lemma KnockoutLabel(d: GroupDraw, j: nat)
    requires IsGroupDraw(d) && j < |d.ko|
    ensures d.ko[j].groupLabel == ""
  {
  }

  /** What the queries need to know of the plan. */
  ghost predicate LabelsFit(d: GroupDraw) {
    forall i | 0 <= i < |d.matches| :: LabelFits(d, i)
  }

  ghost predicate LabelFits(d: GroupDraw, i: int)
    requires 0 <= i < |d.matches|
  {
    && (d.matches[i].groupLabel != "" <==> i < Base(d))
    && (i < Base(d) ==> d.matches[i].home.Concrete? && d.matches[i].away.Concrete?)
  }

  lemma DrawLabels(d: GroupDraw)
    requires IsGroupDraw(d)
    ensures LabelsFit(d)
  {
    forall i | 0 <= i < |d.matches| ensures LabelFits(d, i) { LabelsOf(d, i); }
  }

  /** The rows of the group stage are exactly the plan's group matches. */
  lemma StageRow(d: GroupDraw, rows: Rows, cards: Cards, id: Uuid) returns (i: nat)
    requires LabelsFit(d) && GroupTable(d, rows, cards) && OfGroupStage(rows, cards, d.tournament, id)
    ensures i < |d.keys| && d.keys[i] == id && i < Base(d)
  {
    assert id in d.keys by {
      assert id in d.keys || IsForeign(d, rows, cards, id);
    }
    i := KeyIndex(d, id);
    assert HasRow(d, rows, cards, i) && LabelFits(d, i);
  }

  lemma RowOfStage(d: GroupDraw, rows: Rows, cards: Cards, i: nat)
    requires LabelsFit(d) && GroupTable(d, rows, cards) && i < |d.keys| && i < Base(d)
    ensures OfGroupStage(rows, cards, d.tournament, d.keys[i])
    ensures cards[d.keys[i]].groupLabel == d.matches[i].groupLabel
    ensures rows[d.keys[i]].home == P.SlotColumns(d.teams, d.matches[i].home) && rows[d.keys[i]].away == P.SlotColumns(d.teams, d.matches[i].away)
    ensures d.matches[i].home.Concrete? && d.matches[i].away.Concrete?
  {
    assert HasRow(d, rows, cards, i) && LabelFits(d, i);
  }

  /** The group stage counts as finished exactly when every group match is completed, walked over or cancelled. */
  lemma FinishedIff(d: GroupDraw, rows: Rows, cards: Cards, ids: seq<Uuid>)
    requires LabelsFit(d) && GroupTable(d, rows, cards) && Covers(ids, rows)
    ensures Select(ids, id => Unfinished(rows, cards, d.tournament, id)) == [] <==> GroupsOver(d, rows)
  {
    var open := Select(ids, id => Unfinished(rows, cards, d.tournament, id));
    Selects(ids, id => Unfinished(rows, cards, d.tournament, id));
    if open != [] {
      assert open[0] in open;
      var i := StageRow(d, rows, cards, open[0]);
    }
    if !GroupsOver(d, rows) {
      var i :| 0 <= i < |d.keys| && i < Base(d) && !(d.keys[i] in rows && IsOver(rows[d.keys[i]]));
      RowOfStage(d, rows, cards, i);
      assert d.keys[i] in open;
    }
  }

  /** The concluded group matches show who has played in which group. */
  lemma MembersListed(d: GroupDraw, rows: Rows, cards: Cards, ids: seq<Uuid>, l: string, p: string)
    requires LabelsFit(d) && GroupTable(d, rows, cards) && Covers(ids, rows)
    ensures var listed := PlayedGroupMatches(rows, cards, d.tournament, ids);
            MemberUpTo(rows, cards, listed, |listed|, l, p) <==> HasPlayed(d, rows, l, p)
  {
    var listed := PlayedGroupMatches(rows, cards, d.tournament, ids);
    QueriesSelect(rows, cards, d.tournament, ids);
    if MemberUpTo(rows, cards, listed, |listed|, l, p) {
      var a :| 0 <= a < |listed| && PlayedFor(rows, cards, listed[a], l, p);
      assert listed[a] in listed;
      var i := StageRow(d, rows, cards, listed[a]);
      PlannedIsPlayed(d, rows, cards, i, l, p);
      assert PlannedFor(d, i, l, p) && Concluded(d, rows, i);
    }
    if HasPlayed(d, rows, l, p) {
      var i :| PlannedFor(d, i, l, p) && Concluded(d, rows, i);
      PlannedIsPlayed(d, rows, cards, i, l, p);
      RowOfStage(d, rows, cards, i);
      var id := d.keys[i];
      assert id in ids && Counts(rows, cards, d.tournament, id);
      var a :| 0 <= a < |listed| && listed[a] == id;
    }
  }

  lemma PlannedIsPlayed(d: GroupDraw, rows: Rows, cards: Cards, i: nat, l: string, p: string)
    requires LabelsFit(d) && GroupTable(d, rows, cards) && i < |d.keys| && i < Base(d)
    ensures PlayedFor(rows, cards, d.keys[i], l, p) <==> PlannedFor(d, i, l, p)
  {
    RowOfStage(d, rows, cards, i);
    PlayedAsPlanned(d, rows[d.keys[i]], i, p);
  }

  lemma PlayedAsPlanned(d: GroupDraw, row: Row, i: nat, p: string)
    requires i < |d.matches| && d.matches[i].home.Concrete? && d.matches[i].away.Concrete?
    requires row.home == P.SlotColumns(d.teams, d.matches[i].home) && row.away == P.SlotColumns(d.teams, d.matches[i].away)
    ensures PlayedBy(row, p) <==> d.matches[i].home == Concrete(p) || d.matches[i].away == Concrete(p)
  {
  }

  // ---- the ranking has everybody who played, once ----

  ghost predicate RankedBy(d: GroupDraw, rows: Rows, ranked: Ranking, k: nat) {
    var l := GroupLabel(k);
    Distinct(Places(ranked, l)) && forall p :: p in Places(ranked, l) <==> HasPlayed(d, rows, l, p)
  }

  /** The standings the transaction computes rank, in each group, exactly the members with a concluded match. */
  lemma GroupIsRanked(d: GroupDraw, rows: Rows, cards: Cards, ids: seq<Uuid>, ranked: Ranking, k: nat)
    requires InGroupStage(d, rows, cards) && Covers(ids, rows)
    requires RanksGroups(rows, cards, PlayedGroupMatches(rows, cards, d.tournament, ids), ranked)
    ensures RankedBy(d, rows, ranked, k)
  {
    var l, listed := GroupLabel(k), PlayedGroupMatches(rows, cards, d.tournament, ids);
    DrawLabels(d);
    forall p ensures p in Places(ranked, l) <==> HasPlayed(d, rows, l, p) {
      MembersListed(d, rows, cards, ids, l, p);
      assert MemberUpTo(rows, cards, listed, |listed|, l, p) <==> l in ranked && p in ranked[l];
    }
  }

  /** The members of group k with a concluded match. */
  ghost function PlayersOf(d: GroupDraw, rows: Rows, k: nat): set<string>
    requires k < |d.groups|
  {
    set a | 0 <= a < |d.groups[k]| && HasPlayed(d, rows, GroupLabel(k), d.groups[k][a].id) :: d.groups[k][a].id
  }

  lemma PlayersAre(d: GroupDraw, rows: Rows, k: nat, p: string)
    requires IsGroupDraw(d) && k < d.g == |d.groups|
    ensures p in PlayersOf(d, rows, k) <==> HasPlayed(d, rows, GroupLabel(k), p)
    ensures HasPlayed(d, rows, GroupLabel(k), p) ==> InGroup(d, k, p)
  {
    if HasPlayed(d, rows, GroupLabel(k), p) {
      var i :| PlannedFor(d, i, GroupLabel(k), p) && Concluded(d, rows, i);
      MembersPlay(d, k, p);
      var a :| 0 <= a < |d.groups[k]| && d.groups[k][a].id == p;
    }
  }

  lemma PlacesCount(d: GroupDraw, rows: Rows, ranked: Ranking, k: nat)
    requires IsGroupDraw(d) && k < d.g == |d.groups| && RankedBy(d, rows, ranked, k)
    ensures |Places(ranked, GroupLabel(k))| == |PlayersOf(d, rows, k)|
  {
    var places := Places(ranked, GroupLabel(k));
    DistinctSize(places);
    forall p ensures p in places <==> p in PlayersOf(d, rows, k) { PlayersAre(d, rows, k, p); }
    assert (set p | p in places) == PlayersOf(d, rows, k);
  }

  /** Every group has at least q members with a concluded match. */
  ghost predicate EnoughPlayed(d: GroupDraw, rows: Rows) {
    |d.groups| == d.g && forall k | 0 <= k < d.g :: |PlayersOf(d, rows, k)| >= d.q
  }

  ghost predicate GroupsOfTwo(d: GroupDraw) {
    forall k | 0 <= k < |d.groups| :: |d.groups[k]| >= 2
  }

  /** When no group match was cancelled, enough have played exactly when every group has at least two members. */
  lemma EnoughWithoutCancellation(d: GroupDraw, rows: Rows)
    requires IsGroupDraw(d) && AllConcluded(d, rows)
    ensures EnoughPlayed(d, rows) <==> GroupsOfTwo(d)
  {
    Sizes(d);
    forall k | 0 <= k < d.g ensures |PlayersOf(d, rows, k)| >= d.q <==> |d.groups[k]| >= 2 {
      AllPlayed(d, rows, k);
    }
  }

  lemma Sizes(d: GroupDraw)
    requires IsGroupDraw(d)
    ensures d.g >= 2 && d.q >= 1 && |d.groups| == d.g && forall k | 0 <= k < d.g :: |d.groups[k]| >= d.q
  {
  }

  lemma MemberPlayed(d: GroupDraw, rows: Rows, k: nat, p: string)
    requires IsGroupDraw(d) && k < d.g == |d.groups| && AllConcluded(d, rows)
    ensures p in PlayersOf(d, rows, k) <==> |d.groups[k]| >= 2 && InGroup(d, k, p)
  {
    PlayersAre(d, rows, k, p);
    MembersPlay(d, k, p);
    if HasMatch(d, GroupLabel(k), p) {
      var i :| PlannedFor(d, i, GroupLabel(k), p);
      assert Concluded(d, rows, i);
    }
  }

  lemma AllPlayed(d: GroupDraw, rows: Rows, k: nat)
    requires IsGroupDraw(d) && k < d.g == |d.groups| && AllConcluded(d, rows)
    ensures |PlayersOf(d, rows, k)| == if |d.groups[k]| >= 2 then |d.groups[k]| else 0
  {
    var members := Ids(d.groups[k]);
    GroupIdsDiffer(d, k);
    forall p ensures p in PlayersOf(d, rows, k) <==> |d.groups[k]| >= 2 && InGroup(d, k, p) { MemberPlayed(d, rows, k, p); }
    if |d.groups[k]| >= 2 {
      DistinctSize(members);
      forall p ensures p in members <==> InGroup(d, k, p) {
        if InGroup(d, k, p) {
          var a :| 0 <= a < |d.groups[k]| && d.groups[k][a].id == p;
          assert members[a] == p;
        }
      }
      assert (set p | p in members) == PlayersOf(d, rows, k);
    } else {
      assert PlayersOf(d, rows, k) == {};
    }
  }

  /** Cancelling all matches of one group leaves nobody to rank, however large the group is. */
  lemma CancelledGroupHasNobody(d: GroupDraw, rows: Rows, k: nat)
    requires IsGroupDraw(d) && k < d.g == |d.groups|
    requires forall i | 0 <= i < |d.keys| && i < Base(d) && d.matches[i].groupLabel == GroupLabel(k) :: !Concluded(d, rows, i)
    ensures PlayersOf(d, rows, k) == {} && !EnoughPlayed(d, rows)
  {
    Sizes(d);
    forall p ensures p !in PlayersOf(d, rows, k) { PlayersAre(d, rows, k, p); }
    assert PlayersOf(d, rows, k) == {};
  }
}
