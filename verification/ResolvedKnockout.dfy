// Resolving the qualifiers of a group_knockout tournament: exactly when it succeeds, and that the knockout
// phase then is a bracket like any other (backend/internal/fixtures/groupknockout.go, lines 50-83;
// backend/internal/fixturegen/repository.go, lines 285-346 and 480-490).

module ResolvedKnockout {
  import opened FixtureModels
  import opened BracketTree
  import K = Knockout
  import opened Groups
  import opened QualifierDraw
  import GK = GroupKnockout
  import opened MatchStore
  import P = PlanInsertion
  import opened Qualification
  import opened FinishedGroups
  import BB = BracketBoard
  import R = BracketRun
  import RB = RenamedBracket

  ghost function Refs(d: GroupDraw): seq<SlotRef>
    requires d.g > 0
  {
    Qualifiers(d.g, FieldOf(d.g, d.q))
  }

  /** Whom the ranking names for a qualifier reference. */
  ghost function NameOf(ranked: Ranking, ref: SlotRef): string {
    if ref.Qualifier? && Resolve(ranked, ref.group, ref.rank).Some? then Resolve(ranked, ref.group, ref.rank).value else ""
  }

  ghost function Names(d: GroupDraw, ranked: Ranking): seq<string>
    requires d.g > 0
  {
    seq(|Refs(d)|, i requires 0 <= i < |Refs(d)| => NameOf(ranked, Refs(d)[i]))
  }

  ghost predicate AllRanked(d: GroupDraw, rows: Rows, ranked: Ranking) {
    |d.groups| == d.g && forall k | 0 <= k < d.g :: RankedBy(d, rows, ranked, k)
  }

  /** The ranking names q different members of each group. */
  ghost predicate NamesAll(d: GroupDraw, ranked: Ranking) {
    |d.groups| == d.g && forall k | 0 <= k < d.g :: NamesGroup(d, ranked, k)
  }

  ghost predicate NamesGroup(d: GroupDraw, ranked: Ranking, k: nat) {
    var places := Places(ranked, GroupLabel(k));
    Distinct(places) && |places| >= d.q && forall p | p in places :: InGroup(d, k, p)
  }

  /** The standings the transaction computes rank every group. */
  lemma StandingsRankGroups(d: GroupDraw, rows: Rows, cards: Cards, ids: seq<Uuid>, ranked: Ranking)
    requires InGroupStage(d, rows, cards) && Covers(ids, rows)
    requires RanksGroups(rows, cards, PlayedGroupMatches(rows, cards, d.tournament, ids), ranked)
    ensures AllRanked(d, rows, ranked)
  {
    Sizes(d);
    forall k | 0 <= k < d.g ensures RankedBy(d, rows, ranked, k) {
      GroupIsRanked(d, rows, cards, ids, ranked, k);
    }
  }

  /** A ranking of those who played names everybody exactly when enough have played. */
  lemma NamesAllIff(d: GroupDraw, rows: Rows, ranked: Ranking)
    requires IsGroupDraw(d) && AllRanked(d, rows, ranked)
    ensures NamesAll(d, ranked) <==> EnoughPlayed(d, rows)
  {
    forall k | 0 <= k < d.g ensures NamesGroup(d, ranked, k) <==> |PlayersOf(d, rows, k)| >= d.q {
      assert RankedBy(d, rows, ranked, k);
      PlacesCount(d, rows, ranked, k);
      forall p | p in Places(ranked, GroupLabel(k)) ensures InGroup(d, k, p) { PlayersAre(d, rows, k, p); }
    }
  }

  lemma RefAt(d: GroupDraw, i: nat) returns (k: nat, rank: nat)
    requires d.g > 0 && i < |Refs(d)|
    ensures k == i % d.g && k < d.g && rank == i / d.g + 1 && 1 <= rank <= d.q
    ensures Refs(d)[i] == Qualifier(GroupLabel(k), rank)
  {
    k, rank := i % d.g, i / d.g + 1;
    QualifierGroup(d.g, i, i);
    QuotientBelow(i, d.g, d.q);
  }

  lemma QuotientBelow(i: nat, g: nat, q: nat)
    requires g > 0 && i < q * g
    ensures i / g < q
  {
    var c, r := i / g, i % g;
    assert i == c * g + r;
    if c >= q { ProductMonotone(c - q, g, q); }
  }

  lemma ProductMonotone(t: int, g: nat, q: nat)
    requires t >= 0
    ensures (t + q) * g >= q * g
  {
    assert (t + q) * g == t * g + q * g;
  }

  lemma ResolvesAt(ranked: Ranking, l: string, rank: int)
    ensures Resolve(ranked, l, rank) == if 1 <= rank <= |Places(ranked, l)| then Some(Places(ranked, l)[rank - 1]) else None
  {
  }

  /** Every qualifier reference of the draw is available. */
  lemma RefResolves(d: GroupDraw, ranked: Ranking, i: nat)
    requires d.g > 0 && NamesAll(d, ranked) && i < |Refs(d)|
    ensures Refs(d)[i].Qualifier? && Resolve(ranked, Refs(d)[i].group, Refs(d)[i].rank).Some?
  {
    var k, rank := RefAt(d, i);
    assert NamesGroup(d, ranked, k);
    ResolvesAt(ranked, GroupLabel(k), rank);
  }

  /** Different references name different participants. */
  lemma NamesDiffer(d: GroupDraw, ranked: Ranking)
    requires IsGroupDraw(d) && NamesAll(d, ranked)
    ensures Distinct(Names(d, ranked))
  {
    forall i, j | 0 <= i < j < |Refs(d)| ensures Names(d, ranked)[i] != Names(d, ranked)[j] {
      TwoNamesDiffer(d, ranked, i, j);
    }
  }

  ghost predicate Placed(d: GroupDraw, ranked: Ranking, k: nat, rank: nat, name: string) {
    var places := Places(ranked, GroupLabel(k));
    Distinct(places) && 1 <= rank <= |places| && name == places[rank - 1] && InGroup(d, k, name)
  }

  lemma NamePlaced(d: GroupDraw, ranked: Ranking, i: nat) returns (k: nat, rank: nat)
    requires d.g > 0 && NamesAll(d, ranked) && i < |Refs(d)|
    ensures k == i % d.g && rank == i / d.g + 1 && k < d.g && Placed(d, ranked, k, rank, NameOf(ranked, Refs(d)[i]))
  {
    k, rank := RefAt(d, i);
    assert NamesGroup(d, ranked, k);
    ResolvesAt(ranked, GroupLabel(k), rank);
    var places := Places(ranked, GroupLabel(k));
    assert places[rank - 1] in places;
  }

  lemma PlacesDiffer(d: GroupDraw, ranked: Ranking, k: nat, r: nat, r': nat, x: string, y: string)
    requires Placed(d, ranked, k, r, x) && Placed(d, ranked, k, r', y) && r != r'
    ensures x != y
  {
    DifferentPlaces(Places(ranked, GroupLabel(k)), r - 1, r' - 1);
  }

  lemma TwoNamesDiffer(d: GroupDraw, ranked: Ranking, i: nat, j: nat)
    requires IsGroupDraw(d) && NamesAll(d, ranked) && i < j < |Refs(d)|
    ensures NameOf(ranked, Refs(d)[i]) != NameOf(ranked, Refs(d)[j])
  {
    var x, y := NameOf(ranked, Refs(d)[i]), NameOf(ranked, Refs(d)[j]);
    var k, r := NamePlaced(d, ranked, i);
    var k', r' := NamePlaced(d, ranked, j);
    if k != k' {
      if x == y { GroupsDisjoint(d, k, k', x); }
    } else {
      if r == r' { SameQuotient(d.g, i, j); }
      PlacesDiffer(d, ranked, k, r, r', x, y);
    }
  }

  lemma DifferentPlaces(s: seq<string>, a: nat, b: nat)
    requires Distinct(s) && a < |s| && b < |s| && a != b
    ensures s[a] != s[b]
  {
    if a < b { assert s[a] != s[b]; } else { assert s[b] != s[a]; }
  }

  // ---- one knockout match ----

  /** Match j of the knockout part as stored. */
  ghost function KeyOf(d: GroupDraw, j: nat): Uuid
    requires Base(d) >= 0 && Base(d) + j < |d.keys|
  {
    d.keys[Base(d) + j]
  }

  ghost predicate SlotsAreRefs(d: GroupDraw, j: int)
    requires d.g > 0 && 0 <= j < |d.ko|
  {
    && (d.ko[j].home == TBD || d.ko[j].home in Refs(d))
    && (d.ko[j].away == TBD || d.ko[j].away in Refs(d))
  }

  lemma KnockoutSlots(d: GroupDraw, j: nat)
    requires IsGroupDraw(d) && j < |d.ko|
    ensures SlotsAreRefs(d, j)
  {
    if d.ko[j].home != TBD { K.SlotsHoldParticipants(Refs(d), d.m, d.maxRound, d.ko, d.nodes, j, 1); }
    if d.ko[j].away != TBD { K.SlotsHoldParticipants(Refs(d), d.m, d.maxRound, d.ko, d.nodes, j, 2); }
  }

  /** A generated row of the knockout part, with its placeholders on its card. */
  ghost predicate Awaiting(d: GroupDraw, j: nat, row: Row, card: Card)
    requires j < |d.ko|
  {
    && (row.status.Scheduled? || row.status.Cancelled?) && row.home == VACANT && row.away == VACANT
    && row.tournament == d.tournament && card.groupLabel == ""
    && card.homeQualifier == P.QualifierOf(d.ko[j].home) && card.awayQualifier == P.QualifierOf(d.ko[j].away)
  }

  lemma KnockoutRowAwaits(d: GroupDraw, rows: Rows, cards: Cards, j: nat)
    requires InGroupStage(d, rows, cards) && j < |d.ko|
    ensures Base(d) >= 0 && Base(d) + j < |d.keys| && KeyOf(d, j) in rows && KeyOf(d, j) in cards
    ensures Awaiting(d, j, rows[KeyOf(d, j)], cards[KeyOf(d, j)])
    ensures IsWaitingRow(d, rows[KeyOf(d, j)], Base(d) + j)
    ensures d.matches[Base(d) + j] == GK.Shift(d.ko[j], Base(d))
  {
    BaseIsStages(d);
    KnockoutLabel(d, j);
    KnockoutSlots(d, j);
    NotConcrete(d, j);
    StoredAwaits(d, rows, cards, j);
  }

  lemma StoredAwaits(d: GroupDraw, rows: Rows, cards: Cards, j: nat)
    requires GroupTable(d, rows, cards) && j < |d.ko| && Base(d) >= 0
    requires d.matches[Base(d) + j] == GK.Shift(d.ko[j], Base(d))
    requires d.ko[j].groupLabel == "" && !d.ko[j].home.Concrete? && !d.ko[j].away.Concrete?
    ensures KeyOf(d, j) in rows && KeyOf(d, j) in cards
    ensures Awaiting(d, j, rows[KeyOf(d, j)], cards[KeyOf(d, j)])
    ensures IsWaitingRow(d, rows[KeyOf(d, j)], Base(d) + j)
  {
    var i := Base(d) + j;
    assert HasRow(d, rows, cards, i);
  }

  lemma NotConcrete(d: GroupDraw, j: nat)
    requires d.g > 0 && j < |d.ko| && SlotsAreRefs(d, j)
    ensures !d.ko[j].home.Concrete? && !d.ko[j].away.Concrete?
  {
  }

  /** What resolving makes of the row: the placeholder names filled in, nothing else. */
  lemma ResolvedRow(d: GroupDraw, ranked: Ranking, j: nat, row: Row, card: Card)
    requires d.g > 0 && j < |d.ko| && SlotsAreRefs(d, j) && Awaiting(d, j, row, card) && NamesAll(d, ranked)
    ensures !Blocked(row, card, ranked)
    ensures row.status.Scheduled? ==> Filled(row, card, ranked, d.teams) == WithNames(d, ranked, j, row)
  {
    SlotResolves(d, ranked, d.ko[j].home);
    SlotResolves(d, ranked, d.ko[j].away);
  }

  /** The row with the participants the ranking names for its placeholders. */
  ghost function WithNames(d: GroupDraw, ranked: Ranking, j: nat, row: Row): Row
    requires j < |d.ko|
  {
    row.(home := P.SlotColumns(d.teams, Named(d, ranked, d.ko[j].home)),
         away := P.SlotColumns(d.teams, Named(d, ranked, d.ko[j].away)))
  }

  ghost function Named(d: GroupDraw, ranked: Ranking, ref: SlotRef): SlotRef {
    if ref == TBD then TBD else Concrete(NameOf(ranked, ref))
  }

  lemma SlotResolves(d: GroupDraw, ranked: Ranking, ref: SlotRef)
    requires d.g > 0 && (ref == TBD || ref in Refs(d)) && NamesAll(d, ranked)
    ensures ref != TBD ==> ref.Qualifier? && Resolve(ranked, ref.group, ref.rank) == Some(NameOf(ranked, ref))
  {
    if ref != TBD {
      var i :| 0 <= i < |Refs(d)| && Refs(d)[i] == ref;
      RefResolves(d, ranked, i);
    }
  }

  /** Renaming by position agrees with resolving by group and rank. */
  lemma NamedIsRenamed(d: GroupDraw, ranked: Ranking, ref: SlotRef)
    requires d.g > 0 && (ref == TBD || ref in Refs(d))
    ensures RB.Rename(Refs(d), Names(d, ranked), ref) == Named(d, ranked, ref)
  {
    if ref != TBD {
      QualifiersDiffer(d.g, FieldOf(d.g, d.q));
      var i :| 0 <= i < |Refs(d)| && Refs(d)[i] == ref;
    } else {
      assert TBD !in Refs(d);
    }
  }

  // ---- the matches that are filled ----

  ghost predicate Listed(d: GroupDraw, rows: Rows, cards: Cards, ids: seq<Uuid>, j: nat)
    requires Base(d) >= 0 && Base(d) + j < |d.keys|
  {
    KeyOf(d, j) in QualifierMatches(rows, cards, d.tournament, ids)
  }

  lemma ListedIfWaiting(d: GroupDraw, rows: Rows, cards: Cards, ids: seq<Uuid>, j: nat)
    requires InGroupStage(d, rows, cards) && Covers(ids, rows) && j < |d.ko|
    ensures Base(d) >= 0 && Base(d) + j < |d.keys|
    ensures Listed(d, rows, cards, ids, j) <==> d.ko[j].home != TBD || d.ko[j].away != TBD
  {
    KnockoutRowAwaits(d, rows, cards, j);
    KnockoutSlots(d, j);
    ListedByCard(d, rows, cards, ids, j);
  }

  lemma ListedByCard(d: GroupDraw, rows: Rows, cards: Cards, ids: seq<Uuid>, j: nat)
    requires d.g > 0 && j < |d.ko| && Base(d) >= 0 && Base(d) + j < |d.keys| && Covers(ids, rows) && SlotsAreRefs(d, j)
    requires KeyOf(d, j) in rows && KeyOf(d, j) in cards && Awaiting(d, j, rows[KeyOf(d, j)], cards[KeyOf(d, j)])
    ensures Listed(d, rows, cards, ids, j) <==> d.ko[j].home != TBD || d.ko[j].away != TBD
  {
    QueriesSelect(rows, cards, d.tournament, ids);
    var id := KeyOf(d, j);
    assert id in ids;
    assert HasQualifiers(rows, cards, d.tournament, id) <==> d.ko[j].home.Qualifier? || d.ko[j].away.Qualifier?;
  }

  /** Only knockout matches are filled. */
  lemma ListedIsKnockout(d: GroupDraw, rows: Rows, cards: Cards, ids: seq<Uuid>, id: Uuid) returns (j: nat)
    requires InGroupStage(d, rows, cards) && Covers(ids, rows) && id in QualifierMatches(rows, cards, d.tournament, ids)
    ensures j < |d.ko| && Base(d) >= 0 && Base(d) + j < |d.keys| && KeyOf(d, j) == id
  {
    QueriesSelect(rows, cards, d.tournament, ids);
    var i := QualifierRow(d, rows, cards, id);
    j := KnockoutIndex(d, i);
  }

  lemma QualifierRow(d: GroupDraw, rows: Rows, cards: Cards, id: Uuid) returns (i: nat)
    requires GroupTable(d, rows, cards) && HasQualifiers(rows, cards, d.tournament, id)
    ensures i < |d.keys| && d.keys[i] == id && d.matches[i].groupLabel == ""
  {
    assert id in d.keys by { assert id in d.keys || IsForeign(d, rows, cards, id); }
    i := KeyIndex(d, id);
    assert HasRow(d, rows, cards, i);
  }

  lemma KnockoutIndex(d: GroupDraw, i: nat) returns (j: nat)
    requires IsGroupDraw(d) && i < |d.keys| && d.matches[i].groupLabel == ""
    ensures j < |d.ko| && Base(d) >= 0 && Base(d) + j < |d.keys| && KeyOf(d, j) == d.keys[i]
  {
    BaseIsStages(d);
    LabelsOf(d, i);
    j := i - Base(d);
    KeyBack(d, i, j);
  }

  lemma KeyBack(d: GroupDraw, i: nat, j: nat)
    requires 0 <= Base(d) && i == Base(d) + j < |d.keys|
    ensures KeyOf(d, j) == d.keys[i]
  {
  }

  lemma MatchesPresent(d: GroupDraw, rows: Rows, cards: Cards, ids: seq<Uuid>)
    requires Covers(ids, rows)
    ensures Present(rows, cards, QualifierMatches(rows, cards, d.tournament, ids))
  {
    QueriesSelect(rows, cards, d.tournament, ids);
    MatchesArePresent(rows, cards, d.tournament, ids);
  }

  lemma NotBlocked(d: GroupDraw, rows: Rows, cards: Cards, ranked: Ranking, j: nat)
    requires InGroupStage(d, rows, cards) && NamesAll(d, ranked) && j < |d.ko|
    ensures Base(d) >= 0 && Base(d) + j < |d.keys| && KeyOf(d, j) in rows && KeyOf(d, j) in cards
    ensures !Blocked(rows[KeyOf(d, j)], cards[KeyOf(d, j)], ranked)
    ensures rows[KeyOf(d, j)].status.Scheduled? ==>
              Filled(rows[KeyOf(d, j)], cards[KeyOf(d, j)], ranked, d.teams) == WithNames(d, ranked, j, rows[KeyOf(d, j)])
  {
    KnockoutRowAwaits(d, rows, cards, j);
    KnockoutSlots(d, j);
    Sizes(d);
    ResolvedRow(d, ranked, j, rows[KeyOf(d, j)], cards[KeyOf(d, j)]);
  }

  /** The q-th of a group that ranks fewer is awaited somewhere and cannot be named. */
  lemma ShortGroupBlocks(d: GroupDraw, rows: Rows, cards: Cards, ids: seq<Uuid>, ranked: Ranking, k: nat) returns (j: nat)
    requires InGroupStage(d, rows, cards) && Covers(ids, rows) && k < d.g && |Places(ranked, GroupLabel(k))| < d.q
    ensures j < |d.ko| && Base(d) >= 0 && Base(d) + j < |d.keys| && KeyOf(d, j) in rows && KeyOf(d, j) in cards
    ensures Blocked(rows[KeyOf(d, j)], cards[KeyOf(d, j)], ranked) && Listed(d, rows, cards, ids, j)
  {
    Sizes(d);
    var s: int;
    j, s := RefSlot(d, k);
    KnockoutRowAwaits(d, rows, cards, j);
    ListedIfWaiting(d, rows, cards, ids, j);
    ResolvesAt(ranked, GroupLabel(k), d.q);
    assert SlotOf(d.ko[j], s) == Qualifier(GroupLabel(k), d.q);
  }

  lemma LastRef(d: GroupDraw, k: nat) returns (i: nat)
    requires d.g > 0 && d.q >= 1 && k < d.g
    ensures i < |Refs(d)| && Refs(d)[i] == Qualifier(GroupLabel(k), d.q)
  {
    SeedOfRank(d.g, d.q, k, d.q);
    i := SeedOf(d.g, k, d.q) - 1;
  }

  lemma RefSlot(d: GroupDraw, k: nat) returns (j: nat, s: int)
    requires IsGroupDraw(d) && k < d.g
    ensures j < |d.ko| && (s == 1 || s == 2) && SlotOf(d.ko[j], s) == Qualifier(GroupLabel(k), d.q)
  {
    Sizes(d);
    var i := LastRef(d, k);
    j, s := SlotOfRef(d, i);
  }

  lemma SlotOfRef(d: GroupDraw, i: nat) returns (j: nat, s: int)
    requires IsGroupDraw(d) && d.g > 0 && i < |Refs(d)|
    ensures j < |d.ko| && (s == 1 || s == 2) && SlotOf(d.ko[j], s) == Refs(d)[i]
  {
    QualifiersDiffer(d.g, FieldOf(d.g, d.q));
    K.ParticipantsPlacedOnce(Refs(d), d.m, d.maxRound, d.ko, d.nodes, i + 1);
    j, s :| Holds(d.ko, j, s, Refs(d)[i]);
  }

  /** The fill succeeds exactly when the ranking names q members of every group. */
  lemma FillsIffNamesAll(d: GroupDraw, rows: Rows, cards: Cards, ids: seq<Uuid>, ranked: Ranking)
    requires InGroupStage(d, rows, cards) && Covers(ids, rows) && AllRanked(d, rows, ranked)
    ensures var ms := QualifierMatches(rows, cards, d.tournament, ids);
            && Present(rows, cards, ms)
            && (FillUpTo(rows, cards, ms, |ms|, ranked, d.teams).Ok? <==> NamesAll(d, ranked))
            && ms != []
            && (FillUpTo(rows, cards, ms, |ms|, ranked, d.teams).Err? ==>
                  FillUpTo(rows, cards, ms, |ms|, ranked, d.teams).error == QualifierUnavailable)
  {
    MatchesPresent(d, rows, cards, ids);
    var ms := QualifierMatches(rows, cards, d.tournament, ids);
    FillFails(rows, cards, ms, |ms|, ranked, d.teams);
    SomebodyIsAwaited(d, rows, cards, ids);
    if NamesAll(d, ranked) {
      forall a | 0 <= a < |ms| ensures !Blocked(rows[ms[a]], cards[ms[a]], ranked) {
        var j := ListedIsKnockout(d, rows, cards, ids, ms[a]);
        NotBlocked(d, rows, cards, ranked, j);
      }
    } else {
      var k := ShortGroup(d, rows, ranked);
      var j := ShortGroupBlocks(d, rows, cards, ids, ranked, k);
      var a :| 0 <= a < |ms| && ms[a] == KeyOf(d, j);
    }
  }

  lemma ShortGroup(d: GroupDraw, rows: Rows, ranked: Ranking) returns (k: nat)
    requires IsGroupDraw(d) && AllRanked(d, rows, ranked) && !NamesAll(d, ranked)
    ensures k < d.g && |Places(ranked, GroupLabel(k))| < d.q
  {
    k :| 0 <= k < d.g && !NamesGroup(d, ranked, k);
    assert RankedBy(d, rows, ranked, k);
    forall p | p in Places(ranked, GroupLabel(k)) ensures InGroup(d, k, p) { PlayersAre(d, rows, k, p); }
  }

  lemma SomebodyIsAwaited(d: GroupDraw, rows: Rows, cards: Cards, ids: seq<Uuid>)
    requires InGroupStage(d, rows, cards) && Covers(ids, rows)
    ensures QualifierMatches(rows, cards, d.tournament, ids) != []
  {
    Sizes(d);
    var j, s := RefSlot(d, 0);
    ListedIfWaiting(d, rows, cards, ids, j);
    assert KeyOf(d, j) in QualifierMatches(rows, cards, d.tournament, ids);
  }

  // ---- exactly when resolution succeeds ----

  /** The tournament is a group tournament, ongoing, and of the draw's participant type. */
  ghost predicate Admits(d: GroupDraw, info: Option<TournamentInfo>) {
    info == Some(TournamentInfo(true, true, d.teams))
  }

  /** ranked is what the transaction computes from the concluded matches. */
  ghost predicate RanksStage(d: GroupDraw, rows: Rows, cards: Cards, ids: seq<Uuid>, ranked: Ranking) {
    Covers(ids, rows) && RanksGroups(rows, cards, PlayedGroupMatches(rows, cards, d.tournament, ids), ranked)
  }

  /** In every state of the group stage: the transaction succeeds exactly when all group matches are over and in
      every group at least q members have a completed or walked-over match; otherwise it says which is missing. */
  lemma ResolvesIff(d: GroupDraw, rows: Rows, cards: Cards, info: Option<TournamentInfo>, ids: seq<Uuid>, ranked: Ranking)
    requires InGroupStage(d, rows, cards) && Admits(d, info) && RanksStage(d, rows, cards, ids, ranked)
    ensures var r := Resolution(rows, cards, d.tournament, info, ids, ranked);
            && (r.Ok? <==> GroupsOver(d, rows) && EnoughPlayed(d, rows))
            && (r.Err? ==> r.error == if GroupsOver(d, rows) then QualifierUnavailable else GroupStageIncomplete)
  {
    StandingsRankGroups(d, rows, cards, ids, ranked);
    DrawLabels(d);
    FinishedIff(d, rows, cards, ids);
    FillsIffNamesAll(d, rows, cards, ids, ranked);
    NamesAllIff(d, rows, ranked);
  }

  /** Without cancelled group matches, success is a matter of the group sizes alone. */
  lemma ResolvesIffGroupsOfTwo(d: GroupDraw, rows: Rows, cards: Cards, info: Option<TournamentInfo>, ids: seq<Uuid>, ranked: Ranking)
    requires InGroupStage(d, rows, cards) && Admits(d, info) && RanksStage(d, rows, cards, ids, ranked)
    requires AllConcluded(d, rows)
    ensures Resolution(rows, cards, d.tournament, info, ids, ranked).Ok? <==> GroupsOfTwo(d)
  {
    ResolvesIff(d, rows, cards, info, ids, ranked);
    EnoughWithoutCancellation(d, rows);
    ConcludedIsOver(d, rows);
  }

  /** The input: four participants in two groups of two, one qualifier each, all group matches over, and those of
      group k cancelled.  Every check passes, and no qualifier is named. */
  lemma CancelledGroupBlocks(d: GroupDraw, rows: Rows, cards: Cards, info: Option<TournamentInfo>, ids: seq<Uuid>, ranked: Ranking, k: nat)
    requires InGroupStage(d, rows, cards) && Admits(d, info) && RanksStage(d, rows, cards, ids, ranked)
    requires |d.seeded| == 4 && d.g == 2 && d.q == 1 && k < 2 && GroupsOver(d, rows)
    requires forall i | 0 <= i < |d.keys| && i < Base(d) && d.matches[i].groupLabel == GroupLabel(k) :: rows[d.keys[i]].status.Cancelled?
    ensures GroupsOfTwo(d) && Resolution(rows, cards, d.tournament, info, ids, ranked) == Err(QualifierUnavailable)
  {
    Sizes(d);
    FourInTwoGroups(d);
    CancelledGroupHasNobody(d, rows, k);
    ResolvesIff(d, rows, cards, info, ids, ranked);
  }

  lemma FourInTwoGroups(d: GroupDraw)
    requires IsGroupDraw(d) && |d.seeded| == 4 && d.g == 2
    ensures GroupsOfTwo(d)
  {
    forall k | 0 <= k < |d.groups| ensures |d.groups[k]| >= 2 {
      assert HoldsMembers(d.seeded, d.groups[k], 2, k, 4);
      GroupSizes(2, k, 4);
    }
  }

  // ---- the resolved knockout ----

  ghost function ResolvedDraw(d: GroupDraw, ranked: Ranking): BB.Draw
    requires d.g > 0 && 0 <= Base(d) <= |d.keys|
  {
    BB.Draw(Names(d, ranked), d.m, d.maxRound, RB.RenameAll(Refs(d), Names(d, ranked), d.ko), d.nodes, d.teams, d.tournament,
            d.keys[Base(d)..])
  }

  /** No knockout match was cancelled. */
  ghost predicate AllScheduled(d: GroupDraw, rows: Rows) {
    forall i | 0 <= i < |d.keys| && i >= Base(d) :: d.keys[i] in rows && rows[d.keys[i]].status.Scheduled?
  }

  ghost predicate AwaitsNobody(m: PlannedMatch) { m.home == TBD && m.away == TBD }

  /** No knockout match that awaits a qualifier was cancelled. */
  ghost predicate PlaceholdersOpen(d: GroupDraw, rows: Rows) {
    && 0 <= Base(d) && Base(d) + |d.ko| <= |d.keys|
    && forall j | 0 <= j < |d.ko| :: StaysOpen(d, rows, j)
  }

  ghost predicate StaysOpen(d: GroupDraw, rows: Rows, j: nat)
    requires j < |d.ko| && Base(d) >= 0 && Base(d) + j < |d.keys|
  {
    KeyOf(d, j) in rows && (rows[KeyOf(d, j)].status.Cancelled? ==> AwaitsNobody(d.ko[j]))
  }

  ghost function RowsAfter(d: GroupDraw, rows: Rows, cards: Cards, ids: seq<Uuid>, ranked: Ranking): Rows
    requires Present(rows, cards, QualifierMatches(rows, cards, d.tournament, ids))
  {
    var ms := QualifierMatches(rows, cards, d.tournament, ids);
    var r := FillUpTo(rows, cards, ms, |ms|, ranked, d.teams);
    if r.Ok? then r.value.0 else rows
  }

  /** What the lemmas below start from. */
  ghost predicate Resolvable(d: GroupDraw, rows: Rows, cards: Cards, ids: seq<Uuid>, ranked: Ranking) {
    InGroupStage(d, rows, cards) && Covers(ids, rows) && AllRanked(d, rows, ranked) && NamesAll(d, ranked)
  }

  /** Every open row of the knockout is filled from its card; the cancelled ones stay. */
  lemma RowAfter(d: GroupDraw, rows: Rows, cards: Cards, ids: seq<Uuid>, ranked: Ranking, j: nat)
    requires Resolvable(d, rows, cards, ids, ranked) && j < |d.ko|
    ensures Present(rows, cards, QualifierMatches(rows, cards, d.tournament, ids))
    ensures Base(d) >= 0 && Base(d) + j < |d.keys| && KeyOf(d, j) in rows
    ensures var after := RowsAfter(d, rows, cards, ids, ranked);
            KeyOf(d, j) in after
            && after[KeyOf(d, j)] == if StaysOpen(d, rows, j) then WithNames(d, ranked, j, rows[KeyOf(d, j)]) else rows[KeyOf(d, j)]
  {
    FillsIffNamesAll(d, rows, cards, ids, ranked);
    var ms := QualifierMatches(rows, cards, d.tournament, ids);
    FillWrites(rows, cards, ms, |ms|, ranked, d.teams);
    NotBlocked(d, rows, cards, ranked, j);
    ListedIfWaiting(d, rows, cards, ids, j);
    KnockoutRowAwaits(d, rows, cards, j);
    var id := KeyOf(d, j);
    if id in ms {
      var a :| 0 <= a < |ms| && ms[a] == id;
    } else {
      assert AwaitsNobody(d.ko[j]);
    }
  }

  /** The plan ends with the knockout, without participants and with its edges inside. */
  ghost predicate EndsWaiting(d: GroupDraw) {
    && d.g > 0 && 0 <= Base(d) && |d.keys| == |d.matches| == Base(d) + |d.ko|
    && forall j | 0 <= j < |d.ko| :: WaitsAt(d, j)
  }

  ghost predicate WaitsAt(d: GroupDraw, j: int)
    requires 0 <= j < |d.ko| && 0 <= Base(d) && |d.matches| == Base(d) + |d.ko|
  {
    var next := d.ko[j].nextMatchIndex;
    && d.matches[Base(d) + j] == GK.Shift(d.ko[j], Base(d))
    && !d.ko[j].home.Concrete? && !d.ko[j].away.Concrete?
    && (next.Some? ==> 0 <= next.value < |d.ko| && d.ko[j].nextSlot.Some?)
  }

  lemma DrawEndsWaiting(d: GroupDraw)
    requires IsGroupDraw(d)
    ensures EndsWaiting(d)
  {
    BaseIsStages(d);
    Sizes(d);
    forall j | 0 <= j < |d.ko| ensures WaitsAt(d, j) {
      KnockoutEdge(d, j);
      KnockoutHasNobody(d, j);
    }
  }

  lemma KnockoutHasNobody(d: GroupDraw, j: nat)
    requires IsGroupDraw(d) && j < |d.ko|
    ensures !d.ko[j].home.Concrete? && !d.ko[j].away.Concrete?
  {
    Sizes(d);
    KnockoutSlots(d, j);
    NotConcrete(d, j);
  }

  /** The stored links of a waiting match are its edges in the renamed plan. */
  lemma WaitingIsLinked(d: GroupDraw, ranked: Ranking, j: nat, row: Row)
    requires EndsWaiting(d) && j < |d.ko| && IsWaitingRow(d, row, Base(d) + j)
    ensures var bd := ResolvedDraw(d, ranked);
            |bd.keys| == |bd.matches| == |d.ko| && bd.keys[j] == KeyOf(d, j) && R.Linked(bd, row, j) && row.winner == VACANT
  {
    var bd := ResolvedDraw(d, ranked);
    assert WaitsAt(d, j);
    if d.ko[j].nextMatchIndex.Some? {
      assert bd.keys[d.ko[j].nextMatchIndex.value] == d.keys[Base(d) + d.ko[j].nextMatchIndex.value];
    }
  }

  lemma NamedSides(d: GroupDraw, ranked: Ranking, j: nat, row: Row)
    requires d.g > 0 && j < |d.ko| && SlotsAreRefs(d, j) && 0 <= Base(d) <= |d.keys|
    requires (row.status.Scheduled? || row.status.Cancelled?) && row.winner == VACANT
    ensures var bd := ResolvedDraw(d, ranked); j < |bd.matches| && BB.OpeningRow(bd, WithNames(d, ranked, j, row), j)
  {
    NamedIsRenamed(d, ranked, d.ko[j].home);
    NamedIsRenamed(d, ranked, d.ko[j].away);
    var bd := ResolvedDraw(d, ranked);
    assert bd.matches[j] == RB.RenamedMatch(Refs(d), Names(d, ranked), d.ko[j]);
  }

  /** Row j of the resolved knockout, when it was open. */
  lemma OpenRowOpens(d: GroupDraw, rows: Rows, cards: Cards, ids: seq<Uuid>, ranked: Ranking, j: nat)
    requires Resolvable(d, rows, cards, ids, ranked) && EndsWaiting(d) && j < |d.ko| && StaysOpen(d, rows, j)
    ensures Present(rows, cards, QualifierMatches(rows, cards, d.tournament, ids))
    ensures var (bd, after) := (ResolvedDraw(d, ranked), RowsAfter(d, rows, cards, ids, ranked));
            && |bd.keys| == |bd.matches| == |d.ko| && bd.keys[j] in after
            && R.Linked(bd, after[bd.keys[j]], j) && BB.OpeningRow(bd, after[bd.keys[j]], j)
  {
    KnockoutRowAwaits(d, rows, cards, j);
    KnockoutSlots(d, j);
    RowAfter(d, rows, cards, ids, ranked, j);
    WaitingIsLinked(d, ranked, j, rows[KeyOf(d, j)]);
    NamedSides(d, ranked, j, rows[KeyOf(d, j)]);
  }

  /** A cancelled match that awaits a qualifier keeps its empty side for good. */
  lemma ClosedRowIsUnsound(d: GroupDraw, rows: Rows, cards: Cards, ids: seq<Uuid>, ranked: Ranking, j: nat)
    requires Resolvable(d, rows, cards, ids, ranked) && EndsWaiting(d) && j < |d.ko| && !StaysOpen(d, rows, j)
    ensures Present(rows, cards, QualifierMatches(rows, cards, d.tournament, ids))
    ensures !R.Sound(ResolvedDraw(d, ranked), RowsAfter(d, rows, cards, ids, ranked))
  {
    KnockoutRowAwaits(d, rows, cards, j);
    KnockoutSlots(d, j);
    RowAfter(d, rows, cards, ids, ranked, j);
    WaitingIsLinked(d, ranked, j, rows[KeyOf(d, j)]);
    var (bd, after) := (ResolvedDraw(d, ranked), RowsAfter(d, rows, cards, ids, ranked));
    EmptySideIsUnsound(d, ranked, after, j);
  }

  lemma EmptySideIsUnsound(d: GroupDraw, ranked: Ranking, after: Rows, j: nat)
    requires d.g > 0 && 0 <= Base(d) && j < |d.ko| && |d.keys| == Base(d) + |d.ko| && SlotsAreRefs(d, j) && !AwaitsNobody(d.ko[j])
    requires KeyOf(d, j) in after && after[KeyOf(d, j)].home == VACANT && after[KeyOf(d, j)].away == VACANT
    ensures !R.Sound(ResolvedDraw(d, ranked), after)
  {
    NamedIsRenamed(d, ranked, d.ko[j].home);
    NamedIsRenamed(d, ranked, d.ko[j].away);
    var bd := ResolvedDraw(d, ranked);
    assert bd.matches[j] == RB.RenamedMatch(Refs(d), Names(d, ranked), d.ko[j]);
    if R.Present(bd, after) {
      assert R.Cells(bd, after)[j] == after[KeyOf(d, j)];
      assert !BB.SlotOk(bd, R.Cells(bd, after), j, if d.ko[j].home != TBD then 1 else 2);
    }
  }

  lemma KnockoutEdge(d: GroupDraw, j: nat)
    requires IsGroupDraw(d) && j < |d.ko|
    ensures var next := d.ko[j].nextMatchIndex;
            next.Some? ==> 0 <= next.value < |d.ko| && d.ko[j].nextSlot.Some?
  {
    assert GoesForward(d.ko, j);
  }

  lemma ResolvedDrawIsDraw(d: GroupDraw, ranked: Ranking)
    requires IsGroupDraw(d) && NamesAll(d, ranked)
    ensures d.g > 0 && 0 <= Base(d) <= |d.keys| && BB.IsDraw(ResolvedDraw(d, ranked))
  {
    Sizes(d);
    BaseIsStages(d);
    NamesDiffer(d, ranked);
    QualifiersDiffer(d.g, FieldOf(d.g, d.q));
    GK.FieldSize(d.g, d.q);
    RB.RenamedKnockout(Refs(d), Names(d, ranked), d.m, d.maxRound, d.ko, d.nodes);
    SuffixDistinct(d.keys, Base(d));
  }

  lemma SuffixDistinct(s: seq<Uuid>, k: nat)
    requires Distinct(s) && k <= |s|
    ensures Distinct(s[k..])
  {
  }

  lemma InSuffix(s: seq<Uuid>, k: nat, i: nat)
    requires k <= |s| && i < |s|
    ensures i < k || s[i] in s[k..]
  {
    if i >= k { assert s[k..][i - k] == s[i]; }
  }

  /** Links into the knockout come from the knockout. */
  lemma NoneLinkIn(d: GroupDraw, rows: Rows, cards: Cards, id: Uuid)
    requires GroupTable(d, rows, cards) && id in rows && 0 <= Base(d) <= |d.keys| && id !in d.keys[Base(d)..]
    ensures rows[id].nextMatch.Some? ==> rows[id].nextMatch.value !in d.keys[Base(d)..]
  {
    if id in d.keys {
      var i := KeyIndex(d, id);
      InSuffix(d.keys, Base(d), i);
      assert HasRow(d, rows, cards, i);
    } else {
      assert IsForeign(d, rows, cards, id);
      forall x | x in d.keys[Base(d)..] ensures x in d.keys {}
    }
  }

  /** Placeholders on knockout cards are for slots that the resolved plan fills. */
  lemma ResolvedCardsFit(d: GroupDraw, rows: Rows, cards: Cards, ranked: Ranking)
    requires InGroupStage(d, rows, cards) && d.g > 0 && 0 <= Base(d) <= |d.keys|
    ensures R.CardsFit(ResolvedDraw(d, ranked), cards)
  {
    var bd := ResolvedDraw(d, ranked);
    BaseIsStages(d);
    forall j | 0 <= j < |bd.keys| && bd.keys[j] in cards ensures R.CardFits(bd, cards[bd.keys[j]], j) {
      KnockoutCardFits(d, rows, cards, ranked, j);
    }
  }

  lemma KnockoutCardFits(d: GroupDraw, rows: Rows, cards: Cards, ranked: Ranking, j: nat)
    requires InGroupStage(d, rows, cards) && d.g > 0 && 0 <= Base(d) <= |d.keys| && j < |d.ko|
    ensures var bd := ResolvedDraw(d, ranked);
            j < |bd.matches| && j < |bd.keys| && (bd.keys[j] in cards ==> R.CardFits(bd, cards[bd.keys[j]], j))
  {
    KnockoutRowAwaits(d, rows, cards, j);
    KnockoutSlots(d, j);
    RenamedSlots(d, ranked, j);
    AwaitingCardFits(d, cards, rows[KeyOf(d, j)], ranked, j);
  }

  lemma AwaitingCardFits(d: GroupDraw, cards: Cards, row: Row, ranked: Ranking, j: nat)
    requires d.g > 0 && 0 <= Base(d) && Base(d) + j < |d.keys| && j < |d.ko| && KeyOf(d, j) in cards
    requires Awaiting(d, j, row, cards[KeyOf(d, j)])
    requires var m := ResolvedDraw(d, ranked).matches[j];
             (d.ko[j].home.Qualifier? ==> m.home != TBD) && (d.ko[j].away.Qualifier? ==> m.away != TBD)
    ensures var bd := ResolvedDraw(d, ranked);
            j < |bd.keys| && bd.keys[j] == KeyOf(d, j) && R.CardFits(bd, cards[bd.keys[j]], j)
  {
  }

  lemma RenamedSlots(d: GroupDraw, ranked: Ranking, j: nat)
    requires d.g > 0 && j < |d.ko| && SlotsAreRefs(d, j) && 0 <= Base(d) <= |d.keys|
    ensures var m := ResolvedDraw(d, ranked).matches[j];
            (d.ko[j].home.Qualifier? ==> m.home != TBD) && (d.ko[j].away.Qualifier? ==> m.away != TBD)
  {
  }

  /** What a successful resolution says about the ranking it used. */
  lemma SuccessIsResolvable(d: GroupDraw, rows: Rows, cards: Cards, info: Option<TournamentInfo>, ids: seq<Uuid>, ranked: Ranking)
    requires InGroupStage(d, rows, cards) && Admits(d, info) && RanksStage(d, rows, cards, ids, ranked)
    requires Resolution(rows, cards, d.tournament, info, ids, ranked).Ok?
    ensures Resolvable(d, rows, cards, ids, ranked) && EndsWaiting(d)
    ensures d.g > 0 && 0 <= Base(d) <= |d.keys| && BB.IsDraw(ResolvedDraw(d, ranked))
    ensures Present(rows, cards, QualifierMatches(rows, cards, d.tournament, ids))
    ensures Resolution(rows, cards, d.tournament, info, ids, ranked).value.0 == RowsAfter(d, rows, cards, ids, ranked)
  {
    ResolvesIff(d, rows, cards, info, ids, ranked);
    StandingsRankGroups(d, rows, cards, ids, ranked);
    NamesAllIff(d, rows, ranked);
    MatchesPresent(d, rows, cards, ids);
    ResolvedDrawIsDraw(d, ranked);
    DrawEndsWaiting(d);
  }

  /** After resolution the knockout phase is a sound bracket over the named qualifiers, with nothing played in it,
      exactly when no match that awaited a qualifier had been cancelled. */
  lemma ResolvedKnockoutSoundIff(d: GroupDraw, rows: Rows, cards: Cards, info: Option<TournamentInfo>, ids: seq<Uuid>, ranked: Ranking)
    requires InGroupStage(d, rows, cards) && Admits(d, info) && RanksStage(d, rows, cards, ids, ranked)
    requires Resolution(rows, cards, d.tournament, info, ids, ranked).Ok?
    ensures d.g > 0 && 0 <= Base(d) <= |d.keys| && BB.IsDraw(ResolvedDraw(d, ranked))
    ensures var (bd, after) := (ResolvedDraw(d, ranked), Resolution(rows, cards, d.tournament, info, ids, ranked).value.0);
            && (R.Sound(bd, after) <==> PlaceholdersOpen(d, rows))
            && (R.Unplayed(bd, after, cards) <==> PlaceholdersOpen(d, rows))
  {
    SuccessIsResolvable(d, rows, cards, info, ids, ranked);
    ResolvedCardsFit(d, rows, cards, ranked);
    var (bd, after) := (ResolvedDraw(d, ranked), RowsAfter(d, rows, cards, ids, ranked));
    if PlaceholdersOpen(d, rows) {
      ResolutionFills(rows, cards, d.tournament, info, ids, ranked);
      OthersLinkOutside(d, rows, cards, after, ranked);
      OpenPlaceholdersAreSound(d, rows, cards, ids, ranked);
    } else {
      var j :| 0 <= j < |d.ko| && !StaysOpen(d, rows, j);
      ClosedRowIsUnsound(d, rows, cards, ids, ranked, j);
    }
  }

  lemma OpenPlaceholdersAreSound(d: GroupDraw, rows: Rows, cards: Cards, ids: seq<Uuid>, ranked: Ranking)
    requires Resolvable(d, rows, cards, ids, ranked) && EndsWaiting(d) && PlaceholdersOpen(d, rows)
    requires Present(rows, cards, QualifierMatches(rows, cards, d.tournament, ids)) && BB.IsDraw(ResolvedDraw(d, ranked))
    requires var (bd, after) := (ResolvedDraw(d, ranked), RowsAfter(d, rows, cards, ids, ranked));
             forall id | id in after && id !in bd.keys :: R.NoneLinksIn(bd, after[id])
    ensures var (bd, after) := (ResolvedDraw(d, ranked), RowsAfter(d, rows, cards, ids, ranked));
            R.Sound(bd, after) && BB.Opening(bd, R.Cells(bd, after))
  {
    var (bd, after) := (ResolvedDraw(d, ranked), RowsAfter(d, rows, cards, ids, ranked));
    forall j | 0 <= j < |bd.keys|
      ensures bd.keys[j] in after && R.Linked(bd, after[bd.keys[j]], j) && BB.OpeningRow(bd, after[bd.keys[j]], j)
    {
      assert StaysOpen(d, rows, j);
      OpenRowOpens(d, rows, cards, ids, ranked, j);
    }
    R.UnplayedIsSound(bd, after);
  }

  /** The input: all group matches are over, enough members have played, and the first match of the knockout, which
      awaits two qualifiers, was cancelled.  Resolution succeeds, and the bracket it leaves is not sound. */
  lemma CancelledPlaceholderBreaks(d: GroupDraw, rows: Rows, cards: Cards, info: Option<TournamentInfo>, ids: seq<Uuid>, ranked: Ranking)
    requires InGroupStage(d, rows, cards) && Admits(d, info) && RanksStage(d, rows, cards, ids, ranked)
    requires GroupsOver(d, rows) && EnoughPlayed(d, rows)
    requires 0 <= Base(d) < |d.keys| && d.keys[Base(d)] in rows && rows[d.keys[Base(d)]].status.Cancelled?
    ensures d.g > 0 && Resolution(rows, cards, d.tournament, info, ids, ranked).Ok?
    ensures !R.Sound(ResolvedDraw(d, ranked), Resolution(rows, cards, d.tournament, info, ids, ranked).value.0)
  {
    ResolvesIff(d, rows, cards, info, ids, ranked);
    ResolvedKnockoutSoundIff(d, rows, cards, info, ids, ranked);
    FirstAwaitsTwo(d, ranked);
    assert KeyOf(d, 0) == d.keys[Base(d)];
    assert !StaysOpen(d, rows, 0);
  }

  lemma FirstAwaitsTwo(d: GroupDraw, ranked: Ranking)
    requires d.g > 0 && 0 <= Base(d) <= |d.keys| && BB.IsDraw(ResolvedDraw(d, ranked)) && IsGroupDraw(d)
    ensures |d.ko| > 0 && d.ko[0].home.Qualifier? && d.ko[0].away.Qualifier?
  {
    var bd := ResolvedDraw(d, ranked);
    BB.DrawHasShape(bd);
    BB.FirstMatchIsFilled(bd, 1);
    BB.FirstMatchIsFilled(bd, 2);
    assert bd.matches[0] == RB.RenamedMatch(Refs(d), Names(d, ranked), d.ko[0]);
    KnockoutSlots(d, 0);
    NotConcrete(d, 0);
    NamedIsRenamed(d, ranked, d.ko[0].home);
    NamedIsRenamed(d, ranked, d.ko[0].away);
  }

  /** Without any cancelled knockout match, and only then, it is the opening that storing the bracket would have made. */
  lemma ResolvedKnockoutOpens(d: GroupDraw, before: Store, after: Store, info: Option<TournamentInfo>, ids: seq<Uuid>, ranked: Ranking)
    requires InGroupStage(d, before.rows, before.cards) && Admits(d, info) && RanksStage(d, before.rows, before.cards, ids, ranked)
    requires Resolution(before.rows, before.cards, d.tournament, info, ids, ranked).Ok?
    requires after.rows == Resolution(before.rows, before.cards, d.tournament, info, ids, ranked).value.0 && after.cards == before.cards
    ensures d.g > 0 && 0 <= Base(d) <= |d.keys|
    ensures R.Opens(ResolvedDraw(d, ranked), after) <==> AllScheduled(d, before.rows)
  {
    var rows, cards := before.rows, before.cards;
    SuccessIsResolvable(d, rows, cards, info, ids, ranked);
    ResolvedCardsFit(d, rows, cards, ranked);
    ResolutionFills(rows, cards, d.tournament, info, ids, ranked);
    OthersLinkOutside(d, rows, cards, after.rows, ranked);
    StoredIff(d, rows, cards, ids, ranked);
    OpensIffStored(ResolvedDraw(d, ranked), after);
  }

  lemma OpensIffStored(bd: BB.Draw, st: Store)
    requires BB.IsDraw(bd) && R.CardsFit(bd, st.cards) && forall id | id in st.rows && id !in bd.keys :: R.NoneLinksIn(bd, st.rows[id])
    ensures R.Opens(bd, st) <==> P.IsStored(bd.matches, bd.tournament, bd.teams, bd.keys, st.rows)
  {
  }

  lemma StoredIff(d: GroupDraw, rows: Rows, cards: Cards, ids: seq<Uuid>, ranked: Ranking)
    requires Resolvable(d, rows, cards, ids, ranked) && EndsWaiting(d) && BB.IsDraw(ResolvedDraw(d, ranked))
    ensures Present(rows, cards, QualifierMatches(rows, cards, d.tournament, ids))
    ensures var bd := ResolvedDraw(d, ranked);
            P.IsStored(bd.matches, bd.tournament, bd.teams, bd.keys, RowsAfter(d, rows, cards, ids, ranked)) <==> AllScheduled(d, rows)
  {
    MatchesPresent(d, rows, cards, ids);
    var after := RowsAfter(d, rows, cards, ids, ranked);
    forall j | 0 <= j < |d.ko| ensures StoredAsScheduled(d, rows, after, ranked, j) {
      StoredIffScheduled(d, rows, cards, ids, ranked, j);
    }
    DrawKeysDiffer(ResolvedDraw(d, ranked));
    AllStoredIff(d, rows, after, ranked);
  }

  lemma DrawKeysDiffer(bd: BB.Draw)
    requires BB.IsDraw(bd)
    ensures Distinct(bd.keys)
  {
  }

  ghost predicate StoredAsScheduled(d: GroupDraw, rows: Rows, after: Rows, ranked: Ranking, j: int)
    requires d.g > 0 && 0 <= Base(d) && |d.keys| == Base(d) + |d.ko| && 0 <= j < |d.ko|
  {
    d.keys[Base(d) + j] in rows && (RowIsStored(d, ranked, after, j) <==> rows[d.keys[Base(d) + j]].status.Scheduled?)
  }

  lemma AllStoredIff(d: GroupDraw, rows: Rows, after: Rows, ranked: Ranking)
    requires EndsWaiting(d) && Distinct(ResolvedDraw(d, ranked).keys)
    requires forall j | 0 <= j < |d.ko| :: StoredAsScheduled(d, rows, after, ranked, j)
    ensures var bd := ResolvedDraw(d, ranked);
            P.IsStored(bd.matches, bd.tournament, bd.teams, bd.keys, after) <==> AllScheduled(d, rows)
  {
    var bd := ResolvedDraw(d, ranked);
    assert |bd.keys| == |bd.matches| == |d.ko|;
    if AllScheduled(d, rows) {
      forall j | 0 <= j < |bd.matches| ensures P.RowOfMatch(bd.matches, bd.tournament, bd.teams, bd.keys, after, j) {
        var i := Base(d) + j;
        assert d.keys[i] in rows && rows[d.keys[i]].status.Scheduled?;
        assert StoredAsScheduled(d, rows, after, ranked, j);
      }
    }
    if P.IsStored(bd.matches, bd.tournament, bd.teams, bd.keys, after) {
      forall i | 0 <= i < |d.keys| && i >= Base(d) ensures d.keys[i] in rows && rows[d.keys[i]].status.Scheduled? {
        var j := i - Base(d);
        assert P.RowOfMatch(bd.matches, bd.tournament, bd.teams, bd.keys, after, j);
        assert StoredAsScheduled(d, rows, after, ranked, j) && Base(d) + j == i;
      }
    }
  }

  /** Row j is what storing the renamed plan would have written. */
  ghost predicate RowIsStored(d: GroupDraw, ranked: Ranking, after: Rows, j: int)
    requires d.g > 0 && 0 <= Base(d) && |d.keys| == Base(d) + |d.ko| && 0 <= j < |d.ko|
  {
    var bd := ResolvedDraw(d, ranked);
    P.RowOfMatch(bd.matches, bd.tournament, bd.teams, bd.keys, after, j)
  }

  lemma NamedRowIsStored(d: GroupDraw, ranked: Ranking, j: nat, row: Row, after: Rows)
    requires EndsWaiting(d) && j < |d.ko| && IsWaitingRow(d, row, Base(d) + j) && KeyOf(d, j) in after
    requires after[KeyOf(d, j)] == if row.status.Scheduled? then WithNames(d, ranked, j, row) else after[KeyOf(d, j)].(status := Cancelled)
    requires row.status.Scheduled? ==> BB.OpeningRow(ResolvedDraw(d, ranked), after[KeyOf(d, j)], j)
    ensures RowIsStored(d, ranked, after, j) <==> row.status.Scheduled?
  {
    WaitingIsLinked(d, ranked, j, row);
  }

  lemma StoredIffScheduled(d: GroupDraw, rows: Rows, cards: Cards, ids: seq<Uuid>, ranked: Ranking, j: nat)
    requires Resolvable(d, rows, cards, ids, ranked) && EndsWaiting(d) && j < |d.ko|
    ensures Present(rows, cards, QualifierMatches(rows, cards, d.tournament, ids))
    ensures StoredAsScheduled(d, rows, RowsAfter(d, rows, cards, ids, ranked), ranked, j)
  {
    KnockoutRowAwaits(d, rows, cards, j);
    RowAfter(d, rows, cards, ids, ranked, j);
    if rows[KeyOf(d, j)].status.Scheduled? { OpenRowOpens(d, rows, cards, ids, ranked, j); }
    NamedRowIsStored(d, ranked, j, rows[KeyOf(d, j)], RowsAfter(d, rows, cards, ids, ranked));
  }

  lemma OthersLinkOutside(d: GroupDraw, rows: Rows, cards: Cards, after: Rows, ranked: Ranking)
    requires GroupTable(d, rows, cards) && OnlyFills(rows, cards, after) && d.g > 0 && 0 <= Base(d) <= |d.keys|
    ensures var bd := ResolvedDraw(d, ranked); forall id | id in after && id !in bd.keys :: R.NoneLinksIn(bd, after[id])
  {
    var bd := ResolvedDraw(d, ranked);
    forall id | id in after && id !in bd.keys ensures R.NoneLinksIn(bd, after[id]) {
      assert id in rows && FillsRow(rows[id], after[id]);
      NoneLinkIn(d, rows, cards, id);
    }
  }

  // ---- the number of slots reported ----

  /** In every state of a group stage, whose knockout no other match feeds, the reported number is the number of slots filled. */
  lemma StageReportIsExact(d: GroupDraw, rows: Rows, cards: Cards, info: Option<TournamentInfo>, ids: seq<Uuid>, ranked: Ranking)
    requires InGroupStage(d, rows, cards) && Covers(ids, rows) && Resolution(rows, cards, d.tournament, info, ids, ranked).Ok?
    ensures var (ms, after) :=
              (QualifierMatches(rows, cards, d.tournament, ids), Resolution(rows, cards, d.tournament, info, ids, ranked).value.0);
            && (forall i | 0 <= i < |ms| :: ms[i] in rows && ms[i] in after)
            && Resolution(rows, cards, d.tournament, info, ids, ranked).value.1 == SlotsFilled(rows, after, ms, |ms|)
  {
    var ms := QualifierMatches(rows, cards, d.tournament, ids);
    ReportIsExactIff(rows, cards, d.tournament, info, ids, ranked);
    forall i | 0 <= i < |ms|
      ensures !Taken(rows[ms[i]].home, cards[ms[i]].homeQualifier) && !Taken(rows[ms[i]].away, cards[ms[i]].awayQualifier)
    {
      ListedIsEmpty(d, rows, cards, ids, ms[i]);
    }
  }

  lemma ListedIsEmpty(d: GroupDraw, rows: Rows, cards: Cards, ids: seq<Uuid>, id: Uuid)
    requires InGroupStage(d, rows, cards) && Covers(ids, rows) && id in QualifierMatches(rows, cards, d.tournament, ids)
    ensures id in rows && rows[id].home == VACANT && rows[id].away == VACANT
  {
    var j := ListedIsKnockout(d, rows, cards, ids, id);
    KnockoutRowAwaits(d, rows, cards, j);
  }
}
