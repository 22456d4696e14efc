// Filling the knockout from the finished groups (backend/internal/fixturegen/repository.go,
// lines 224-346 and 408-488).

module Qualification {
  import opened FixtureModels
  import opened MatchStore
  import P = PlanInsertion

  /** A participant id per group label and finishing position. */
  type Ranking = map<string, seq<string>>

  datatype GroupResult = GroupResult(
    home: string, away: string, homeScore: int, awayScore: int, winner: Option<string>, isWalkover: bool)

  /** standings.Compute, which is not part of this model: any ranking of the given members. */
  type Standings = (seq<GroupResult>, set<string>) -> seq<string>

  ghost predicate Ranks(order: seq<string>, members: set<string>) {
    Distinct(order) && forall p :: p in order <==> p in members
  }

  ghost predicate Fair(compute: Standings) {
    forall results, members :: Ranks(compute(results, members), members)
  }

  datatype ResolveError =
    | TournamentNotFound
    | NotGroupKnockout
    | TournamentNotOngoing
    | GroupStageIncomplete
    | NoQualifierMatches
    | QualifierUnavailable

  datatype TournamentInfo = TournamentInfo(groupKnockout: bool, ongoing: bool, teams: bool)

  // ---- the queries ----

  predicate OfGroupStage(rows: Rows, cards: Cards, t: Uuid, id: Uuid) {
    id in rows && id in cards && rows[id].tournament == t && cards[id].groupLabel != ""
  }

  predicate Unfinished(rows: Rows, cards: Cards, t: Uuid, id: Uuid) {
    OfGroupStage(rows, cards, t, id)
    && !rows[id].status.Completed? && !rows[id].status.Walkover? && !rows[id].status.Cancelled?
  }

  predicate Counts(rows: Rows, cards: Cards, t: Uuid, id: Uuid) {
    OfGroupStage(rows, cards, t, id) && (rows[id].status.Completed? || rows[id].status.Walkover?)
  }

  predicate HasQualifiers(rows: Rows, cards: Cards, t: Uuid, id: Uuid) {
    id in rows && id in cards && rows[id].tournament == t && cards[id].groupLabel == ""
    && (cards[id].homeQualifier.Some? || cards[id].awayQualifier.Some?)
  }

  /** The rows of the table that satisfy a WHERE clause, in the query's order. */
  function Select(ids: seq<Uuid>, where_: Uuid -> bool): seq<Uuid> {
    if ids == [] then []
    else Select(ids[..|ids|-1], where_) + if where_(ids[|ids|-1]) then [ids[|ids|-1]] else []
  }

  lemma {:induction false} Selects(ids: seq<Uuid>, where_: Uuid -> bool)
    requires Distinct(ids)
    ensures Distinct(Select(ids, where_))
    ensures forall id :: id in Select(ids, where_) <==> id in ids && where_(id)
  {
    if ids != [] {
      var rest := ids[..|ids|-1];
      Selects(rest, where_);
      assert ids == rest + [ids[|ids|-1]];
      assert ids[|ids|-1] !in rest;
    }
  }

  /** And keeps their order. */
  lemma {:induction false} SelectsInOrder(ids: seq<Uuid>, where_: Uuid -> bool) returns (at: seq<nat>)
    ensures PicksAll(ids, Select(ids, where_), at, where_)
  {
    at := [];
    if ids != [] {
      var n := |ids| - 1;
      at := SelectsInOrder(ids[..n], where_);
      PicksGrow(ids, Select(ids[..n], where_), at, where_);
      if where_(ids[n]) { at := at + [n]; }
    }
  }

  // ---- group standings ----

  /** p played the match: both sides were present and he is one of them. */
  predicate PlayedBy(row: Row, p: string) {
    Uid(row.home).Some? && Uid(row.away).Some? && (Uid(row.home).value == p || Uid(row.away).value == p)
  }

  ghost predicate MemberUpTo(rows: Rows, cards: Cards, listed: seq<Uuid>, k: nat, label_: string, p: string) {
    exists i :: 0 <= i < k && i < |listed| && PlayedFor(rows, cards, listed[i], label_, p)
  }

  ghost predicate PlayedFor(rows: Rows, cards: Cards, id: Uuid, label_: string, p: string) {
    id in rows && id in cards && cards[id].groupLabel == label_ && PlayedBy(rows[id], p)
  }

  ghost predicate MembersUpTo(rows: Rows, cards: Cards, listed: seq<Uuid>, k: nat, members: map<string, set<string>>) {
    forall l, p :: MemberUpTo(rows, cards, listed, k, l, p) <==> l in members && p in members[l]
  }

  lemma OneMoreMatch(rows: Rows, cards: Cards, listed: seq<Uuid>, k: nat, members: map<string, set<string>>,
                     members': map<string, set<string>>)
    requires k < |listed| && listed[k] in rows && listed[k] in cards && MembersUpTo(rows, cards, listed, k, members)
    requires var (row, l) := (rows[listed[k]], cards[listed[k]].groupLabel);
             members' == if Uid(row.home).None? || Uid(row.away).None? then members
                         else members[l := (if l in members then members[l] else {}) + {Uid(row.home).value, Uid(row.away).value}]
    ensures MembersUpTo(rows, cards, listed, k + 1, members')
  {
    var n := k + 1;
    forall l, p ensures MemberUpTo(rows, cards, listed, n, l, p) <==> l in members' && p in members'[l] {
      assert MemberUpTo(rows, cards, listed, k, l, p) <==> l in members && p in members[l];
    }
  }

  /** ranked orders, for each group with a played match, exactly the participants of those matches. */
  ghost predicate RanksGroups(rows: Rows, cards: Cards, listed: seq<Uuid>, ranked: Ranking) {
    && (forall l | l in ranked :: Distinct(ranked[l]))
    && (forall l, p :: MemberUpTo(rows, cards, listed, |listed|, l, p) <==> l in ranked && p in ranked[l])
  }

  /** Both sides of a match of group l are present. */
  ghost predicate IsPlayed(rows: Rows, cards: Cards, id: Uuid, l: string) {
    && id in rows && id in cards && cards[id].groupLabel == l
    && (rows[id].home.team != None || rows[id].home.player != None) && (rows[id].away.team != None || rows[id].away.player != None)
  }

  /** r is the result of the match. */
  ghost predicate IsResult(row: Row, r: GroupResult) {
    && StandsFor(row.home, r.home) && StandsFor(row.away, r.away)
    && r.homeScore == row.homeScore && r.awayScore == row.awayScore && r.isWalkover == row.isWalkover
    && (r.winner == None ==> row.winner.team == None && row.winner.player == None)
    && (r.winner != None ==> StandsFor(row.winner, r.winner.value))
  }

  ghost function PlayedIn(rows: Rows, cards: Cards, l: string): Uuid -> bool { (id: Uuid) => IsPlayed(rows, cards, id, l) }

  /** rs are the results of the matches played, one by one. */
  ghost predicate ResultsAre(rows: Rows, played: seq<Uuid>, rs: seq<GroupResult>) {
    |rs| == |played| && forall n | 0 <= n < |rs| :: played[n] in rows && IsResult(rows[played[n]], rs[n])
  }

  /** rs are the results of the matches of group l among the first k listed, each once and in order. */
  ghost predicate HasResults(rows: Rows, cards: Cards, listed: seq<Uuid>, k: nat, l: string, rs: seq<GroupResult>) {
    k <= |listed| && exists played, at :: PicksAll(listed[..k], played, at, PlayedIn(rows, cards, l)) && ResultsAre(rows, played, rs)
  }

  function ResultsFor(results: map<string, seq<GroupResult>>, l: string): seq<GroupResult> {
    if l in results then results[l] else []
  }

  ghost predicate ResultsUpTo(rows: Rows, cards: Cards, listed: seq<Uuid>, k: nat, results: map<string, seq<GroupResult>>) {
    forall l :: HasResults(rows, cards, listed, k, l, ResultsFor(results, l))
  }

  lemma OneMoreResult(rows: Rows, cards: Cards, listed: seq<Uuid>, k: nat, l: string, rs: seq<GroupResult>, r: GroupResult)
    requires k < |listed| && HasResults(rows, cards, listed, k, l, rs)
    requires IsPlayed(rows, cards, listed[k], l) && IsResult(rows[listed[k]], r)
    ensures HasResults(rows, cards, listed, k + 1, l, rs + [r])
  {
    var played, at :| PicksAll(listed[..k], played, at, PlayedIn(rows, cards, l)) && ResultsAre(rows, played, rs);
    assert listed[..k+1][..k] == listed[..k];
    PicksGrow(listed[..k+1], played, at, PlayedIn(rows, cards, l));
    assert ResultsAre(rows, played + [listed[k]], rs + [r]);
  }

  lemma NoMoreResult(rows: Rows, cards: Cards, listed: seq<Uuid>, k: nat, l: string, rs: seq<GroupResult>)
    requires k < |listed| && HasResults(rows, cards, listed, k, l, rs) && !IsPlayed(rows, cards, listed[k], l)
    ensures HasResults(rows, cards, listed, k + 1, l, rs)
  {
    var played, at :| PicksAll(listed[..k], played, at, PlayedIn(rows, cards, l)) && ResultsAre(rows, played, rs);
    assert listed[..k+1][..k] == listed[..k];
    PicksGrow(listed[..k+1], played, at, PlayedIn(rows, cards, l));
  }

  /** The result the engine is given for a match; a match with a missing side is skipped. */
  function ResultOf(row: Row): Option<GroupResult> {
    if Uid(row.home).None? || Uid(row.away).None? then None
    else Some(GroupResult(Uid(row.home).value, Uid(row.away).value, row.homeScore, row.awayScore, Uid(row.winner), row.isWalkover))
  }

  lemma ResultReports(rows: Rows, cards: Cards, id: Uuid, l: string)
    requires id in rows && id in cards
    ensures IsPlayed(rows, cards, id, l) <==> ResultOf(rows[id]).Some? && l == cards[id].groupLabel
    ensures IsPlayed(rows, cards, id, l) ==> IsResult(rows[id], ResultOf(rows[id]).value)
  {
  }

  function Entered(results: map<string, seq<GroupResult>>, l: string, r: Option<GroupResult>): map<string, seq<GroupResult>> {
    if r.Some? then results[l := ResultsFor(results, l) + [r.value]] else results
  }

  lemma NextResult(rows: Rows, cards: Cards, listed: seq<Uuid>, k: nat, results: map<string, seq<GroupResult>>)
    requires k < |listed| && listed[k] in rows && listed[k] in cards && ResultsUpTo(rows, cards, listed, k, results)
    ensures ResultsUpTo(rows, cards, listed, k + 1, Entered(results, cards[listed[k]].groupLabel, ResultOf(rows[listed[k]])))
  {
    var own, r := cards[listed[k]].groupLabel, ResultOf(rows[listed[k]]);
    var n := k + 1;
    forall l ensures HasResults(rows, cards, listed, n, l, ResultsFor(Entered(results, own, r), l)) {
      assert HasResults(rows, cards, listed, k, l, ResultsFor(results, l));
      ResultReports(rows, cards, listed[k], l);
      if l == own && r.Some? {
        OneMoreResult(rows, cards, listed, k, l, ResultsFor(results, l), r.value);
      } else {
        NoMoreResult(rows, cards, listed, k, l, ResultsFor(results, l));
      }
    }
  }

  lemma NoResultsYet(rows: Rows, cards: Cards, listed: seq<Uuid>)
    ensures ResultsUpTo(rows, cards, listed, 0, map[])
  {
    forall l: string ensures HasResults(rows, cards, listed, 0, l, []) {
      assert PicksAll(listed[..0], [], [], PlayedIn(rows, cards, l)) && ResultsAre(rows, [], []);
    }
  }

  /** members are exactly the participants of the group's listed matches. */
  ghost predicate ArePlayers(rows: Rows, cards: Cards, listed: seq<Uuid>, l: string, members: set<string>) {
    forall p :: p in members <==> MemberUpTo(rows, cards, listed, |listed|, l, p)
  }

  /** order is what the standings engine makes of the results of group l and its participants. */
  ghost predicate ComputedFor(rows: Rows, cards: Cards, listed: seq<Uuid>, compute: Standings, l: string, order: seq<string>) {
    exists rs, members ::
      HasResults(rows, cards, listed, |listed|, l, rs) && ArePlayers(rows, cards, listed, l, members) && order == compute(rs, members)
  }

  ghost predicate ComputesGroups(rows: Rows, cards: Cards, listed: seq<Uuid>, compute: Standings, ranked: Ranking) {
    forall l | l in ranked :: ComputedFor(rows, cards, listed, compute, l, ranked[l])
  }

  /** ranked orders, for each group with a played match, exactly the participants of those matches, by the results. */
  ghost predicate IsStandings(rows: Rows, cards: Cards, listed: seq<Uuid>, compute: Standings, ranked: Ranking) {
    RanksGroups(rows, cards, listed, ranked) && ComputesGroups(rows, cards, listed, compute, ranked)
  }

  lemma GroupsComputed(rows: Rows, cards: Cards, listed: seq<Uuid>, compute: Standings, results: map<string, seq<GroupResult>>,
                       members: map<string, set<string>>, ranked: Ranking)
    requires results.Keys == members.Keys == ranked.Keys
    requires ResultsUpTo(rows, cards, listed, |listed|, results) && MembersUpTo(rows, cards, listed, |listed|, members)
    requires forall l | l in ranked :: l in results && l in members && ranked[l] == compute(results[l], members[l])
    ensures ComputesGroups(rows, cards, listed, compute, ranked)
  {
    forall l | l in ranked ensures ComputedFor(rows, cards, listed, compute, l, ranked[l]) {
      assert HasResults(rows, cards, listed, |listed|, l, ResultsFor(results, l));
      assert ArePlayers(rows, cards, listed, l, members[l]);
    }
  }

  method ComputeGroupStandings(rows: Rows, cards: Cards, listed: seq<Uuid>, compute: Standings) returns (ranked: Ranking)
    requires forall i | 0 <= i < |listed| :: listed[i] in rows && listed[i] in cards
    requires Fair(compute)
    ensures IsStandings(rows, cards, listed, compute, ranked)
  {
    var results: map<string, seq<GroupResult>> := map[];
    var members: map<string, set<string>> := map[];
    NoResultsYet(rows, cards, listed);
    for k := 0 to |listed|
      invariant results.Keys == members.Keys
      invariant MembersUpTo(rows, cards, listed, k, members)
      invariant ResultsUpTo(rows, cards, listed, k, results)
    {
      var row, l := rows[listed[k]], cards[listed[k]].groupLabel;
      ghost var before, results0 := members, results;
      if Uid(row.home).Some? && Uid(row.away).Some? {
        var home, away := Uid(row.home).value, Uid(row.away).value;
        var r := GroupResult(home, away, row.homeScore, row.awayScore, Uid(row.winner), row.isWalkover);
        assert ResultOf(row) == Some(r);
        results := results[l := ResultsFor(results, l) + [r]];
        members := members[l := (if l in members then members[l] else {}) + {home, away}];
      }
      OneMoreMatch(rows, cards, listed, k, before, members);
      NextResult(rows, cards, listed, k, results0);
    }
    ranked := map l | l in members :: compute(results[l], members[l]);
    forall l | l in ranked ensures Ranks(ranked[l], members[l]) {
      assert ranked[l] == compute(results[l], members[l]);
    }
    GroupsComputed(rows, cards, listed, compute, results, members, ranked);
  }

  // ---- filling a row ----

  /** The participant that finished rank-th in a group. */
  function Resolve(ranked: Ranking, group: string, rank: int): Option<string> {
    if group in ranked && 1 <= rank <= |ranked[group]| then Some(ranked[group][rank - 1]) else None
  }

  /** A qualifier slot that is still empty. */
  predicate Open(side: Side, q: Option<(string, int)>) {
    q.Some? && side == VACANT
  }

  predicate Unavailable(side: Side, q: Option<(string, int)>, ranked: Ranking) {
    Open(side, q) && Resolve(ranked, q.value.0, q.value.1).None?
  }

  function Fill(side: Side, q: Option<(string, int)>, ranked: Ranking, teams: bool): Side {
    if Open(side, q) && Resolve(ranked, q.value.0, q.value.1).Some?
      then P.SideFor(teams, Resolve(ranked, q.value.0, q.value.1).value)
    else side
  }

  predicate Blocked(row: Row, card: Card, ranked: Ranking) {
    Unavailable(row.home, card.homeQualifier, ranked) || Unavailable(row.away, card.awayQualifier, ranked)
  }

  /** SetMatchParticipants writes scheduled rows only. */
  predicate Writes(row: Row, card: Card) {
    row.status.Scheduled? && (Open(row.home, card.homeQualifier) || Open(row.away, card.awayQualifier))
  }

  function Filled(row: Row, card: Card, ranked: Ranking, teams: bool): Row {
    if Writes(row, card)
      then row.(home := Fill(row.home, card.homeQualifier, ranked, teams), away := Fill(row.away, card.awayQualifier, ranked, teams))
    else row
  }

  function Slots(card: Card): nat {
    (if card.homeQualifier.Some? then 1 else 0) + if card.awayQualifier.Some? then 1 else 0
  }

  /** The first k matches filled: the rows, and the number reported as filled. */
  function FillUpTo(rows: Rows, cards: Cards, ids: seq<Uuid>, k: nat, ranked: Ranking, teams: bool): Result<(Rows, nat), ResolveError>
    requires k <= |ids| && forall i | 0 <= i < |ids| :: ids[i] in rows && ids[i] in cards
    ensures var r := FillUpTo(rows, cards, ids, k, ranked, teams); r.Ok? ==> r.value.0.Keys == rows.Keys
  {
    if k == 0 then Ok((rows, 0))
    else
      var before := FillUpTo(rows, cards, ids, k - 1, ranked, teams);
      if before.Err? then before
      else
        var (tx, n) := before.value;
        var (row, card) := (tx[ids[k - 1]], cards[ids[k - 1]]);
        if Blocked(row, card, ranked) then Err(QualifierUnavailable)
        else if Writes(row, card) then Ok((tx[ids[k - 1] := Filled(row, card, ranked, teams)], n + Slots(card)))
        else Ok((tx, n))
  }

  /** Why the transaction refuses before it fills anything. */
  function Refusal(rows: Rows, cards: Cards, t: Uuid, info: Option<TournamentInfo>, ids: seq<Uuid>): Option<ResolveError> {
    if info.None? then Some(TournamentNotFound)
    else if !info.value.groupKnockout then Some(NotGroupKnockout)
    else if !info.value.ongoing then Some(ResolveError.TournamentNotOngoing)
    else if Select(ids, id => Unfinished(rows, cards, t, id)) != [] then Some(GroupStageIncomplete)
    else if Select(ids, id => HasQualifiers(rows, cards, t, id)) == [] then Some(NoQualifierMatches)
    else None
  }

  ghost function QualifierMatches(rows: Rows, cards: Cards, t: Uuid, ids: seq<Uuid>): seq<Uuid> {
    Select(ids, id => HasQualifiers(rows, cards, t, id))
  }

  ghost function PlayedGroupMatches(rows: Rows, cards: Cards, t: Uuid, ids: seq<Uuid>): seq<Uuid> {
    Select(ids, id => Counts(rows, cards, t, id))
  }

  lemma QueriesSelect(rows: Rows, cards: Cards, t: Uuid, ids: seq<Uuid>)
    requires Distinct(ids)
    ensures var ms := QualifierMatches(rows, cards, t, ids);
            Distinct(ms) && forall id :: id in ms <==> id in ids && HasQualifiers(rows, cards, t, id)
    ensures var listed := PlayedGroupMatches(rows, cards, t, ids);
            forall id :: id in listed <==> id in ids && Counts(rows, cards, t, id)
  {
    Selects(ids, id => HasQualifiers(rows, cards, t, id));
    Selects(ids, id => Counts(rows, cards, t, id));
  }

  /** What the transaction leaves behind and reports, for the standings it computes; ids lists the table in query order. */
  ghost function Resolution(rows: Rows, cards: Cards, t: Uuid, info: Option<TournamentInfo>, ids: seq<Uuid>, ranked: Ranking)
    : Result<(Rows, nat), ResolveError>
  {
    match Refusal(rows, cards, t, info, ids)
    case Some(e) => Err(e)
    case None =>
      var ms := QualifierMatches(rows, cards, t, ids);
      MatchesArePresent(rows, cards, t, ids);
      FillUpTo(rows, cards, ms, |ms|, ranked, info.value.teams)
  }

  lemma {:induction false} SelectedSatisfy(ids: seq<Uuid>, where_: Uuid -> bool)
    ensures forall i | 0 <= i < |Select(ids, where_)| :: where_(Select(ids, where_)[i])
  {
    if ids != [] { SelectedSatisfy(ids[..|ids|-1], where_); }
  }

  lemma MatchesArePresent(rows: Rows, cards: Cards, t: Uuid, ids: seq<Uuid>)
    ensures var ms := QualifierMatches(rows, cards, t, ids); forall i | 0 <= i < |ms| :: ms[i] in rows && ms[i] in cards
    ensures var listed := PlayedGroupMatches(rows, cards, t, ids);
            forall i | 0 <= i < |listed| :: listed[i] in rows && listed[i] in cards
  {
    SelectedSatisfy(ids, id => HasQualifiers(rows, cards, t, id));
    SelectedSatisfy(ids, id => Counts(rows, cards, t, id));
  }

  /** All or nothing: an unavailable qualifier leaves every row alone. */
  method ResolveQualifiers(table: P.FixtureTable, t: Uuid, info: Option<TournamentInfo>, ids: seq<Uuid>, compute: Standings)
    returns (r: Result<nat, ResolveError>, ghost ranked: Ranking)
    requires Fair(compute) && Distinct(ids)
    modifies table
    ensures table.cards == old(table.cards)
    ensures Refusal(old(table.rows), table.cards, t, info, ids).None? ==>
              IsStandings(old(table.rows), table.cards, PlayedGroupMatches(old(table.rows), table.cards, t, ids), compute, ranked)
    ensures match Resolution(old(table.rows), table.cards, t, info, ids, ranked)
            case Err(e) => r == Err(e) && table.rows == old(table.rows)
            case Ok(done) => r == Ok(done.1) && table.rows == done.0
  {
    ranked := map[];
    var rows, cards := table.rows, table.cards;
    var refused := Refusal(rows, cards, t, info, ids);
    if refused.Some? {
      return Err(refused.value), map[];
    }
    var ms := Select(ids, id => HasQualifiers(rows, cards, t, id));
    var listed := Select(ids, id => Counts(rows, cards, t, id));
    MatchesArePresent(rows, cards, t, ids);
    assert ms == QualifierMatches(rows, cards, t, ids) && listed == PlayedGroupMatches(rows, cards, t, ids);
    var standings := ComputeGroupStandings(rows, cards, listed, compute);
    ranked := standings;
    var done := FillSlots(rows, cards, ms, standings, info.value.teams);
    if done.Err? {
      return Err(done.error), standings;
    }
    table.rows := done.value.0;
    r := Ok(done.value.1);
  }

  /** The loop over the matches with qualifiers. */
  method FillSlots(rows: Rows, cards: Cards, ms: seq<Uuid>, ranked: Ranking, teams: bool) returns (r: Result<(Rows, nat), ResolveError>)
    requires forall i | 0 <= i < |ms| :: ms[i] in rows && ms[i] in cards
    ensures r == FillUpTo(rows, cards, ms, |ms|, ranked, teams)
  {
    var tx, filled := rows, 0;
    for k := 0 to |ms|
      invariant FillUpTo(rows, cards, ms, k, ranked, teams) == Ok((tx, filled))
    {
      var id := ms[k];
      var row, card := tx[id], cards[id];
      if Blocked(row, card, ranked) {
        BlockedStaysBlocked(rows, cards, ms, k + 1, |ms|, ranked, teams);
        return Err(QualifierUnavailable);
      }
      if Writes(row, card) {
        tx := tx[id := Filled(row, card, ranked, teams)];
        filled := filled + Slots(card);
      }
    }
    r := Ok((tx, filled));
  }

  lemma {:induction false} BlockedStaysBlocked(rows: Rows, cards: Cards, ids: seq<Uuid>, k: nat, n: nat, ranked: Ranking, teams: bool)
    requires k <= n <= |ids| && forall i | 0 <= i < |ids| :: ids[i] in rows && ids[i] in cards
    requires FillUpTo(rows, cards, ids, k, ranked, teams) == Err(QualifierUnavailable)
    ensures FillUpTo(rows, cards, ids, n, ranked, teams) == Err(QualifierUnavailable)
    decreases n - k
  {
    if k < n { BlockedStaysBlocked(rows, cards, ids, k, n - 1, ranked, teams); }
  }

  // ---- what resolving does ----

  ghost predicate Present(rows: Rows, cards: Cards, ids: seq<Uuid>) {
    Distinct(ids) && forall i | 0 <= i < |ids| :: ids[i] in rows && ids[i] in cards
  }

  /** One blocked match refuses the whole list. */
  lemma {:induction false} FillFails(rows: Rows, cards: Cards, ids: seq<Uuid>, k: nat, ranked: Ranking, teams: bool)
    requires Present(rows, cards, ids) && k <= |ids|
    ensures var r := FillUpTo(rows, cards, ids, k, ranked, teams);
            && (r.Err? <==> exists i :: 0 <= i < k && Blocked(rows[ids[i]], cards[ids[i]], ranked))
            && (r.Err? ==> r.error == QualifierUnavailable)
  {
    if k > 0 {
      FillFails(rows, cards, ids, k - 1, ranked, teams);
      FillWrites(rows, cards, ids, k - 1, ranked, teams);
    }
  }

  /** Each match of the list is filled on its own; the others stay. */
  lemma {:induction false} FillWrites(rows: Rows, cards: Cards, ids: seq<Uuid>, k: nat, ranked: Ranking, teams: bool)
    requires Present(rows, cards, ids) && k <= |ids|
    ensures var r := FillUpTo(rows, cards, ids, k, ranked, teams);
            && (r.Ok? ==> forall i | 0 <= i < |ids| ::
                  r.value.0[ids[i]] == if i < k then Filled(rows[ids[i]], cards[ids[i]], ranked, teams) else rows[ids[i]])
            && (r.Ok? ==> forall id | id in rows && id !in ids :: r.value.0[id] == rows[id])
  {
    if k > 0 {
      FillWrites(rows, cards, ids, k - 1, ranked, teams);
    }
  }

  // ---- what is checked and written ----

  /** A group match of the tournament that is not over. */
  ghost predicate StillPlayed(rows: Rows, cards: Cards, t: Uuid, id: Uuid) {
    && id in rows && id in cards && rows[id].tournament == t && cards[id].groupLabel != ""
    && rows[id].status in {Scheduled, Live, Abandoned}
  }

  /** A knockout match of the tournament with a placeholder. */
  ghost predicate AwaitsQualifiers(rows: Rows, cards: Cards, t: Uuid, id: Uuid) {
    && id in rows && id in cards && rows[id].tournament == t && cards[id].groupLabel == ""
    && (cards[id].homeQualifier != None || cards[id].awayQualifier != None)
  }

  /** The two lists of a resolution, in the order of the table: group matches that were completed or walked over, and
      knockout matches with placeholders. */
  lemma ListsInOrder(rows: Rows, cards: Cards, t: Uuid, ids: seq<Uuid>) returns (at: seq<nat>, at': seq<nat>)
    ensures Picks(ids, PlayedGroupMatches(rows, cards, t, ids), at) && Picks(ids, QualifierMatches(rows, cards, t, ids), at')
    ensures forall i | 0 <= i < |ids| :: i in at <==>
              && ids[i] in rows && ids[i] in cards && rows[ids[i]].tournament == t && cards[ids[i]].groupLabel != ""
              && (rows[ids[i]].status == Completed || rows[ids[i]].status == Walkover)
    ensures forall i | 0 <= i < |ids| :: i in at' <==> AwaitsQualifiers(rows, cards, t, ids[i])
  {
    at := SelectsInOrder(ids, id => Counts(rows, cards, t, id));
    at' := SelectsInOrder(ids, id => HasQualifiers(rows, cards, t, id));
  }

  lemma NothingSelected(ids: seq<Uuid>, where_: Uuid -> bool)
    requires Distinct(ids)
    ensures Select(ids, where_) == [] <==> forall i | 0 <= i < |ids| :: !where_(ids[i])
  {
    Selects(ids, where_);
    if Select(ids, where_) != [] {
      var id := Select(ids, where_)[0];
      assert id in Select(ids, where_);
    }
    if i :| 0 <= i < |ids| && where_(ids[i]) {
      assert ids[i] in Select(ids, where_);
    }
  }

  /** The checks before anything is filled, in order: the tournament is found, plays groups and a knockout and is ongoing,
      all its group matches are over, and there is a placeholder to fill. */
  lemma RefusalIs(rows: Rows, cards: Cards, t: Uuid, info: Option<TournamentInfo>, ids: seq<Uuid>)
    requires Distinct(ids)
    ensures var e := Refusal(rows, cards, t, info, ids);
            if info == None then e == Some(TournamentNotFound)
            else if !info.value.groupKnockout then e == Some(NotGroupKnockout)
            else if !info.value.ongoing then e == Some(ResolveError.TournamentNotOngoing)
            else if exists i :: 0 <= i < |ids| && StillPlayed(rows, cards, t, ids[i]) then e == Some(GroupStageIncomplete)
            else if forall i | 0 <= i < |ids| :: !AwaitsQualifiers(rows, cards, t, ids[i]) then e == Some(NoQualifierMatches)
            else e == None
  {
    NothingSelected(ids, id => Unfinished(rows, cards, t, id));
    NothingSelected(ids, id => HasQualifiers(rows, cards, t, id));
    forall i | 0 <= i < |ids|
      ensures Unfinished(rows, cards, t, ids[i]) <==> StillPlayed(rows, cards, t, ids[i])
      ensures HasQualifiers(rows, cards, t, ids[i]) <==> AwaitsQualifiers(rows, cards, t, ids[i])
    {
    }
  }

  /** An empty side with a placeholder. */
  ghost predicate Waits(side: Side, q: Option<(string, int)>) {
    q != None && side.team == None && side.player == None
  }

  /** The group has a participant at the place the placeholder names. */
  ghost predicate Available(ranked: Ranking, q: (string, int)) {
    q.0 in ranked && 1 <= q.1 <= |ranked[q.0]|
  }

  /** A waiting side gets the participant at the place its placeholder names; any other side stays. */
  ghost predicate TakesPlace(before: Side, q: Option<(string, int)>, ranked: Ranking, teams: bool, after: Side) {
    if Waits(before, q) then
      && Available(ranked, q.value)
      && var p := ranked[q.value.0][q.value.1 - 1];
         if teams then after.team == Some(p) && after.player == None else after.team == None && after.player == Some(p)
    else after == before
  }

  lemma FilledTakesPlace(row: Row, card: Card, ranked: Ranking, teams: bool)
    ensures Blocked(row, card, ranked) <==>
              || (Waits(row.home, card.homeQualifier) && !Available(ranked, card.homeQualifier.value))
              || (Waits(row.away, card.awayQualifier) && !Available(ranked, card.awayQualifier.value))
    ensures row.status != Scheduled ==> Filled(row, card, ranked, teams) == row
    ensures row.status == Scheduled && !Blocked(row, card, ranked) ==>
              && TakesPlace(row.home, card.homeQualifier, ranked, teams, Filled(row, card, ranked, teams).home)
              && TakesPlace(row.away, card.awayQualifier, ranked, teams, Filled(row, card, ranked, teams).away)
  {
  }

  /** A waiting side of the match whose place nobody took in his group. */
  ghost predicate LacksQualifier(rows: Rows, cards: Cards, ranked: Ranking, id: Uuid)
    requires id in rows && id in cards
  {
    || (Waits(rows[id].home, cards[id].homeQualifier) && !Available(ranked, cards[id].homeQualifier.value))
    || (Waits(rows[id].away, cards[id].awayQualifier) && !Available(ranked, cards[id].awayQualifier.value))
  }

  ghost predicate NamesSlots(rows: Rows, cards: Cards, after: Rows, ranked: Ranking, teams: bool, id: Uuid)
    requires id in rows && id in cards
  {
    && id in after
    && if rows[id].status != Scheduled then after[id] == rows[id]
       else
         && TakesPlace(rows[id].home, cards[id].homeQualifier, ranked, teams, after[id].home)
         && TakesPlace(rows[id].away, cards[id].awayQualifier, ranked, teams, after[id].away)
  }

  /** Past the checks, resolution fails exactly when a waiting side names a place that nobody took; otherwise every
      waiting side of a scheduled knockout match gets the participant at its place, and all other sides and matches stay. */
  lemma ResolutionNames(rows: Rows, cards: Cards, t: Uuid, info: Option<TournamentInfo>, ids: seq<Uuid>, ranked: Ranking)
    requires Distinct(ids) && Refusal(rows, cards, t, info, ids) == None
    ensures var r := Resolution(rows, cards, t, info, ids, ranked);
            && (r.Err? <==> exists i ::
                  0 <= i < |ids| && AwaitsQualifiers(rows, cards, t, ids[i]) && LacksQualifier(rows, cards, ranked, ids[i]))
            && (r.Err? ==> r.error == QualifierUnavailable)
            && (r.Ok? ==> OnlyFills(rows, cards, r.value.0))
            && (r.Ok? ==> forall i | 0 <= i < |ids| && AwaitsQualifiers(rows, cards, t, ids[i]) ::
                  NamesSlots(rows, cards, r.value.0, ranked, info.value.teams, ids[i]))
            && (r.Ok? ==> forall id | id in rows && !(id in ids && AwaitsQualifiers(rows, cards, t, id)) ::
                  id in r.value.0 && r.value.0[id] == rows[id])
  {
    var ms := QualifierMatches(rows, cards, t, ids);
    QueriesSelect(rows, cards, t, ids);
    MatchesArePresent(rows, cards, t, ids);
    FillFails(rows, cards, ms, |ms|, ranked, info.value.teams);
    FillWrites(rows, cards, ms, |ms|, ranked, info.value.teams);
    forall id ensures id in ms <==> id in ids && AwaitsQualifiers(rows, cards, t, id) {
      assert HasQualifiers(rows, cards, t, id) <==> AwaitsQualifiers(rows, cards, t, id);
    }
    forall i | 0 <= i < |ms| ensures Blocked(rows[ms[i]], cards[ms[i]], ranked) <==> LacksQualifier(rows, cards, ranked, ms[i]) {
      FilledTakesPlace(rows[ms[i]], cards[ms[i]], ranked, info.value.teams);
    }
    SomeLack(rows, cards, t, ids, ms, ranked);
    if Resolution(rows, cards, t, info, ids, ranked).Ok? {
      ResolutionFills(rows, cards, t, info, ids, ranked);
      var after := Resolution(rows, cards, t, info, ids, ranked).value.0;
      forall i | 0 <= i < |ids| && AwaitsQualifiers(rows, cards, t, ids[i])
        ensures NamesSlots(rows, cards, after, ranked, info.value.teams, ids[i])
      {
        var k :| 0 <= k < |ms| && ms[k] == ids[i];
        FilledTakesPlace(rows[ms[k]], cards[ms[k]], ranked, info.value.teams);
      }
    }
  }

  lemma SomeLack(rows: Rows, cards: Cards, t: Uuid, ids: seq<Uuid>, ms: seq<Uuid>, ranked: Ranking)
    requires forall i | 0 <= i < |ms| :: ms[i] in rows && ms[i] in cards
    requires forall id :: id in ms <==> id in ids && AwaitsQualifiers(rows, cards, t, id)
    ensures (exists i :: 0 <= i < |ms| && LacksQualifier(rows, cards, ranked, ms[i])) <==>
              exists i :: 0 <= i < |ids| && AwaitsQualifiers(rows, cards, t, ids[i]) && LacksQualifier(rows, cards, ranked, ids[i])
  {
    forall i | 0 <= i < |ms| && LacksQualifier(rows, cards, ranked, ms[i])
      ensures exists j :: 0 <= j < |ids| && AwaitsQualifiers(rows, cards, t, ids[j]) && LacksQualifier(rows, cards, ranked, ids[j])
    {
      assert ms[i] in ms;
      var j :| 0 <= j < |ids| && ids[j] == ms[i];
    }
    forall i | 0 <= i < |ids| && AwaitsQualifiers(rows, cards, t, ids[i]) && LacksQualifier(rows, cards, ranked, ids[i])
      ensures exists j :: 0 <= j < |ms| && LacksQualifier(rows, cards, ranked, ms[j])
    {
      assert ids[i] in ms;
      var j :| 0 <= j < |ms| && ms[j] == ids[i];
    }
  }

  /** Filled slots hold somebody, so a second resolution finds nothing to write. */
  lemma FilledIsStable(row: Row, card: Card, ranked: Ranking, teams: bool)
    requires !Blocked(row, card, ranked)
    ensures var after := Filled(row, card, ranked, teams);
            !Blocked(after, card, ranked) && !Writes(after, card)
  {
  }

  // ---- resolving twice ----

  lemma {:induction false} DistinctSize(s: seq<string>)
    requires Distinct(s)
    ensures |set p | p in s| == |s|
  {
    if s != [] {
      var rest, x := s[..|s|-1], s[|s|-1];
      DistinctSize(rest);
      assert s == rest + [x] && x !in rest;
      assert (set p | p in s) == (set p | p in rest) + {x};
    }
  }

  lemma SameLength(s: seq<string>, t: seq<string>)
    requires Distinct(s) && Distinct(t) && forall p :: p in s <==> p in t
    ensures |s| == |t|
  {
    DistinctSize(s);
    DistinctSize(t);
    assert (set p | p in s) == (set p | p in t);
  }

  /** The finishing order of a group; a group without a played match has none. */
  ghost function Places(ranked: Ranking, l: string): seq<string> {
    if l in ranked then ranked[l] else []
  }

  /** Two rankings of the same played matches name the same places. */
  lemma RankingsAgree(rows: Rows, cards: Cards, listed: seq<Uuid>, ranked: Ranking, ranked': Ranking, l: string)
    requires RanksGroups(rows, cards, listed, ranked) && RanksGroups(rows, cards, listed, ranked')
    ensures |Places(ranked, l)| == |Places(ranked', l)|
  {
    forall p ensures p in Places(ranked, l) <==> p in Places(ranked', l) {
      assert MemberUpTo(rows, cards, listed, |listed|, l, p) <==> l in ranked && p in ranked[l];
      assert MemberUpTo(rows, cards, listed, |listed|, l, p) <==> l in ranked' && p in ranked'[l];
    }
    SameLength(Places(ranked, l), Places(ranked', l));
  }

  lemma {:induction false} SelectSame(ids: seq<Uuid>, p: Uuid -> bool, q: Uuid -> bool)
    requires forall i | 0 <= i < |ids| :: p(ids[i]) == q(ids[i])
    ensures Select(ids, p) == Select(ids, q)
  {
    if ids != [] { SelectSame(ids[..|ids|-1], p, q); }
  }

  /** after differs from rows in participants of matches outside the group stage only. */
  ghost predicate OnlyFills(rows: Rows, cards: Cards, after: Rows) {
    && after.Keys == rows.Keys
    && forall id | id in rows :: FillsRow(rows[id], after[id]) && (id in cards && cards[id].groupLabel != "" ==> after[id] == rows[id])
  }

  ghost predicate FillsRow(a: Row, b: Row) {
    b == a.(home := b.home, away := b.away) && (!a.status.Scheduled? ==> b == a)
  }

  lemma ResolutionFills(rows: Rows, cards: Cards, t: Uuid, info: Option<TournamentInfo>, ids: seq<Uuid>, ranked: Ranking)
    requires Distinct(ids) && Resolution(rows, cards, t, info, ids, ranked).Ok?
    ensures OnlyFills(rows, cards, Resolution(rows, cards, t, info, ids, ranked).value.0)
  {
    var ms := QualifierMatches(rows, cards, t, ids);
    QueriesSelect(rows, cards, t, ids);
    MatchesArePresent(rows, cards, t, ids);
    FillWrites(rows, cards, ms, |ms|, ranked, info.value.teams);
    var after := Resolution(rows, cards, t, info, ids, ranked).value.0;
    forall id | id in rows
      ensures FillsRow(rows[id], after[id]) && (id in cards && cards[id].groupLabel != "" ==> after[id] == rows[id])
    {
      if id in ms { var i :| 0 <= i < |ms| && ms[i] == id; }
    }
  }

  /** The two tables agree in the columns that the queries and the standings read. */
  ghost predicate SameStage(rows: Rows, cards: Cards, after: Rows) {
    && after.Keys == rows.Keys
    && forall id | id in rows :: SameResult(rows[id], after[id]) && (id in cards && cards[id].groupLabel != "" ==> SameSides(rows[id], after[id]))
  }

  ghost predicate SameResult(a: Row, b: Row) { a.tournament == b.tournament && a.status == b.status }

  ghost predicate SameSides(a: Row, b: Row) { a.home == b.home && a.away == b.away }

  lemma FillsStayInStage(rows: Rows, cards: Cards, after: Rows)
    requires OnlyFills(rows, cards, after)
    ensures SameStage(rows, cards, after)
  {
    forall id | id in rows
      ensures SameResult(rows[id], after[id]) && (id in cards && cards[id].groupLabel != "" ==> SameSides(rows[id], after[id]))
    {
      assert FillsRow(rows[id], after[id]);
    }
  }

  lemma QueriesStay(rows: Rows, cards: Cards, after: Rows, t: Uuid, info: Option<TournamentInfo>, ids: seq<Uuid>)
    requires SameStage(rows, cards, after)
    ensures QualifierMatches(after, cards, t, ids) == QualifierMatches(rows, cards, t, ids)
    ensures PlayedGroupMatches(after, cards, t, ids) == PlayedGroupMatches(rows, cards, t, ids)
    ensures Refusal(after, cards, t, info, ids) == Refusal(rows, cards, t, info, ids)
  {
    forall id ensures id in after <==> id in rows { assert id in after.Keys <==> id in rows.Keys; }
    SelectSame(ids, id => HasQualifiers(after, cards, t, id), id => HasQualifiers(rows, cards, t, id));
    SelectSame(ids, id => Counts(after, cards, t, id), id => Counts(rows, cards, t, id));
    SelectSame(ids, id => Unfinished(after, cards, t, id), id => Unfinished(rows, cards, t, id));
  }

  lemma StandingsStay(rows: Rows, cards: Cards, after: Rows, t: Uuid, ids: seq<Uuid>, ranked: Ranking)
    requires SameStage(rows, cards, after) && RanksGroups(after, cards, PlayedGroupMatches(rows, cards, t, ids), ranked)
    ensures RanksGroups(rows, cards, PlayedGroupMatches(rows, cards, t, ids), ranked)
  {
    var listed := PlayedGroupMatches(rows, cards, t, ids);
    SelectedSatisfy(ids, id => Counts(rows, cards, t, id));
    forall i, l, p | 0 <= i < |listed| ensures PlayedFor(after, cards, listed[i], l, p) <==> PlayedFor(rows, cards, listed[i], l, p) {
      assert Counts(rows, cards, t, listed[i]) && listed[i] in after.Keys;
    }
    forall l, p ensures MemberUpTo(rows, cards, listed, |listed|, l, p) <==> l in ranked && p in ranked[l] {
      assert MemberUpTo(after, cards, listed, |listed|, l, p) <==> MemberUpTo(rows, cards, listed, |listed|, l, p);
    }
  }

  lemma {:induction false} NothingToFill(rows: Rows, cards: Cards, ids: seq<Uuid>, k: nat, ranked: Ranking, teams: bool)
    requires k <= |ids| && forall i | 0 <= i < |ids| :: ids[i] in rows && ids[i] in cards
    requires forall i | 0 <= i < |ids| :: !Blocked(rows[ids[i]], cards[ids[i]], ranked) && !Writes(rows[ids[i]], cards[ids[i]])
    ensures FillUpTo(rows, cards, ids, k, ranked, teams) == Ok((rows, 0))
  {
    if k > 0 { NothingToFill(rows, cards, ids, k - 1, ranked, teams); }
  }

  lemma BlockedByLength(row: Row, card: Card, ranked: Ranking, ranked': Ranking)
    requires forall l :: |Places(ranked, l)| == |Places(ranked', l)|
    ensures Blocked(row, card, ranked) <==> Blocked(row, card, ranked')
  {
    forall l, rank ensures Resolve(ranked, l, rank).Some? <==> Resolve(ranked', l, rank).Some? {
      assert |Places(ranked, l)| == |Places(ranked', l)|;
    }
  }

  /** Idempotence of the transaction: after a successful resolution a second one, whatever ranking it computes,
      succeeds, writes nothing and reports zero. */
  lemma ResolveTwice(rows: Rows, cards: Cards, t: Uuid, info: Option<TournamentInfo>, ids: seq<Uuid>, ranked: Ranking, ranked': Ranking)
    requires Distinct(ids) && Resolution(rows, cards, t, info, ids, ranked).Ok?
    requires RanksGroups(rows, cards, PlayedGroupMatches(rows, cards, t, ids), ranked)
    requires var after := Resolution(rows, cards, t, info, ids, ranked).value.0;
             RanksGroups(after, cards, PlayedGroupMatches(after, cards, t, ids), ranked')
    ensures var after := Resolution(rows, cards, t, info, ids, ranked).value.0;
            Resolution(after, cards, t, info, ids, ranked') == Ok((after, 0))
  {
    var after := Resolution(rows, cards, t, info, ids, ranked).value.0;
    var ms := QualifierMatches(rows, cards, t, ids);
    ResolutionFills(rows, cards, t, info, ids, ranked);
    FillsStayInStage(rows, cards, after);
    QueriesStay(rows, cards, after, t, info, ids);
    StandingsStay(rows, cards, after, t, ids, ranked');
    forall l ensures |Places(ranked, l)| == |Places(ranked', l)| {
      RankingsAgree(rows, cards, PlayedGroupMatches(rows, cards, t, ids), ranked, ranked', l);
    }
    QueriesSelect(rows, cards, t, ids);
    MatchesArePresent(rows, cards, t, ids);
    FilledLeavesNothing(rows, cards, ms, ranked, ranked', info.value.teams);
    NothingToFill(after, cards, ms, |ms|, ranked', info.value.teams);
  }

  lemma FilledLeavesNothing(rows: Rows, cards: Cards, ms: seq<Uuid>, ranked: Ranking, ranked': Ranking, teams: bool)
    requires Present(rows, cards, ms) && FillUpTo(rows, cards, ms, |ms|, ranked, teams).Ok?
    requires forall l :: |Places(ranked, l)| == |Places(ranked', l)|
    ensures var after := FillUpTo(rows, cards, ms, |ms|, ranked, teams).value.0;
            forall i | 0 <= i < |ms| :: !Blocked(after[ms[i]], cards[ms[i]], ranked') && !Writes(after[ms[i]], cards[ms[i]])
  {
    var after := FillUpTo(rows, cards, ms, |ms|, ranked, teams).value.0;
    FillFails(rows, cards, ms, |ms|, ranked, teams);
    FillWrites(rows, cards, ms, |ms|, ranked, teams);
    forall i | 0 <= i < |ms| ensures !Blocked(after[ms[i]], cards[ms[i]], ranked') && !Writes(after[ms[i]], cards[ms[i]]) {
      FilledIsStable(rows[ms[i]], cards[ms[i]], ranked, teams);
      BlockedByLength(after[ms[i]], cards[ms[i]], ranked, ranked');
    }
  }

  // ---- the number reported ----

  /** Sides of a match that were empty before and are not after. */
  function NewlyFilled(before: Row, after: Row): nat {
    (if before.home == VACANT && after.home != VACANT then 1 else 0) + if before.away == VACANT && after.away != VACANT then 1 else 0
  }

  ghost function SlotsFilled(before: Rows, after: Rows, ids: seq<Uuid>, k: nat): nat
    requires k <= |ids| && forall i | 0 <= i < |ids| :: ids[i] in before && ids[i] in after
  {
    if k == 0 then 0 else SlotsFilled(before, after, ids, k - 1) + NewlyFilled(before[ids[k-1]], after[ids[k-1]])
  }

  predicate Taken(side: Side, q: Option<(string, int)>) {
    q.Some? && side != VACANT
  }

  /** Placeholder slots of a match about to be written that already hold somebody. */
  function TakenSlots(row: Row, card: Card): nat {
    if Writes(row, card)
      then (if Taken(row.home, card.homeQualifier) then 1 else 0) + if Taken(row.away, card.awayQualifier) then 1 else 0
    else 0
  }

  ghost function SlotsTaken(rows: Rows, cards: Cards, ids: seq<Uuid>, k: nat): nat
    requires k <= |ids| && forall i | 0 <= i < |ids| :: ids[i] in rows && ids[i] in cards
  {
    if k == 0 then 0 else SlotsTaken(rows, cards, ids, k - 1) + TakenSlots(rows[ids[k-1]], cards[ids[k-1]])
  }

  lemma FilledCounts(row: Row, card: Card, ranked: Ranking, teams: bool)
    requires !Blocked(row, card, ranked)
    ensures NewlyFilled(row, Filled(row, card, ranked, teams)) + TakenSlots(row, card) == if Writes(row, card) then Slots(card) else 0
  {
  }

  /** The reported number counts all placeholder slots of the written matches: those that are filled, and those
      that already held somebody. */
  lemma {:induction false} ReportCountsSlots(rows: Rows, cards: Cards, ids: seq<Uuid>, k: nat, ranked: Ranking, teams: bool, after: Rows)
    requires Present(rows, cards, ids) && k <= |ids| && FillUpTo(rows, cards, ids, k, ranked, teams).Ok?
    requires forall i | 0 <= i < |ids| :: ids[i] in after
    requires forall i | 0 <= i < k :: after[ids[i]] == Filled(rows[ids[i]], cards[ids[i]], ranked, teams)
    ensures FillUpTo(rows, cards, ids, k, ranked, teams).value.1 == SlotsFilled(rows, after, ids, k) + SlotsTaken(rows, cards, ids, k)
  {
    if k > 0 {
      var j := k - 1;
      FillWrites(rows, cards, ids, j, ranked, teams);
      ReportCountsSlots(rows, cards, ids, j, ranked, teams, after);
      FilledCounts(rows[ids[j]], cards[ids[j]], ranked, teams);
    }
  }

  lemma {:induction false} NothingTaken(rows: Rows, cards: Cards, ids: seq<Uuid>, k: nat)
    requires k <= |ids| && forall i | 0 <= i < |ids| :: ids[i] in rows && ids[i] in cards
    ensures SlotsTaken(rows, cards, ids, k) == 0 <==> forall i | 0 <= i < k :: TakenSlots(rows[ids[i]], cards[ids[i]]) == 0
  {
    if k > 0 { NothingTaken(rows, cards, ids, k - 1); }
  }

  /** The matches that a resolution fills slots of, and what it leaves of them. */
  lemma ResolutionRows(rows: Rows, cards: Cards, t: Uuid, info: Option<TournamentInfo>, ids: seq<Uuid>, ranked: Ranking)
    requires Distinct(ids) && Resolution(rows, cards, t, info, ids, ranked).Ok?
    ensures var (ms, after) := (QualifierMatches(rows, cards, t, ids), Resolution(rows, cards, t, info, ids, ranked).value.0);
            && Present(rows, cards, ms) && after.Keys == rows.Keys
            && forall i | 0 <= i < |ms| :: ms[i] in after && after[ms[i]] == Filled(rows[ms[i]], cards[ms[i]], ranked, info.value.teams)
  {
    var ms := QualifierMatches(rows, cards, t, ids);
    QueriesSelect(rows, cards, t, ids);
    MatchesArePresent(rows, cards, t, ids);
    FillWrites(rows, cards, ms, |ms|, ranked, info.value.teams);
  }

  /** The number that a resolution reports is the number of slots it filled exactly when no match it writes had a
      participant in a placeholder slot before. */
  lemma ReportIsExactIff(rows: Rows, cards: Cards, t: Uuid, info: Option<TournamentInfo>, ids: seq<Uuid>, ranked: Ranking)
    requires Distinct(ids) && Resolution(rows, cards, t, info, ids, ranked).Ok?
    ensures var (ms, after) := (QualifierMatches(rows, cards, t, ids), Resolution(rows, cards, t, info, ids, ranked).value.0);
            && (forall i | 0 <= i < |ms| :: ms[i] in rows && ms[i] in cards && ms[i] in after)
            && Resolution(rows, cards, t, info, ids, ranked).value.1 >= SlotsFilled(rows, after, ms, |ms|)
            && (Resolution(rows, cards, t, info, ids, ranked).value.1 == SlotsFilled(rows, after, ms, |ms|)
                <==> forall i | 0 <= i < |ms| && Writes(rows[ms[i]], cards[ms[i]]) ::
                       !Taken(rows[ms[i]].home, cards[ms[i]].homeQualifier) && !Taken(rows[ms[i]].away, cards[ms[i]].awayQualifier))
  {
    var ms := QualifierMatches(rows, cards, t, ids);
    ResolutionRows(rows, cards, t, info, ids, ranked);
    ReportCountsSlots(rows, cards, ms, |ms|, ranked, info.value.teams, Resolution(rows, cards, t, info, ids, ranked).value.0);
    NothingTaken(rows, cards, ms, |ms|);
  }

  /** A PATCH of participants leaves both slots filled, so its match is not written by a resolution, and not counted. */
  lemma EditedMatchIsFull(id: Uuid, current: Row, q: Patch, entry: Entry, row: Row, card: Card, hs: int, as_: int)
    requires TouchesParticipants(q) && PrepareUpdate(id, current, q, entry).Ok?
    ensures !Writes(Written(row, PrepareUpdate(id, current, q, entry).value, hs, as_), card)
  {
    var p := PrepareUpdate(id, current, q, entry).value;
    assert ParticipantError(entry, p.home, p.away).None?;
  }

  lemma {:induction false} OneTaken(rows: Rows, cards: Cards, ids: seq<Uuid>, k: nat, id: Uuid)
    requires Present(rows, cards, ids) && k <= |ids| && id in rows && id in cards && TakenSlots(rows[id], cards[id]) == 1
    requires forall i | 0 <= i < |ids| && ids[i] != id :: TakenSlots(rows[ids[i]], cards[ids[i]]) == 0
    ensures SlotsTaken(rows, cards, ids, k) == if id in ids[..k] then 1 else 0
  {
    if k > 0 {
      var j := k - 1;
      OneTaken(rows, cards, ids, j, id);
      assert ids[..k] == ids[..j] + [ids[j]];
      if ids[j] == id {
        assert id !in ids[..j];
      }
    }
  }

  /** after is rows with a home participant in one match that awaits two qualifiers, while all other placeholder slots
      are empty. */
  ghost predicate OneSideTaken(rows: Rows, cards: Cards, after: Rows, ms: seq<Uuid>, id: Uuid) {
    && id in ms && id in rows && id in cards && rows[id].status.Scheduled?
    && cards[id].homeQualifier.Some? && cards[id].awayQualifier.Some?
    && (forall i | 0 <= i < |ms| :: ms[i] in rows && rows[ms[i]].home == VACANT && rows[ms[i]].away == VACANT)
    && SameStage(rows, cards, after) && id in after && after[id].home != VACANT && after[id].away == VACANT
    && (forall i | 0 <= i < |ms| && ms[i] != id :: ms[i] in after && after[ms[i]] == rows[ms[i]])
  }

  /** Resolution succeeds over such a table if it does over the other, and reports one slot more than it fills. */
  lemma TakenSlotIsCounted(rows: Rows, after: Rows, cards: Cards, t: Uuid, info: Option<TournamentInfo>, ids: seq<Uuid>, ranked: Ranking,
                           id: Uuid)
    requires Distinct(ids) && Resolution(rows, cards, t, info, ids, ranked).Ok?
    requires OneSideTaken(rows, cards, after, QualifierMatches(rows, cards, t, ids), id)
    ensures var (ms, r) := (QualifierMatches(after, cards, t, ids), Resolution(after, cards, t, info, ids, ranked));
            && r.Ok? && (forall i | 0 <= i < |ms| :: ms[i] in after && ms[i] in r.value.0)
            && r.value.1 == SlotsFilled(after, r.value.0, ms, |ms|) + 1
  {
    var ms := QualifierMatches(rows, cards, t, ids);
    QueriesStay(rows, cards, after, t, info, ids);
    ResolutionRows(rows, cards, t, info, ids, ranked);
    assert Present(after, cards, ms);
    FillFails(rows, cards, ms, |ms|, ranked, info.value.teams);
    StillFills(rows, cards, after, ms, id, ranked, info.value.teams);
    ResolutionRows(after, cards, t, info, ids, ranked);
    ReportCountsSlots(after, cards, ms, |ms|, ranked, info.value.teams, Resolution(after, cards, t, info, ids, ranked).value.0);
    OneTaken(after, cards, ms, |ms|, id);
    assert ms[..|ms|] == ms;
  }

  lemma StillFills(rows: Rows, cards: Cards, after: Rows, ms: seq<Uuid>, id: Uuid, ranked: Ranking, teams: bool)
    requires Present(rows, cards, ms) && Present(after, cards, ms) && OneSideTaken(rows, cards, after, ms, id)
    requires FillUpTo(rows, cards, ms, |ms|, ranked, teams).Ok?
    ensures FillUpTo(after, cards, ms, |ms|, ranked, teams).Ok?
  {
    FillFails(rows, cards, ms, |ms|, ranked, teams);
    FillFails(after, cards, ms, |ms|, ranked, teams);
    forall i | 0 <= i < |ms| ensures !Blocked(after[ms[i]], cards[ms[i]], ranked) {
      assert !Blocked(rows[ms[i]], cards[ms[i]], ranked);
    }
  }
}
