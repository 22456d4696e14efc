// A hand-made match linked into a placeholder slot of the knockout before its qualifiers are resolved
// (backend/internal/matches/service.go, lines 71-168 and 744-794; backend/internal/fixturegen/repository.go,
// lines 299-341).

module HandMadeLink {
  import opened FixtureModels
  import opened MatchStore
  import P = PlanInsertion
  import opened Qualification
  import opened FinishedGroups
  import opened ResolvedKnockout
  import BB = BracketBoard
  import R = BracketRun
  import G = GroupRun
  import L = Lifecycle

  /** The first knockout match is still open. */
  ghost predicate FirstIsOpen(d: GroupDraw, rows: Rows) {
    0 <= Base(d) < |d.keys| && d.keys[Base(d)] in rows && rows[d.keys[Base(d)]].status.Scheduled?
  }

  /** A match between two participants of the tournament, linked to the home slot of the first knockout match. */
  ghost function LinkedRow(d: GroupDraw, a: nat, b: nat): Row
    requires a < |d.seeded| && b < |d.seeded| && 0 <= Base(d) < |d.keys|
  {
    Row(d.tournament, Scheduled, P.SideFor(d.teams, d.seeded[a].id), P.SideFor(d.teams, d.seeded[b].id), VACANT, false, 0, 0,
        Some(d.keys[Base(d)]), Some(1))
  }

  ghost const PLAIN := Card(0, 0, "", None, None)

  /** It is created, and its home side wins by walkover. */
  ghost function Calls(d: GroupDraw, id: Uuid, a: nat, b: nat): seq<L.Action>
    requires a < |d.seeded| && b < |d.seeded| && 0 <= Base(d) < |d.keys|
  {
    [L.CreateMatch(id, LinkedRow(d, a, b), PLAIN), L.AwardWalkover(1, id, "home", "no show")]
  }

  ghost predicate CanLink(d: GroupDraw, st: Store, id: Uuid, a: nat, b: nat) {
    && InGroupStage(d, st.rows, st.cards) && FirstIsOpen(d, st.rows) && d.tournament in st.ongoing
    && id !in st.rows && id !in st.cards && a < |d.seeded| && b < |d.seeded| && a != b
  }

  ghost function Created(d: GroupDraw, st: Store, id: Uuid, a: nat, b: nat): Store
    requires CanLink(d, st, id, a, b)
  {
    Store(st.rows[id := LinkedRow(d, a, b)], st.cards[id := PLAIN], st.events, st.ongoing)
  }

  ghost function WonRow(d: GroupDraw, a: nat, b: nat): Row
    requires a < |d.seeded| && b < |d.seeded| && 0 <= Base(d) < |d.keys|
  {
    WalkoverRow(LinkedRow(d, a, b), P.SideFor(d.teams, d.seeded[a].id))
  }

  /** The rows after both calls: the winner sits in the first knockout match. */
  ghost function SeatedRows(d: GroupDraw, st: Store, id: Uuid, a: nat, b: nat): Rows
    requires CanLink(d, st, id, a, b)
  {
    var key := d.keys[Base(d)];
    st.rows[id := WonRow(d, a, b)][key := st.rows[key].(home := P.SideFor(d.teams, d.seeded[a].id))]
  }

  /** The same without the link and what it wrote: a state of the group stage. */
  ghost function Unlinked(d: GroupDraw, st: Store, id: Uuid, a: nat, b: nat): Rows
    requires CanLink(d, st, id, a, b)
  {
    st.rows[id := WonRow(d, a, b).(nextMatch := None, nextSlot := None)]
  }

  lemma MembersDiffer(d: GroupDraw, a: nat, b: nat)
    requires IsGroupDraw(d) && a < |d.seeded| && b < |d.seeded| && a != b
    ensures P.SideFor(d.teams, d.seeded[a].id) != P.SideFor(d.teams, d.seeded[b].id)
  {
    if d.seeded[a].id == d.seeded[b].id { SameSeed(d.seeded, a, b); }
  }

  // ---- the calls commit ----

  lemma FirstRow(d: GroupDraw, rows: Rows, cards: Cards)
    requires InGroupStage(d, rows, cards) && FirstIsOpen(d, rows)
    ensures |d.ko| > 0 && KeyOf(d, 0) == d.keys[Base(d)] && KeyOf(d, 0) in cards
    ensures Awaiting(d, 0, rows[KeyOf(d, 0)], cards[KeyOf(d, 0)])
  {
    KnockoutRowAwaits(d, rows, cards, 0);
  }

  lemma CreationCommits(d: GroupDraw, st: Store, scorer: Scorer, id: Uuid, a: nat, b: nat)
    requires CanLink(d, st, id, a, b)
    ensures L.Creates(st, id, LinkedRow(d, a, b), PLAIN)
    ensures L.Next([st], scorer, Calls(d, id, a, b)[0]) == Created(d, st, id, a, b)
  {
  }

  /** A walkover to the home side that is propagated to the home slot of match key. */
  lemma HomeWinnerIsSeated(st: Store, id: Uuid, key: Uuid, teams: bool, x: string, y: string)
    requires id in st.rows && key in st.rows && id != key && st.rows[key].status.Scheduled?
    requires var row := st.rows[id];
             && row.status.Scheduled? && row.tournament in st.ongoing && row.tournament == st.rows[key].tournament
             && row.home == P.SideFor(teams, x) && row.away == P.SideFor(teams, y)
             && row.nextMatch == Some(key) && row.nextSlot == Some(1)
    ensures PrepareWalkover(id, st.rows[id], "home", "no show").Ok?
    ensures var c := WalkoverRow(st.rows[id], P.SideFor(teams, x));
            WalkoverTx(st, PrepareWalkover(id, st.rows[id], "home", "no show").value)
              == Ok(st.rows[id := c][key := st.rows[key].(home := P.SideFor(teams, x))])
  {
  }

  lemma CreatedIsSeated(d: GroupDraw, st: Store, id: Uuid, a: nat, b: nat)
    requires CanLink(d, st, id, a, b)
    ensures var created := Created(d, st, id, a, b);
            && PrepareWalkover(id, created.rows[id], "home", "no show").Ok?
            && WalkoverTx(created, PrepareWalkover(id, created.rows[id], "home", "no show").value) == Ok(SeatedRows(d, st, id, a, b))
  {
    FirstRow(d, st.rows, st.cards);
    HomeWinnerIsSeated(Created(d, st, id, a, b), id, d.keys[Base(d)], d.teams, d.seeded[a].id, d.seeded[b].id);
    Overwrites(st.rows, id, LinkedRow(d, a, b), WonRow(d, a, b));
  }

  lemma Overwrites(rows: Rows, id: Uuid, r: Row, c: Row)
    ensures rows[id := r][id := c] == rows[id := c]
  {
  }

  lemma AwardCommits(d: GroupDraw, st: Store, scorer: Scorer, id: Uuid, a: nat, b: nat, h: L.History)
    requires CanLink(d, st, id, a, b) && |h| == 2 && h[1] == Created(d, st, id, a, b)
    ensures L.Outcome(h, scorer, Calls(d, id, a, b)[1]) == Ok(SeatedRows(d, st, id, a, b))
    ensures L.Next(h, scorer, Calls(d, id, a, b)[1]) == h[1].(rows := SeatedRows(d, st, id, a, b))
  {
    CreatedIsSeated(d, st, id, a, b);
    LastCall(h, scorer, Calls(d, id, a, b)[1]);
  }

  lemma LastCall(h: L.History, scorer: Scorer, a: L.Action)
    requires |h| == 2 && a.AwardWalkover? && a.seen == 1 && a.id in h[1].rows
    requires PrepareWalkover(a.id, h[1].rows[a.id], a.winner, a.reason).Ok?
    requires WalkoverTx(h[1], PrepareWalkover(a.id, h[1].rows[a.id], a.winner, a.reason).value).Ok?
    ensures var r := WalkoverTx(h[1], PrepareWalkover(a.id, h[1].rows[a.id], a.winner, a.reason).value);
            L.Outcome(h, scorer, a) == r && L.Next(h, scorer, a) == h[1].(rows := r.value)
  {
    assert L.Seen(h, 1) == h[1] && L.Last(h) == h[1];
  }

  lemma {:induction false} CallsCommit(d: GroupDraw, st: Store, scorer: Scorer, id: Uuid, a: nat, b: nat) returns (h: L.History)
    requires CanLink(d, st, id, a, b)
    ensures h == L.Trace(st, scorer, Calls(d, id, a, b)) && |h| == 3 && h[1] == Created(d, st, id, a, b)
    ensures h[2] == h[1].(rows := SeatedRows(d, st, id, a, b))
    ensures L.Outcome(h[..2], scorer, Calls(d, id, a, b)[1]).Ok?
  {
    var calls := Calls(d, id, a, b);
    h := L.Trace(st, scorer, calls);
    L.HistoryStep(st, scorer, calls, 0);
    L.HistoryStep(st, scorer, calls, 1);
    assert h[..1] == [st];
    CreationCommits(d, st, scorer, id, a, b);
    AwardCommits(d, st, scorer, id, a, b, h[..2]);
  }

  // ---- the service admits the creation ----

  /** No stored match feeds the first knockout match. */
  lemma NobodyFeedsFirst(d: GroupDraw, rows: Rows, cards: Cards, ranked: Ranking, id: Uuid)
    requires GroupTable(d, rows, cards) && EndsWaiting(d) && BB.IsDraw(ResolvedDraw(d, ranked)) && id in rows && Base(d) < |d.keys|
    ensures rows[id].nextMatch != Some(d.keys[Base(d)])
  {
    if id in d.keys {
      var i := KeyIndex(d, id);
      G.RowFits(d, rows, cards, i);
      if i >= Base(d) { WaitingFeedsLater(d, ranked, i - Base(d), rows[id]); }
    } else {
      assert IsForeign(d, rows, cards, id);
      var key := d.keys[Base(d)];
      assert key in d.keys;
    }
  }

  lemma WaitingFeedsLater(d: GroupDraw, ranked: Ranking, j: nat, row: Row)
    requires EndsWaiting(d) && BB.IsDraw(ResolvedDraw(d, ranked)) && j < |d.ko| && IsWaitingRow(d, row, Base(d) + j)
    ensures row.nextMatch != Some(d.keys[Base(d)])
  {
    WaitingIsLinked(d, ranked, j, row);
    WaitsAtKey(d, ranked);
    BB.DrawHasShape(ResolvedDraw(d, ranked));
    FeedsALaterMatch(ResolvedDraw(d, ranked), row, j);
  }

  lemma WaitsAtKey(d: GroupDraw, ranked: Ranking)
    requires EndsWaiting(d) && BB.IsDraw(ResolvedDraw(d, ranked)) && |d.ko| > 0
    ensures var bd := ResolvedDraw(d, ranked);
            Distinct(bd.keys) && |bd.keys| == |bd.matches| == |d.ko| && bd.keys[0] == d.keys[Base(d)]
  {
  }

  lemma FeedsALaterMatch(bd: BB.Draw, c: Row, j: nat)
    requires BB.Shape(bd) && Distinct(bd.keys) && |bd.keys| == |bd.matches| && j < |bd.keys| && R.Linked(bd, c, j)
    ensures c.nextMatch != Some(bd.keys[0])
  {
    if j < |bd.keys| - 1 {
      assert BB.HasEdge(bd, j);
      var t, s :| BB.EdgeTo(bd, j, t, s);
      assert bd.keys[t] != bd.keys[0];
    }
  }

  /** A placeholder slot has no feeder, so the check of links lets the hand-made match in. */
  lemma CreationIsAdmitted(d: GroupDraw, st: Store, id: Uuid, a: nat, b: nat, ranked: Ranking)
    requires CanLink(d, st, id, a, b) && EndsWaiting(d) && BB.IsDraw(ResolvedDraw(d, ranked))
    ensures AdmitsCreation(st.rows, LinkedRow(d, a, b), Entry(d.teams, true))
  {
    MembersDiffer(d, a, b);
    FirstRow(d, st.rows, st.cards);
    forall x | x in st.rows ensures st.rows[x].nextMatch != Some(d.keys[Base(d)]) {
      NobodyFeedsFirst(d, st.rows, st.cards, ranked, x);
    }
    FreeLinkIsAdmitted(st.rows, LinkedRow(d, a, b), d.keys[Base(d)], d.teams, d.seeded[a].id, d.seeded[b].id);
  }

  lemma FreeLinkIsAdmitted(rows: Rows, row: Row, key: Uuid, teams: bool, x: string, y: string)
    requires row.home == P.SideFor(teams, x) && row.away == P.SideFor(teams, y) && row.home != row.away
    requires row.nextMatch == Some(key) && row.nextSlot == Some(1) && key in rows && rows[key].tournament == row.tournament
    requires forall id | id in rows :: rows[id].nextMatch != Some(key)
    ensures AdmitsCreation(rows, row, Entry(teams, true))
  {
  }

  // ---- the group stage beside it ----

  lemma UnlinkedIsStage(d: GroupDraw, st: Store, id: Uuid, a: nat, b: nat)
    requires CanLink(d, st, id, a, b)
    ensures InGroupStage(d, Unlinked(d, st, id, a, b), st.cards[id := PLAIN])
  {
    var (after, cards) := (Unlinked(d, st, id, a, b), st.cards[id := PLAIN]);
    forall i | 0 <= i < |d.keys| ensures G.SameEntry(st.rows, after, d.keys[i]) && G.SameEntry(st.cards, cards, d.keys[i]) {
      G.RowFits(d, st.rows, st.cards, i);
    }
    forall x | x in after && x !in d.keys ensures IsForeign(d, after, cards, x) {
      if x != id { assert IsForeign(d, st.rows, st.cards, x); }
    }
    G.OthersChange(d, st.rows, st.cards, after, cards);
  }

  /** Who has played depends on the rows of the plan only. */
  lemma SamePlayed(d: GroupDraw, rows: Rows, after: Rows)
    requires |d.keys| == |d.matches| && forall i | 0 <= i < |d.keys| :: G.SameEntry(rows, after, d.keys[i])
    ensures GroupsOver(d, rows) ==> GroupsOver(d, after)
    ensures EnoughPlayed(d, rows) ==> EnoughPlayed(d, after)
  {
    if GroupsOver(d, rows) {
      forall i | 0 <= i < |d.keys| && i < Base(d) ensures d.keys[i] in after && IsOver(after[d.keys[i]]) {
        assert G.SameEntry(rows, after, d.keys[i]);
      }
    }
    forall l, p ensures HasPlayed(d, rows, l, p) <==> HasPlayed(d, after, l, p) {
      forall i ensures Concluded(d, rows, i) <==> Concluded(d, after, i) {
        if 0 <= i < |d.keys| { assert G.SameEntry(rows, after, d.keys[i]); }
      }
    }
    forall k | 0 <= k < |d.groups| ensures PlayersOf(d, rows, k) == PlayersOf(d, after, k) {}
  }

  lemma SeatedIsOneSide(d: GroupDraw, st: Store, id: Uuid, a: nat, b: nat, ids: seq<Uuid>)
    requires CanLink(d, st, id, a, b) && Covers(ids, Unlinked(d, st, id, a, b))
    requires |d.ko| > 0 && d.ko[0].home.Qualifier? && d.ko[0].away.Qualifier?
    ensures var (base, cards) := (Unlinked(d, st, id, a, b), st.cards[id := PLAIN]);
            OneSideTaken(base, cards, SeatedRows(d, st, id, a, b), QualifierMatches(base, cards, d.tournament, ids), d.keys[Base(d)])
  {
    var (base, cards, after, key) := (Unlinked(d, st, id, a, b), st.cards[id := PLAIN], SeatedRows(d, st, id, a, b), d.keys[Base(d)]);
    var ms := QualifierMatches(base, cards, d.tournament, ids);
    UnlinkedIsStage(d, st, id, a, b);
    FirstRow(d, base, cards);
    ListedIfWaiting(d, base, cards, ids, 0);
    forall i | 0 <= i < |ms| ensures ms[i] in base && base[ms[i]].home == VACANT && base[ms[i]].away == VACANT && ms[i] != id {
      ListedIsEmpty(d, base, cards, ids, ms[i]);
    }
    assert SameStage(base, cards, after);
  }

  // ---- the slot is counted ----

  /** The input: in a group stage whose resolution is due, a hand-made match of two participants, which passes all checks,
      is linked to the home slot of the first knockout match and won by walkover.  Resolution then succeeds and reports
      one slot more than it fills. */
  lemma {:induction false} LinkedSlotIsCounted(d: GroupDraw, st: Store, scorer: Scorer, id: Uuid, a: nat, b: nat,
                                               info: Option<TournamentInfo>, ids: seq<Uuid>, ranked: Ranking) returns (h: L.History)
    requires CanLink(d, st, id, a, b) && GroupsOver(d, st.rows) && EnoughPlayed(d, st.rows) && Admits(d, info)
    requires var last := L.Last(L.Trace(st, scorer, Calls(d, id, a, b))); RanksStage(d, last.rows, last.cards, ids, ranked)
    ensures AdmitsCreation(st.rows, LinkedRow(d, a, b), Entry(d.teams, true)) && L.Creates(st, id, LinkedRow(d, a, b), PLAIN)
    ensures h == L.Trace(st, scorer, Calls(d, id, a, b)) && |h| == 3 && L.Outcome(h[..2], scorer, Calls(d, id, a, b)[1]).Ok?
    ensures CountsOneTooMany(d, h[2], info, ids, ranked)
  {
    h := CallsCommit(d, st, scorer, id, a, b);
    CreationCommits(d, st, scorer, id, a, b);
    ReportsOneMore(d, st, id, a, b, info, ids, ranked);
  }

  ghost predicate CountsOneTooMany(d: GroupDraw, st: Store, info: Option<TournamentInfo>, ids: seq<Uuid>, ranked: Ranking) {
    var ms := QualifierMatches(st.rows, st.cards, d.tournament, ids);
    var r := Resolution(st.rows, st.cards, d.tournament, info, ids, ranked);
    && r.Ok? && (forall i | 0 <= i < |ms| :: ms[i] in st.rows && ms[i] in r.value.0)
    && r.value.1 == SlotsFilled(st.rows, r.value.0, ms, |ms|) + 1
  }

  lemma ReportsOneMore(d: GroupDraw, st: Store, id: Uuid, a: nat, b: nat, info: Option<TournamentInfo>, ids: seq<Uuid>, ranked: Ranking)
    requires CanLink(d, st, id, a, b) && GroupsOver(d, st.rows) && EnoughPlayed(d, st.rows) && Admits(d, info)
    requires RanksStage(d, SeatedRows(d, st, id, a, b), st.cards[id := PLAIN], ids, ranked)
    ensures AdmitsCreation(st.rows, LinkedRow(d, a, b), Entry(d.teams, true))
    ensures CountsOneTooMany(d, Created(d, st, id, a, b).(rows := SeatedRows(d, st, id, a, b)), info, ids, ranked)
  {
    var (base, cards, after) := (Unlinked(d, st, id, a, b), st.cards[id := PLAIN], SeatedRows(d, st, id, a, b));
    UnlinkedIsDue(d, st, id, a, b, info, ids, ranked);
    SuccessIsResolvable(d, base, cards, info, ids, ranked);
    FirstAwaitsTwo(d, ranked);
    CreationIsAdmitted(d, st, id, a, b, ranked);
    SeatedIsOneSide(d, st, id, a, b, ids);
    TakenSlotIsCounted(base, after, cards, d.tournament, info, ids, ranked, d.keys[Base(d)]);
  }

  lemma SeatedIsSameStage(d: GroupDraw, st: Store, id: Uuid, a: nat, b: nat)
    requires CanLink(d, st, id, a, b)
    ensures SameStage(Unlinked(d, st, id, a, b), st.cards[id := PLAIN], SeatedRows(d, st, id, a, b))
  {
    FirstRow(d, st.rows, st.cards);
  }

  lemma UnlinkedIsDue(d: GroupDraw, st: Store, id: Uuid, a: nat, b: nat, info: Option<TournamentInfo>, ids: seq<Uuid>, ranked: Ranking)
    requires CanLink(d, st, id, a, b) && GroupsOver(d, st.rows) && EnoughPlayed(d, st.rows) && Admits(d, info)
    requires RanksStage(d, SeatedRows(d, st, id, a, b), st.cards[id := PLAIN], ids, ranked)
    ensures var (base, cards) := (Unlinked(d, st, id, a, b), st.cards[id := PLAIN]);
            && InGroupStage(d, base, cards) && RanksStage(d, base, cards, ids, ranked)
            && Resolution(base, cards, d.tournament, info, ids, ranked).Ok?
  {
    var (base, cards, after) := (Unlinked(d, st, id, a, b), st.cards[id := PLAIN], SeatedRows(d, st, id, a, b));
    UnlinkedIsStage(d, st, id, a, b);
    forall i | 0 <= i < |d.keys| ensures G.SameEntry(st.rows, base, d.keys[i]) { G.RowFits(d, st.rows, st.cards, i); }
    SamePlayed(d, st.rows, base);
    SeatedIsSameStage(d, st, id, a, b);
    QueriesStay(base, cards, after, d.tournament, info, ids);
    StandingsStay(base, cards, after, d.tournament, ids, ranked);
    assert Covers(ids, base) by { forall x ensures x in after <==> x in base { assert x in after.Keys <==> x in base.Keys; } }
    ResolvesIff(d, base, cards, info, ids, ranked);
  }
}
