// Whole runs of a group tournament: the group stage from generation on, the resolution of its qualifiers, and
// the knockout phase that follows (backend/internal/fixturegen/repository.go, lines 82-346;
// backend/internal/matches/service.go).

module GroupRun {
  import opened FixtureModels
  import opened Seeding
  import opened BracketTree
  import GK = GroupKnockout
  import Gen = Generator
  import opened MatchStore
  import P = PlanInsertion
  import opened Qualification
  import opened FinishedGroups
  import opened ResolvedKnockout
  import BB = BracketBoard
  import R = BracketRun
  import BL = BracketLimits
  import L = Lifecycle
  import F = FixtureRepository

  // ---- generation starts the group stage ----

  /** The parts of a generated group_knockout plan. */
  lemma GroupDrawOf(ps: seq<Participant>, s: Gen.Settings, draws: seq<nat>, plan: Gen.Plan, tournament: Uuid, teams: bool, keys: seq<Uuid>)
    returns (d: GroupDraw)
    requires |ps| >= 2 && ValidDraws(draws, |ps| - 1) && Gen.IsPlan(ps, s, draws, plan) && s.format.FormatGroupKnockout?
    requires Distinct(keys) && |keys| == |plan.matches|
    ensures IsGroupDraw(d) && d.keys == keys && d.teams == teams && d.tournament == tournament
    ensures d.g == s.groups && d.q == s.qualifiersPerGroup && plan.seedOrder == Ids(d.seeded) && plan.matches == Gen.Numbered(d.matches)
  {
    var order := SeedOrder(ps, s.seedStrategy, draws).value;
    var ms :| Gen.Builds(order, s, ms, plan.byes) && plan.matches == Gen.Numbered(ms);
    var gs, ls, r, ko, m, nodes :|
      GK.IsGroupKnockout(order, s.groups, s.qualifiersPerGroup, ms, gs, ls, r, ko, m, nodes);
    d := GroupDraw(order, s.groups, s.qualifiersPerGroup, ms, gs, ls, r, ko, m, nodes, tournament, teams, keys);
  }

  /** A generated and stored group_knockout plan is the group stage that the theorems below start from. */
  lemma StoredGroupsOpen(ps: seq<Participant>, s: Gen.Settings, draws: seq<nat>, plan: Gen.Plan, tournament: Uuid, teams: bool,
                         keys: seq<Uuid>, before: Store, st: Store) returns (d: GroupDraw)
    requires |ps| >= 2 && ValidDraws(draws, |ps| - 1) && Gen.IsPlan(ps, s, draws, plan) && s.format.FormatGroupKnockout?
    requires F.LinksInside(before.rows) && !HasFixtures(before.rows, tournament)
    requires F.Stores(before, st, plan.matches, tournament, teams, keys)
    ensures InGroupStage(d, st.rows, st.cards) && AllScheduled(d, st.rows)
    ensures d.keys == keys && d.teams == teams && d.tournament == tournament && d.g == s.groups && d.q == s.qualifiersPerGroup
    ensures plan.seedOrder == Ids(d.seeded) && plan.matches == Gen.Numbered(d.matches)
  {
    d := GroupDrawOf(ps, s, draws, plan, tournament, teams, keys);
    F.OthersStayOut(before.rows, st.rows, keys);
    forall i | 0 <= i < |d.keys| ensures HasRow(d, st.rows, st.cards, i) && st.rows[d.keys[i]].status.Scheduled? {
      GroupLabelAndLinks(d, i);
      StoredRow(d, st.rows, st.cards, i);
    }
    forall id | id in st.rows && id !in d.keys ensures IsForeign(d, st.rows, st.cards, id) {
      assert id in before.rows && st.rows[id] == before.rows[id];
    }
  }

  lemma GroupLabelAndLinks(d: GroupDraw, i: nat)
    requires IsGroupDraw(d) && i < |d.matches|
    ensures i < Base(d) ==> d.matches[i].nextMatchIndex == None && d.matches[i].nextSlot == None
  {
    BaseIsStages(d);
    if i < Base(d) { assert GK.IsGroupMatch(GK.Stages(d.groups, d.legs, d.g)[i], i); }
  }

  lemma StoredRow(d: GroupDraw, rows: Rows, cards: Cards, i: nat)
    requires i < |d.matches| == |d.keys| && (i < Base(d) ==> d.matches[i].nextMatchIndex == None)
    requires P.IsStored(Gen.Numbered(d.matches), d.tournament, d.teams, d.keys, rows) && P.HasCards(Gen.Numbered(d.matches), d.keys, cards)
    ensures HasRow(d, rows, cards, i) && rows[d.keys[i]].status.Scheduled?
  {
    assert P.RowOfMatch(Gen.Numbered(d.matches), d.tournament, d.teams, d.keys, rows, i);
  }

  // ---- moves on the rows ----

  /** Row c may stand for match i. */
  ghost predicate Fits(d: GroupDraw, c: Row, i: int)
    requires 0 <= i < |d.matches| == |d.keys|
  {
    if i < Base(d) then IsGroupRow(d, c, i) else IsWaitingRow(d, c, i)
  }

  lemma RowFits(d: GroupDraw, rows: Rows, cards: Cards, i: nat)
    requires GroupTable(d, rows, cards) && i < |d.keys|
    ensures d.keys[i] in rows && d.keys[i] in cards && Fits(d, rows[d.keys[i]], i)
  {
    assert HasRow(d, rows, cards, i);
  }

  lemma OneRow(d: GroupDraw, rows: Rows, cards: Cards, i: nat, c: Row)
    requires GroupTable(d, rows, cards) && Distinct(d.keys) && i < |d.keys| && Fits(d, c, i)
    ensures GroupTable(d, rows[d.keys[i] := c], cards)
  {
    var after := rows[d.keys[i] := c];
    forall k | 0 <= k < |d.keys| ensures HasRow(d, after, cards, k) { assert HasRow(d, rows, cards, k); }
    forall id | id in after && id !in d.keys ensures IsForeign(d, after, cards, id) { assert IsForeign(d, rows, cards, id); }
  }

  ghost predicate StaysOut(d: GroupDraw, before: Row, after: Row) {
    after.tournament == before.tournament && (after.nextMatch.Some? ==> after.nextMatch.value !in d.keys)
  }

  lemma ForeignRow(d: GroupDraw, rows: Rows, cards: Cards, id: Uuid, c: Row)
    requires GroupTable(d, rows, cards) && id in rows && id !in d.keys && StaysOut(d, rows[id], c)
    ensures GroupTable(d, rows[id := c], cards)
  {
    var after := rows[id := c];
    forall k | 0 <= k < |d.keys| ensures HasRow(d, after, cards, k) {
      assert d.keys[k] in d.keys && HasRow(d, rows, cards, k);
    }
    forall x | x in after && x !in d.keys ensures IsForeign(d, after, cards, x) { assert IsForeign(d, rows, cards, x); }
  }

  /** A foreign match and the successor it feeds. */
  lemma ForeignWrite(d: GroupDraw, rows: Rows, cards: Cards, id: Uuid, c: Row)
    requires GroupTable(d, rows, cards) && id in rows && id !in d.keys && StaysOut(d, rows[id], c)
    ensures GroupTable(d, rows[id := c], cards)
    ensures var r := Propagate(rows[id := c], c); r.Ok? ==> GroupTable(d, r.value, cards)
  {
    var tx := rows[id := c];
    ForeignRow(d, rows, cards, id, c);
    var r := Propagate(tx, c);
    if r.Ok? && r.value != tx {
      var next := c.nextMatch.value;
      assert IsForeign(d, tx, cards, next);
      ForeignRow(d, tx, cards, next, r.value[next]);
      assert r.value == tx[next := r.value[next]];
    }
  }

  // ---- the calls ----

  ghost predicate KeepsTable(d: GroupDraw, cards: Cards, r: Result<Rows, MatchError>) {
    r.Ok? ==> GroupTable(d, r.value, cards)
  }

  /** Writing a group match touches nothing else: it has no successor. */
  lemma GroupRowWrite(d: GroupDraw, rows: Rows, cards: Cards, i: nat, c: Row)
    requires GroupTable(d, rows, cards) && Distinct(d.keys) && i < |d.keys| && i < Base(d) && IsGroupRow(d, c, i)
    ensures KeepsTable(d, cards, Ok(rows[d.keys[i] := c])) && KeepsTable(d, cards, Propagate(rows[d.keys[i] := c], c))
  {
    OneRow(d, rows, cards, i, c);
  }

  /** The PATCH of a group match keeps its participants, which never change. */
  lemma GroupPatch(d: GroupDraw, st: Store, scorer: Scorer, i: nat, current: Row, q: Patch, entry: Entry)
    requires GroupTable(d, st.rows, st.cards) && Distinct(d.keys) && i < |d.keys| && i < Base(d) && IsGroupRow(d, current, i)
    requires d.keys[i] in st.rows && q.link.None? && PrepareUpdate(d.keys[i], current, q, entry).Ok?
    requires UpdateTx(st, scorer, PrepareUpdate(d.keys[i], current, q, entry).value).Ok? ==>
               R.WritesSides(current, q, st.rows[d.keys[i]])
    ensures KeepsTable(d, st.cards, UpdateTx(st, scorer, PrepareUpdate(d.keys[i], current, q, entry).value))
  {
    var p := PrepareUpdate(d.keys[i], current, q, entry).value;
    RowFits(d, st.rows, st.cards, i);
    R.PreparedFor(d.keys[i], current, q, entry);
    R.UpdateOutcome(st, scorer, p);
    if UpdateTx(st, scorer, p).Ok? {
      GroupRowWrite(d, st.rows, st.cards, i, R.WrittenRow(st, scorer, p));
    }
  }

  /** A waiting knockout match cannot start: a PATCH can only cancel it. */
  lemma WaitingPatch(d: GroupDraw, st: Store, scorer: Scorer, i: nat, current: Row, q: Patch, entry: Entry)
    requires GroupTable(d, st.rows, st.cards) && Distinct(d.keys) && i < |d.keys| && i >= Base(d)
    requires IsWaitingRow(d, current, i) && !d.matches[i].home.Concrete? && !d.matches[i].away.Concrete?
    requires d.keys[i] in st.rows && q.link.None? && PrepareUpdate(d.keys[i], current, q, entry).Ok?
    requires UpdateTx(st, scorer, PrepareUpdate(d.keys[i], current, q, entry).value).Ok? ==>
               R.WritesSides(current, q, st.rows[d.keys[i]])
    ensures KeepsTable(d, st.cards, UpdateTx(st, scorer, PrepareUpdate(d.keys[i], current, q, entry).value))
  {
    var p := PrepareUpdate(d.keys[i], current, q, entry).value;
    RowFits(d, st.rows, st.cards, i);
    R.PreparedFor(d.keys[i], current, q, entry);
    R.UpdateOutcome(st, scorer, p);
    if UpdateTx(st, scorer, p).Ok? {
      assert p.home == VACANT && p.away == VACANT && current.winner == VACANT;
      assert p.status.Scheduled? || p.status.Cancelled?;
      OneRow(d, st.rows, st.cards, i, R.WrittenRow(st, scorer, p));
    }
  }

  lemma WalkoverOf(d: GroupDraw, st: Store, i: nat, current: Row, winner: string, reason: string)
    requires GroupTable(d, st.rows, st.cards) && Distinct(d.keys) && i < |d.keys| && Fits(d, current, i)
    requires i >= Base(d) ==> !d.matches[i].home.Concrete? && !d.matches[i].away.Concrete?
    requires PrepareWalkover(d.keys[i], current, winner, reason).Ok?
    ensures KeepsTable(d, st.cards, WalkoverTx(st, PrepareWalkover(d.keys[i], current, winner, reason).value))
  {
    var p := PrepareWalkover(d.keys[i], current, winner, reason).value;
    RowFits(d, st.rows, st.cards, i);
    assert i < Base(d);
    GroupRowWrite(d, st.rows, st.cards, i, WalkoverRow(st.rows[d.keys[i]], p.winner));
  }

  lemma CancelOf(d: GroupDraw, st: Store, i: nat, current: Row)
    requires GroupTable(d, st.rows, st.cards) && Distinct(d.keys) && i < |d.keys| && Fits(d, current, i)
    requires PrepareCancel(current).Ok?
    ensures KeepsTable(d, st.cards, CancelTx(st, d.keys[i], PrepareCancel(current).value))
  {
    RowFits(d, st.rows, st.cards, i);
    OneRow(d, st.rows, st.cards, i, st.rows[d.keys[i]].(status := Cancelled));
  }

  lemma ForeignPatch(d: GroupDraw, st: Store, scorer: Scorer, id: Uuid, current: Row, q: Patch, entry: Entry)
    requires GroupTable(d, st.rows, st.cards) && id !in d.keys && R.LinksAround(d.keys, q) && PrepareUpdate(id, current, q, entry).Ok?
    requires current.nextMatch.Some? ==> current.nextMatch.value !in d.keys
    ensures KeepsTable(d, st.cards, UpdateTx(st, scorer, PrepareUpdate(id, current, q, entry).value))
  {
    var p := PrepareUpdate(id, current, q, entry).value;
    R.PreparedFor(id, current, q, entry);
    R.UpdateOutcome(st, scorer, p);
    if R.Passes(st, scorer, p) {
      ForeignWrite(d, st.rows, st.cards, id, R.WrittenRow(st, scorer, p));
    }
  }

  lemma ForeignWalkover(d: GroupDraw, st: Store, id: Uuid, current: Row, winner: string, reason: string)
    requires GroupTable(d, st.rows, st.cards) && id !in d.keys && PrepareWalkover(id, current, winner, reason).Ok?
    ensures KeepsTable(d, st.cards, WalkoverTx(st, PrepareWalkover(id, current, winner, reason).value))
  {
    var p := PrepareWalkover(id, current, winner, reason).value;
    if id in st.rows {
      assert IsForeign(d, st.rows, st.cards, id);
      ForeignWrite(d, st.rows, st.cards, id, WalkoverRow(st.rows[id], p.winner));
    }
  }

  lemma ForeignCancel(d: GroupDraw, st: Store, id: Uuid, current: Row)
    requires GroupTable(d, st.rows, st.cards) && id !in d.keys && PrepareCancel(current).Ok?
    ensures KeepsTable(d, st.cards, CancelTx(st, id, PrepareCancel(current).value))
  {
    if id in st.rows {
      assert IsForeign(d, st.rows, st.cards, id);
      ForeignRow(d, st.rows, st.cards, id, st.rows[id].(status := Cancelled));
    }
  }

  // ---- inserts and resolutions ----

  ghost predicate SameEntry<T(!new)>(before: map<Uuid, T>, after: map<Uuid, T>, id: Uuid) {
    id in before && id in after && after[id] == before[id]
  }

  /** Rows are added, and the rows of the tournament stay. */
  lemma OthersChange(d: GroupDraw, rows: Rows, cards: Cards, after: Rows, cards': Cards)
    requires GroupTable(d, rows, cards)
    requires forall i | 0 <= i < |d.keys| :: SameEntry(rows, after, d.keys[i]) && SameEntry(cards, cards', d.keys[i])
    requires forall id | id in after && id !in d.keys :: IsForeign(d, after, cards', id)
    ensures GroupTable(d, after, cards')
  {
    forall k | 0 <= k < |d.keys| ensures HasRow(d, after, cards', k) { assert HasRow(d, rows, cards, k); }
  }

  lemma CreationKeeps(d: GroupDraw, st: Store, id: Uuid, row: Row, card: Card)
    requires GroupTable(d, st.rows, st.cards) && L.Creates(st, id, row, card)
    requires row.tournament == d.tournament ==> card.groupLabel == ""
    requires row.nextMatch.Some? ==> row.nextMatch.value !in d.keys
    ensures GroupTable(d, st.rows[id := row], st.cards[id := card])
  {
    var after, cards' := st.rows[id := row], st.cards[id := card];
    forall i | 0 <= i < |d.keys| ensures SameEntry(st.rows, after, d.keys[i]) && SameEntry(st.cards, cards', d.keys[i]) {
      RowFits(d, st.rows, st.cards, i);
    }
    forall x | x in after && x !in d.keys ensures IsForeign(d, after, cards', x) {
      if x != id { assert IsForeign(d, st.rows, st.cards, x); }
    }
    OthersChange(d, st.rows, st.cards, after, cards');
  }

  lemma GenerationKeeps(d: GroupDraw, st: Store, t: Uuid, teams: bool, plan: seq<PlannedMatch>, keys: seq<Uuid>)
    requires GroupTable(d, st.rows, st.cards) && |d.keys| > 0 && L.Generates(st, t, plan, keys)
    ensures GroupTable(d, P.AddRows(st.rows, plan, t, teams, keys, |plan|), P.AddCards(st.cards, plan, keys, |plan|))
  {
    var after, cards' := P.AddRows(st.rows, plan, t, teams, keys, |plan|), P.AddCards(st.cards, plan, keys, |plan|);
    P.RowsAdded(st.rows, plan, t, teams, keys, |plan|);
    P.CardsAdded(st.cards, plan, keys, |plan|);
    assert keys[..|plan|] == keys;
    OtherTournament(d, st, t);
    forall i | 0 <= i < |d.keys| ensures SameEntry(st.rows, after, d.keys[i]) && SameEntry(st.cards, cards', d.keys[i]) {
      RowFits(d, st.rows, st.cards, i);
      var id := d.keys[i];
      assert id in st.rows && id in st.cards;
    }
    forall x | x in after && x !in d.keys ensures IsForeign(d, after, cards', x) {
      if x in st.rows {
        assert IsForeign(d, st.rows, st.cards, x);
        assert x in cards' ==> x in st.cards;
      } else {
        var i :| 0 <= i < |keys| && keys[i] == x;
        NewRowIsForeign(d, st, t, teams, plan, keys, i);
      }
    }
    OthersChange(d, st.rows, st.cards, after, cards');
  }

  /** The tournament has fixtures, so generation goes ahead for another one only. */
  lemma OtherTournament(d: GroupDraw, st: Store, t: Uuid)
    requires GroupTable(d, st.rows, st.cards) && |d.keys| > 0 && !HasFixtures(st.rows, t)
    ensures t != d.tournament
  {
    RowFits(d, st.rows, st.cards, 0);
    var id := d.keys[0];
    assert id in st.rows && st.rows[id].tournament == d.tournament;
  }

  lemma NewRowIsForeign(d: GroupDraw, st: Store, t: Uuid, teams: bool, plan: seq<PlannedMatch>, keys: seq<Uuid>, i: nat)
    requires GroupTable(d, st.rows, st.cards) && i < |keys| == |plan| && P.FreshKeys(st.rows, st.cards, keys) && t != d.tournament
    ensures var row := P.PlanRow(plan, t, teams, keys, i);
            row.tournament != d.tournament && (row.nextMatch.Some? ==> row.nextMatch.value !in d.keys)
  {
    forall k | 0 <= k < |keys| ensures keys[k] !in d.keys {
      if keys[k] in d.keys {
        var j := KeyIndex(d, keys[k]);
        RowFits(d, st.rows, st.cards, j);
      }
    }
  }

  lemma OtherResolution(d: GroupDraw, st: Store, t: Uuid, info: Option<TournamentInfo>, ids: seq<Uuid>, ranked: Ranking)
    requires GroupTable(d, st.rows, st.cards) && t != d.tournament && Distinct(ids)
    requires Resolution(st.rows, st.cards, t, info, ids, ranked).Ok?
    ensures GroupTable(d, Resolution(st.rows, st.cards, t, info, ids, ranked).value.0, st.cards)
  {
    var after := Resolution(st.rows, st.cards, t, info, ids, ranked).value.0;
    var ms := QualifierMatches(st.rows, st.cards, t, ids);
    QueriesSelect(st.rows, st.cards, t, ids);
    MatchesArePresent(st.rows, st.cards, t, ids);
    FillWrites(st.rows, st.cards, ms, |ms|, ranked, info.value.teams);
    ResolutionFills(st.rows, st.cards, t, info, ids, ranked);
    forall i | 0 <= i < |d.keys| ensures SameEntry(st.rows, after, d.keys[i]) && SameEntry(st.cards, st.cards, d.keys[i]) {
      RowFits(d, st.rows, st.cards, i);
      assert d.keys[i] !in ms;
    }
    forall x | x in after && x !in d.keys ensures IsForeign(d, after, st.cards, x) {
      assert x in st.rows && FillsRow(st.rows[x], after[x]) && IsForeign(d, st.rows, st.cards, x);
    }
    OthersChange(d, st.rows, st.cards, after, st.cards);
  }

  // ---- the run of the group stage ----

  /** The requests of a played group stage: its matches keep their participants and links in every PATCH, no other
      match is linked into it, hand-made matches of the tournament carry no group label, and its qualifiers have
      not been resolved yet. */
  ghost predicate Orderly(d: GroupDraw, h: L.History, scorer: Scorer, a: L.Action) {
    match a
    case PatchMatch(seen, id, patch, _) =>
      if id in d.keys then patch.link.None? && (L.Outcome(h, scorer, a).Ok? ==> R.KeepsSides(h, seen, id, patch))
      else R.LinksAround(d.keys, patch)
    case CreateMatch(_, row, card) =>
      && (row.tournament == d.tournament ==> card.groupLabel == "")
      && (row.nextMatch.Some? ==> row.nextMatch.value !in d.keys)
    case ResolveQualifiers(t, info, ids, ranked) =>
      t == d.tournament ==> Resolution(L.Last(h).rows, L.Last(h).cards, t, info, ids, ranked).Err?
    case _ => true
  }

  /** Every state so far is one of the group stage. */
  ghost predicate Staged(d: GroupDraw, h: L.History) {
    forall k | 0 <= k < |h| :: GroupTable(d, h[k].rows, h[k].cards)
  }

  lemma SeenIsStaged(d: GroupDraw, h: L.History, seen: nat)
    requires Staged(d, h)
    ensures GroupTable(d, L.Seen(h, seen).rows, L.Seen(h, seen).cards) && GroupTable(d, L.Last(h).rows, L.Last(h).cards)
  {
    assert GroupTable(d, h[|h|-1].rows, h[|h|-1].cards);
    if seen < |h| { assert GroupTable(d, h[seen].rows, h[seen].cards); }
  }

  lemma MemberCall(d: GroupDraw, h: L.History, scorer: Scorer, a: L.Action, i: nat)
    requires Orderly(d, h, scorer, a) && L.IsCall(a) && Distinct(d.keys) && i < |d.keys| && a.id == d.keys[i]
    requires GroupTable(d, L.Last(h).rows, L.Last(h).cards)
    requires a.id in L.Seen(h, a.seen).rows && Fits(d, L.Seen(h, a.seen).rows[a.id], i)
    requires i >= Base(d) ==> !d.matches[i].home.Concrete? && !d.matches[i].away.Concrete?
    ensures KeepsTable(d, L.Last(h).cards, L.Outcome(h, scorer, a))
  {
    var st, current := L.Last(h), L.Seen(h, a.seen).rows[a.id];
    RowFits(d, st.rows, st.cards, i);
    match a {
      case PatchMatch(seen, id, patch, entry) =>
        if PrepareUpdate(id, current, patch, entry).Ok? {
          if i < Base(d) {
            GroupPatch(d, st, scorer, i, current, patch, entry);
          } else {
            WaitingPatch(d, st, scorer, i, current, patch, entry);
          }
        }
      case AwardWalkover(seen, id, winner, reason) =>
        if PrepareWalkover(id, current, winner, reason).Ok? { WalkoverOf(d, st, i, current, winner, reason); }
      case DeleteMatch(seen, id) =>
        if PrepareCancel(current).Ok? { CancelOf(d, st, i, current); }
    }
  }

  lemma ForeignCall(d: GroupDraw, h: L.History, scorer: Scorer, a: L.Action)
    requires Orderly(d, h, scorer, a) && L.IsCall(a) && a.id !in d.keys
    requires GroupTable(d, L.Last(h).rows, L.Last(h).cards) && GroupTable(d, L.Seen(h, a.seen).rows, L.Seen(h, a.seen).cards)
    requires a.id in L.Seen(h, a.seen).rows
    ensures KeepsTable(d, L.Last(h).cards, L.Outcome(h, scorer, a))
  {
    var st, current := L.Last(h), L.Seen(h, a.seen).rows[a.id];
    assert IsForeign(d, L.Seen(h, a.seen).rows, L.Seen(h, a.seen).cards, a.id);
    match a {
      case PatchMatch(seen, id, patch, entry) =>
        if PrepareUpdate(id, current, patch, entry).Ok? { ForeignPatch(d, st, scorer, id, current, patch, entry); }
      case AwardWalkover(seen, id, winner, reason) =>
        if PrepareWalkover(id, current, winner, reason).Ok? { ForeignWalkover(d, st, id, current, winner, reason); }
      case DeleteMatch(seen, id) =>
        if PrepareCancel(current).Ok? { ForeignCancel(d, st, id, current); }
    }
  }

  lemma TableCall(d: GroupDraw, h: L.History, scorer: Scorer, a: L.Action)
    requires Orderly(d, h, scorer, a) && !L.IsCall(a) && GroupTable(d, L.Last(h).rows, L.Last(h).cards) && |d.keys| > 0
    ensures GroupTable(d, L.Next(h, scorer, a).rows, L.Next(h, scorer, a).cards)
  {
    var st := L.Last(h);
    match a {
      case CreateMatch(id, row, card) => if L.Creates(st, id, row, card) { CreationKeeps(d, st, id, row, card); }
      case GenerateFixtures(t, teams, plan, keys) =>
        if L.Generates(st, t, plan, keys) { GenerationKeeps(d, st, t, teams, plan, keys); }
      case ResolveQualifiers(t, info, ids, ranked) =>
        if Distinct(ids) && Resolution(st.rows, st.cards, t, info, ids, ranked).Ok? { OtherResolution(d, st, t, info, ids, ranked); }
      case _ =>
    }
  }

  /** What the run needs to know of the plan: it has matches, and the waiting ones have no participant. */
  ghost predicate Waits(d: GroupDraw) {
    && Distinct(d.keys) && |d.keys| == |d.matches| > 0
    && forall i | 0 <= i < |d.matches| && i >= Base(d) :: !d.matches[i].home.Concrete? && !d.matches[i].away.Concrete?
  }

  lemma DrawWaits(d: GroupDraw)
    requires IsGroupDraw(d)
    ensures Waits(d)
  {
    DrawEndsWaiting(d);
    Sizes(d);
    var j, s := RefSlot(d, 0);
    forall i | 0 <= i < |d.matches| && i >= Base(d) ensures !d.matches[i].home.Concrete? && !d.matches[i].away.Concrete? {
      EndsWithNobody(d, i, i - Base(d));
    }
  }

  lemma EndsWithNobody(d: GroupDraw, i: nat, j: nat)
    requires EndsWaiting(d) && i < |d.matches| && i == Base(d) + j
    ensures !d.matches[i].home.Concrete? && !d.matches[i].away.Concrete?
  {
    assert WaitsAt(d, j);
  }

  /** Whatever an orderly call read, the group stage goes on. */
  lemma StageStep(d: GroupDraw, h: L.History, scorer: Scorer, a: L.Action)
    requires Waits(d) && Staged(d, h) && Orderly(d, h, scorer, a)
    ensures Staged(d, h + [L.Next(h, scorer, a)])
  {
    SeenIsStaged(d, h, 0);
    if L.IsCall(a) {
      SeenIsStaged(d, h, a.seen);
      if a.id in L.Seen(h, a.seen).rows {
        if a.id in d.keys {
          var i := KeyIndex(d, a.id);
          RowFits(d, L.Seen(h, a.seen).rows, L.Seen(h, a.seen).cards, i);
          MemberCall(d, h, scorer, a, i);
        } else {
          ForeignCall(d, h, scorer, a);
        }
      }
    } else {
      TableCall(d, h, scorer, a);
    }
    var next := L.Next(h, scorer, a);
    assert GroupTable(d, next.rows, next.cards);
    forall k | 0 <= k < |h + [next]| ensures GroupTable(d, (h + [next])[k].rows, (h + [next])[k].cards) {
      if k < |h| { assert GroupTable(d, h[k].rows, h[k].cards); }
    }
  }

  ghost predicate OrderlyUpTo(d: GroupDraw, start: Store, scorer: Scorer, actions: seq<L.Action>, r: nat) {
    r <= |actions| && forall k | 0 <= k < r :: Orderly(d, L.Trace(start, scorer, actions)[..k+1], scorer, actions[k])
  }

  /** In every run of the group stage, until its qualifiers are resolved: group matches keep their participants,
      knockout matches wait without participants, and every card is as generated. */
  lemma {:induction false} GroupStageStays(d: GroupDraw, start: Store, scorer: Scorer, actions: seq<L.Action>, r: nat, k: nat)
    requires Waits(d) && GroupTable(d, start.rows, start.cards) && OrderlyUpTo(d, start, scorer, actions, r) && k <= r
    ensures Staged(d, L.Trace(start, scorer, actions)[..k+1])
    decreases k
  {
    var h := L.Trace(start, scorer, actions);
    if k > 0 {
      GroupStageStays(d, start, scorer, actions, r, k - 1);
      L.HistoryStep(start, scorer, actions, k - 1);
      StageStep(d, h[..k], scorer, actions[k-1]);
    }
  }

  // ---- resolution starts the knockout ----

  /** What an earlier call read of a waiting match, the knockout that follows can stand. */
  lemma WaitingIsReadable(d: GroupDraw, ranked: Ranking, j: nat, row: Row, now: Row)
    requires EndsWaiting(d) && j < |d.ko| && IsWaitingRow(d, row, Base(d) + j)
    ensures var bd := ResolvedDraw(d, ranked);
            |bd.keys| == |bd.matches| == |d.ko| && bd.keys[j] == d.keys[Base(d) + j] && R.Reading(bd, j, row, now)
  {
    WaitingIsLinked(d, ranked, j, row);
    assert WaitsAt(d, j);
  }

  lemma StageIsReadable(d: GroupDraw, rows: Rows, cards: Cards, ranked: Ranking, now: Rows)
    requires EndsWaiting(d) && GroupTable(d, rows, cards) && R.Present(ResolvedDraw(d, ranked), now)
    ensures R.Readable(ResolvedDraw(d, ranked), rows, now)
  {
    var bd := ResolvedDraw(d, ranked);
    forall j | 0 <= j < |bd.keys| ensures bd.keys[j] in rows && R.Reading(bd, j, rows[bd.keys[j]], now[bd.keys[j]]) {
      RowFits(d, rows, cards, Base(d) + j);
      WaitingIsReadable(d, ranked, j, rows[d.keys[Base(d) + j]], now[bd.keys[j]]);
    }
    forall id | id in rows && id !in bd.keys ensures R.NoneLinksIn(bd, rows[id]) {
      NoneLinkIn(d, rows, cards, id);
    }
  }

  /** The state in which the qualifiers are resolved is one of the group stage. */
  lemma StageAtCall(d: GroupDraw, start: Store, scorer: Scorer, actions: seq<L.Action>, r: nat)
    requires InGroupStage(d, start.rows, start.cards) && OrderlyUpTo(d, start, scorer, actions, r)
    ensures Staged(d, L.Trace(start, scorer, actions)[..r+1])
    ensures InGroupStage(d, L.Trace(start, scorer, actions)[r].rows, L.Trace(start, scorer, actions)[r].cards)
  {
    DrawWaits(d);
    GroupStageStays(d, start, scorer, actions, r, r);
    var h := L.Trace(start, scorer, actions)[..r+1];
    assert GroupTable(d, h[r].rows, h[r].cards);
  }

  /** Call a resolves the tournament's qualifiers in state st. */
  ghost predicate ResolvesNow(d: GroupDraw, st: Store, a: L.Action) {
    && a.ResolveQualifiers? && a.t == d.tournament && Admits(d, a.info)
    && RanksStage(d, st.rows, st.cards, a.ids, a.ranked)
    && Resolution(st.rows, st.cards, d.tournament, a.info, a.ids, a.ranked).Ok?
  }

  /** After h the bracket over the named qualifiers is in play: sound, and all of h can have been read. */
  ghost predicate InPlay(d: GroupDraw, ranked: Ranking, h: L.History) {
    d.g > 0 && 0 <= Base(d) <= |d.keys| && R.Consistent(ResolvedDraw(d, ranked), h)
  }

  /** And nothing was played in it yet. */
  ghost predicate OpensKnockout(d: GroupDraw, ranked: Ranking, h: L.History) {
    InPlay(d, ranked, h) && R.Unplayed(ResolvedDraw(d, ranked), L.Last(h).rows, L.Last(h).cards)
  }

  lemma ResolutionOpens(d: GroupDraw, h: L.History, st: Store, scorer: Scorer, a: L.Action, later: L.History)
    requires st == L.Last(h) && Staged(d, h) && InGroupStage(d, st.rows, st.cards) && ResolvesNow(d, st, a)
    requires later == h + [L.Next(h, scorer, a)]
    ensures InPlay(d, a.ranked, later) <==> PlaceholdersOpen(d, st.rows)
    ensures OpensKnockout(d, a.ranked, later) <==> PlaceholdersOpen(d, st.rows)
  {
    ResolvedKnockoutSoundIff(d, st.rows, st.cards, a.info, a.ids, a.ranked);
    DrawEndsWaiting(d);
    OpensIff(d, h, L.Next(h, scorer, a), a.ranked);
  }

  lemma StateResolves(d: GroupDraw, h: L.History, r: nat, scorer: Scorer, a: L.Action)
    requires r + 1 < |h| && h[..r+2] == h[..r+1] + [L.Next(h[..r+1], scorer, a)]
    requires Staged(d, h[..r+1]) && InGroupStage(d, h[r].rows, h[r].cards) && ResolvesNow(d, h[r], a)
    ensures InPlay(d, a.ranked, h[..r+2]) <==> PlaceholdersOpen(d, h[r].rows)
    ensures OpensKnockout(d, a.ranked, h[..r+2]) <==> PlaceholdersOpen(d, h[r].rows)
  {
    ResolutionOpens(d, h[..r+1], h[r], scorer, a, h[..r+2]);
  }

  /** A successful resolution in a run of the group stage starts the knockout, exactly when no knockout match that
      awaited a qualifier had been cancelled: from then on the bracket over the named qualifiers is in play, whatever
      calls of before are still to commit. */
  lemma ResolutionStartsKnockout(d: GroupDraw, start: Store, scorer: Scorer, actions: seq<L.Action>, r: nat)
    requires InGroupStage(d, start.rows, start.cards) && OrderlyUpTo(d, start, scorer, actions, r)
    requires r < |actions| && ResolvesNow(d, L.Trace(start, scorer, actions)[r], actions[r])
    ensures var (h, open) := (L.Trace(start, scorer, actions)[..r+2], PlaceholdersOpen(d, L.Trace(start, scorer, actions)[r].rows));
            && (InPlay(d, actions[r].ranked, h) <==> open)
            && (OpensKnockout(d, actions[r].ranked, h) <==> open)
  {
    var h := L.Trace(start, scorer, actions);
    StageAtCall(d, start, scorer, actions, r);
    L.HistoryStep(start, scorer, actions, r);
    StateResolves(d, h, r, scorer, actions[r]);
  }

  lemma OpensIff(d: GroupDraw, h: L.History, st: Store, ranked: Ranking)
    requires EndsWaiting(d) && Staged(d, h)
    ensures OpensKnockout(d, ranked, h + [st]) <==> R.Unplayed(ResolvedDraw(d, ranked), st.rows, st.cards)
    ensures InPlay(d, ranked, h + [st]) ==> R.Sound(ResolvedDraw(d, ranked), st.rows)
  {
    var bd := ResolvedDraw(d, ranked);
    assert L.Last(h + [st]) == st;
    if R.Unplayed(bd, st.rows, st.cards) {
      R.SoundIsReadable(bd, st.rows);
      forall k | 0 <= k < |h + [st]| ensures R.Readable(bd, (h + [st])[k].rows, st.rows) {
        if k < |h| {
          assert GroupTable(d, h[k].rows, h[k].cards);
          StageIsReadable(d, h[k].rows, h[k].cards, ranked, st.rows);
        }
      }
    }
  }

  /** A run of a group tournament: an orderly group stage, a successful resolution as call r, and an orderly knockout. */
  ghost predicate IsGroupTournament(d: GroupDraw, start: Store, scorer: Scorer, actions: seq<L.Action>, r: nat) {
    && InGroupStage(d, start.rows, start.cards) && OrderlyUpTo(d, start, scorer, actions, r)
    && r < |actions| && ResolvesNow(d, L.Trace(start, scorer, actions)[r], actions[r])
    && d.g > 0 && 0 <= Base(d) <= |d.keys| && R.OrderlyFrom(ResolvedDraw(d, actions[r].ranked), start, scorer, actions, r + 1)
  }

  /** The knockout phase of a group tournament is a bracket in play, for which all theorems about such brackets hold,
      exactly when no knockout match that awaited a qualifier was cancelled before the resolution. */
  lemma GroupTournamentPlays(d: GroupDraw, start: Store, scorer: Scorer, actions: seq<L.Action>, r: nat)
    requires IsGroupTournament(d, start, scorer, actions, r)
    ensures R.Plays(ResolvedDraw(d, actions[r].ranked), start, scorer, actions, r + 1) <==>
              PlaceholdersOpen(d, L.Trace(start, scorer, actions)[r].rows)
    ensures EnoughPlayed(d, L.Trace(start, scorer, actions)[r].rows) && GroupsOver(d, L.Trace(start, scorer, actions)[r].rows)
  {
    ResolutionStartsKnockout(d, start, scorer, actions, r);
    var st := L.Trace(start, scorer, actions)[r];
    StageAtCall(d, start, scorer, actions, r);
    ResolvesIff(d, st.rows, st.cards, actions[r].info, actions[r].ids, actions[r].ranked);
  }

  /** A match cancelled in the group stage is the same for good, and undecided. */
  lemma CancelledIsUndecided(d: GroupDraw, rows: Rows, cards: Cards, ranked: Ranking, now: Rows)
    requires InGroupStage(d, rows, cards) && d.g > 0 && 0 <= Base(d) <= |d.keys| && !PlaceholdersOpen(d, rows)
    requires forall id | id in rows && rows[id].status.Cancelled? :: id in now && now[id] == rows[id]
    ensures !R.AllDecided(ResolvedDraw(d, ranked), now)
  {
    var bd := ResolvedDraw(d, ranked);
    DrawEndsWaiting(d);
    var j :| 0 <= j < |d.ko| && !StaysOpen(d, rows, j);
    KnockoutRowAwaits(d, rows, cards, j);
    WaitingIsLinked(d, ranked, j, rows[KeyOf(d, j)]);
    assert now[bd.keys[j]] == rows[KeyOf(d, j)];
  }

  lemma DecidedWereOpen(d: GroupDraw, start: Store, scorer: Scorer, actions: seq<L.Action>, r: nat, k: nat, ranked: Ranking)
    requires r <= k <= |actions| && d.g > 0 && 0 <= Base(d) <= |d.keys|
    requires InGroupStage(d, L.Trace(start, scorer, actions)[r].rows, L.Trace(start, scorer, actions)[r].cards)
    requires R.AllDecided(ResolvedDraw(d, ranked), L.Trace(start, scorer, actions)[k].rows)
    ensures PlaceholdersOpen(d, L.Trace(start, scorer, actions)[r].rows)
  {
    var h := L.Trace(start, scorer, actions);
    forall id | id in h[r].rows && h[r].rows[id].status.Cancelled? ensures id in h[k].rows && h[k].rows[id] == h[r].rows[id] {
      L.StatusOnlyMovesUp(start, scorer, actions, r, k, id);
    }
    if !PlaceholdersOpen(d, h[r].rows) { CancelledIsUndecided(d, h[r].rows, h[r].cards, ranked, h[k].rows); }
  }

  /** For one: once all knockout matches have a winner, one qualifier is champion and every other lost once. */
  lemma GroupTournamentCrowns(d: GroupDraw, start: Store, scorer: Scorer, actions: seq<L.Action>, r: nat, k: nat) returns (champion: int)
    requires IsGroupTournament(d, start, scorer, actions, r) && r < k <= |actions|
    requires R.AllDecided(ResolvedDraw(d, actions[r].ranked), L.Trace(start, scorer, actions)[k].rows)
    ensures var bd := ResolvedDraw(d, actions[r].ranked);
            BB.Crowned(bd, R.Cells(bd, L.Trace(start, scorer, actions)[k].rows), champion)
  {
    StageAtCall(d, start, scorer, actions, r);
    DecidedWereOpen(d, start, scorer, actions, r, k, actions[r].ranked);
    GroupTournamentPlays(d, start, scorer, actions, r);
    champion := R.RunCrownsOneChampion(ResolvedDraw(d, actions[r].ranked), start, scorer, actions, r + 1, k);
  }

  /** After the resolution a knockout match is stuck exactly when it had been cancelled. */
  lemma StuckIffCancelled(d: GroupDraw, rows: Rows, cards: Cards, after: Rows, ranked: Ranking)
    requires InGroupStage(d, rows, cards) && OnlyFills(rows, cards, after)
    ensures d.g > 0 && 0 <= Base(d) <= |d.keys| && R.Present(ResolvedDraw(d, ranked), after)
    ensures R.NoneStuck(ResolvedDraw(d, ranked), after) <==> AllScheduled(d, rows)
  {
    DrawEndsWaiting(d);
    var bd := ResolvedDraw(d, ranked);
    assert |bd.keys| == |bd.matches| == |d.ko|;
    forall j | 0 <= j < |d.ko|
      ensures bd.keys[j] == d.keys[Base(d) + j] && bd.keys[j] in rows && bd.keys[j] in after
      ensures BB.Stuck(after[bd.keys[j]]) <==> !rows[bd.keys[j]].status.Scheduled?
    {
      KnockoutRowAwaits(d, rows, cards, j);
      WaitingIsLinked(d, ranked, j, rows[KeyOf(d, j)]);
      assert FillsRow(rows[bd.keys[j]], after[bd.keys[j]]);
    }
    AllOfTheRest(d, bd, rows, after);
  }

  lemma AllOfTheRest(d: GroupDraw, bd: BB.Draw, rows: Rows, after: Rows)
    requires 0 <= Base(d) && |d.keys| == Base(d) + |bd.keys| && |bd.keys| == |bd.matches|
    requires forall j | 0 <= j < |bd.keys| ::
               && bd.keys[j] == d.keys[Base(d) + j] && bd.keys[j] in rows && bd.keys[j] in after
               && (BB.Stuck(after[bd.keys[j]]) <==> !rows[bd.keys[j]].status.Scheduled?)
    ensures R.NoneStuck(bd, after) <==> AllScheduled(d, rows)
  {
    if R.NoneStuck(bd, after) {
      forall i | 0 <= i < |d.keys| && i >= Base(d) ensures d.keys[i] in rows && rows[d.keys[i]].status.Scheduled? {
        var j := i - Base(d);
        assert bd.keys[j] == d.keys[Base(d) + j] && !BB.Stuck(after[bd.keys[j]]);
      }
    }
    if AllScheduled(d, rows) {
      forall j | 0 <= j < |bd.keys| ensures !BB.Stuck(after[bd.keys[j]]) {
        var i := Base(d) + j;
        assert d.keys[i] in rows && rows[d.keys[i]].status.Scheduled?;
      }
    }
  }

  lemma ResolutionSticks(d: GroupDraw, h: L.History, scorer: Scorer, a: L.Action)
    requires InGroupStage(d, L.Last(h).rows, L.Last(h).cards) && ResolvesNow(d, L.Last(h), a)
    ensures d.g > 0 && 0 <= Base(d) <= |d.keys| && R.Present(ResolvedDraw(d, a.ranked), L.Next(h, scorer, a).rows)
    ensures R.NoneStuck(ResolvedDraw(d, a.ranked), L.Next(h, scorer, a).rows) <==> AllScheduled(d, L.Last(h).rows)
  {
    var st := L.Last(h);
    var after := Resolution(st.rows, st.cards, d.tournament, a.info, a.ids, a.ranked).value.0;
    ResolutionFills(st.rows, st.cards, d.tournament, a.info, a.ids, a.ranked);
    assert L.Next(h, scorer, a).rows == after;
    StuckIffCancelled(d, st.rows, st.cards, after, a.ranked);
  }

  /** When the qualifiers of an ongoing tournament are resolved, its knockout can still be completed exactly when none of
      its matches was cancelled before. */
  lemma GroupTournamentCompletable(d: GroupDraw, start: Store, scorer: Scorer, actions: seq<L.Action>, r: nat)
    requires IsGroupTournament(d, start, scorer, actions, r) && |actions| == r + 1
    requires d.tournament in L.Last(L.Trace(start, scorer, actions)).ongoing
    ensures BL.Completable(ResolvedDraw(d, actions[r].ranked), start, scorer, actions, r + 1) <==>
              AllScheduled(d, L.Trace(start, scorer, actions)[r].rows)
  {
    var h := L.Trace(start, scorer, actions);
    StageAtCall(d, start, scorer, actions, r);
    L.HistoryStep(start, scorer, actions, r);
    ResolutionSticks(d, h[..r+1], scorer, actions[r]);
    if AllScheduled(d, h[r].rows) {
      ScheduledStaysOpen(d, h[r].rows);
      GroupTournamentPlays(d, start, scorer, actions, r);
      BL.CompletableIff(ResolvedDraw(d, actions[r].ranked), start, scorer, actions, r + 1);
    } else {
      BL.NotCompletable(ResolvedDraw(d, actions[r].ranked), start, scorer, actions, r + 1);
    }
  }

  lemma ScheduledStaysOpen(d: GroupDraw, rows: Rows)
    requires IsGroupDraw(d) && AllScheduled(d, rows)
    ensures PlaceholdersOpen(d, rows)
  {
    BaseIsStages(d);
    forall j | 0 <= j < |d.ko| ensures StaysOpen(d, rows, j) {
      var i := Base(d) + j;
      assert d.keys[i] in rows && rows[d.keys[i]].status.Scheduled?;
    }
  }
}
