// The generation transaction (backend/internal/fixturegen/repository.go, lines 82-180).

module FixtureRepository {
  import opened FixtureModels
  import opened Seeding
  import opened Circle
  import RR = RoundRobin
  import B = Bracket
  import opened BracketTree
  import K = Knockout
  import GK = GroupKnockout
  import Gen = Generator
  import opened MatchStore
  import P = PlanInsertion
  import opened BracketBoard
  import R = BracketRun
  import L = Lifecycle

  datatype TournamentStatus = RegistrationClosed | Ongoing | OtherTournamentStatus(name: string)

  datatype FixtureError =
    | TournamentNotFound
    | NotRegistrationClosed
    | FixturesExist
    | TooFewParticipants
    | RegistrationsChanged
    | EngineError(error: Gen.GenerateError)
    | InsertFailed

  /** What the client asked for: the settings and the participant count its preview showed (0 for none). */
  datatype Request = Request(settings: Gen.Settings, expectedParticipants: int)

  /** The checks made under the tournament lock, in order. */
  function Guard(rows: Rows, tournament: Uuid, status: Option<TournamentStatus>, registered: nat, expected: int): Option<FixtureError> {
    if status.None? then Some(TournamentNotFound)
    else if status != Some(RegistrationClosed) then Some(NotRegistrationClosed)
    else if HasFixtures(rows, tournament) then Some(FixturesExist)
    else if registered < 2 then Some(TooFewParticipants)
    else if expected > 0 && registered != expected then Some(RegistrationsChanged)
    else None
  }

  /** Why the transaction refuses; None when it stores a plan. */
  ghost function Refusal(rows: Rows, tournament: Uuid, status: Option<TournamentStatus>, participants: seq<Participant>, q: Request)
    : Option<FixtureError>
  {
    match Guard(rows, tournament, status, |participants|, q.expectedParticipants)
    case Some(e) => Some(e)
    case None =>
      match Gen.Failure(participants, q.settings)
      case Some(e) => Some(EngineError(e))
      case None => None
  }

  /** The checks of the transaction, in order: the tournament is found, its registration is closed, it has no match yet,
      two participants registered, and as many as the preview showed; then those of the engine. */
  lemma RefusalIs(rows: Rows, tournament: Uuid, status: Option<TournamentStatus>, participants: seq<Participant>, q: Request)
    ensures var e := Refusal(rows, tournament, status, participants, q);
            if status == None then e == Some(TournamentNotFound)
            else if status.value != RegistrationClosed then e == Some(NotRegistrationClosed)
            else if exists id :: id in rows && rows[id].tournament == tournament then e == Some(FixturesExist)
            else if |participants| < 2 then e == Some(TooFewParticipants)
            else if q.expectedParticipants > 0 && |participants| != q.expectedParticipants then e == Some(RegistrationsChanged)
            else match Gen.Failure(participants, q.settings)
                 case Some(error) => e == Some(EngineError(error))
                 case None => e == None
  {
  }

  /** The database's ids: never one twice, never one already in the table. */
  ghost predicate FreshIds(ids: nat -> Uuid, table: P.FixtureTable)
    reads table
  {
    (forall i: nat, j: nat | i != j :: ids(i) != ids(j)) && forall i: nat :: ids(i) !in table.rows && ids(i) !in table.cards
  }

  method StorePlan(table: P.FixtureTable, ms: seq<PlannedMatch>, tournament: Uuid, teams: bool, ids: nat -> Uuid)
    returns (ok: bool, ghost keys: seq<Uuid>)
    requires Progression(ms) && FreshIds(ids, table)
    modifies table
    ensures ok && P.StoresPlan(old(table.rows), old(table.cards), table.rows, table.cards, ms, tournament, teams, keys)
  {
    var fresh_ := seq(|ms|, i requires 0 <= i < |ms| => ids(i));
    var e;
    e, keys := table.InsertPlan(ms, tournament, teams, fresh_);
    ok := e.None?;
  }

  /** All or nothing: a refusal leaves the table alone, success stores one whole plan and rules out a second generation. */
  method Generate(table: P.FixtureTable, tournament: Uuid, status: Option<TournamentStatus>, teams: bool,
                  participants: seq<Participant>, q: Request, draws: seq<nat>, ids: nat -> Uuid)
    returns (r: Result<Gen.Plan, FixtureError>, ghost keys: seq<Uuid>)
    requires participants != [] ==> ValidDraws(draws, |participants| - 1)
    requires FreshIds(ids, table)
    modifies table
    ensures match Refusal(old(table.rows), tournament, status, participants, q)
            case Some(e) => r == Err(e) && table.rows == old(table.rows) && table.cards == old(table.cards)
            case None =>
              && r.Ok? && Gen.IsPlan(participants, q.settings, draws, r.value)
              && P.StoresPlan(old(table.rows), old(table.cards), table.rows, table.cards, r.value.matches, tournament, teams, keys)
              && HasFixtures(table.rows, tournament)
  {
    keys := [];
    var refused := Guard(table.rows, tournament, status, |participants|, q.expectedParticipants);
    if refused.Some? {
      return Err(refused.value), [];
    }
    r, keys := BuildAndStore(table, tournament, teams, participants, q.settings, draws, ids);
  }

  method BuildAndStore(table: P.FixtureTable, tournament: Uuid, teams: bool, participants: seq<Participant>,
                       s: Gen.Settings, draws: seq<nat>, ids: nat -> Uuid)
    returns (r: Result<Gen.Plan, FixtureError>, ghost keys: seq<Uuid>)
    requires |participants| >= 2 && ValidDraws(draws, |participants| - 1) && FreshIds(ids, table)
    modifies table
    ensures match Gen.Failure(participants, s)
            case Some(e) => r == Err(EngineError(e)) && table.rows == old(table.rows) && table.cards == old(table.cards)
            case None =>
              && r.Ok? && Gen.IsPlan(participants, s, draws, r.value)
              && P.StoresPlan(old(table.rows), old(table.cards), table.rows, table.cards, r.value.matches, tournament, teams, keys)
              && HasFixtures(table.rows, tournament)
  {
    keys := [];
    var plan := Gen.Generate(participants, s, draws);
    if plan.Err? {
      return Err(EngineError(plan.error)), [];
    }
    var ok;
    ok, keys := StorePlan(table, plan.value.matches, tournament, teams, ids);
    if !ok {
      return Err(InsertFailed), [];
    }
    r := Ok(plan.value);
    PlanIsNonEmpty(participants, s, draws, plan.value);
    StoredPlanIsFound(plan.value.matches, tournament, teams, keys, table.rows);
  }

  lemma StoredPlanIsFound(ms: seq<PlannedMatch>, tournament: Uuid, teams: bool, keys: seq<Uuid>, rows: Rows)
    requires ms != [] && P.IsStored(ms, tournament, teams, keys, rows)
    ensures HasFixtures(rows, tournament)
  {
    assert P.RowOfMatch(ms, tournament, teams, keys, rows, 0);
    var id := keys[0];
    assert id in rows && rows[id].tournament == tournament;
  }

  // ---- a plan is never empty ----

  lemma LeagueNonEmpty(ids: seq<string>, legs: nat, matches: seq<PlannedMatch>,
                       leg0: seq<RR.Oriented>, pairs: seq<Pair>, orient: map<(int, int), bool>)
    requires RR.IsLeague(ids, legs, matches, leg0, pairs, orient) && |ids| >= 2 && legs >= 1
    ensures matches != []
  {
    RR.EveryPairMeets(ids, legs, matches, leg0, pairs, orient, 0, 1);
  }

  lemma GroupPlanNonEmpty(seeded: seq<Participant>, g: nat, q: nat, matches: seq<PlannedMatch>,
                          groups: seq<seq<Participant>>, legs: seq<GK.Leg>, maxRound: int,
                          ko: seq<PlannedMatch>, m: nat, nodes: seq<B.Node>)
    requires GK.IsGroupKnockout(seeded, g, q, matches, groups, legs, maxRound, ko, m, nodes)
    ensures matches != []
  {
    GK.FieldSize(g, q);
  }

  lemma BuildsNonEmpty(seeded: seq<Participant>, s: Gen.Settings, matches: seq<PlannedMatch>, byes: seq<Bye>)
    requires Gen.Builds(seeded, s, matches, byes) && |seeded| >= 2
    ensures matches != []
  {
    match s.format {
      case FormatRoundRobin | FormatLeague =>
        var l, p, o :| RR.IsLeague(Ids(seeded), Gen.LegsOf(s), matches, l, p, o);
        LeagueNonEmpty(Ids(seeded), Gen.LegsOf(s), matches, l, p, o);
      case FormatKnockout =>
        var m, nodes :| K.IsKnockout(K.Entries(Ids(seeded)), m, 0, matches, nodes);
      case FormatGroupKnockout =>
        var gs, ls, r, ko, m, nodes :|
          GK.IsGroupKnockout(seeded, s.groups, s.qualifiersPerGroup, matches, gs, ls, r, ko, m, nodes);
        GroupPlanNonEmpty(seeded, s.groups, s.qualifiersPerGroup, matches, gs, ls, r, ko, m, nodes);
    }
  }

  lemma PlanIsNonEmpty(ps: seq<Participant>, s: Gen.Settings, draws: seq<nat>, plan: Gen.Plan)
    requires |ps| >= 2 && ValidDraws(draws, |ps| - 1) && Gen.IsPlan(ps, s, draws, plan)
    ensures plan.matches != []
  {
    var order := SeedOrder(ps, s.seedStrategy, draws).value;
    OrderPermutes(ps, s.seedStrategy, draws);
    assert |order| == |multiset(order)| == |multiset(ps)| == |ps|;
    var ms :| Gen.Builds(order, s, ms, plan.byes) && plan.matches == Gen.Numbered(ms);
    BuildsNonEmpty(order, s, ms, plan.byes);
  }

  // ---- a stored knockout opens the bracket ----

  /** next_match_id is a foreign key into the table. */
  ghost predicate LinksInside(rows: Rows) {
    forall id | id in rows && rows[id].nextMatch.Some? :: rows[id].nextMatch.value in rows
  }

  /** after is the store before with one whole plan stored. */
  ghost predicate Stores(before: Store, after: Store, ms: seq<PlannedMatch>, tournament: Uuid, teams: bool, keys: seq<Uuid>) {
    P.StoresPlan(before.rows, before.cards, after.rows, after.cards, ms, tournament, teams, keys)
  }

  /** The transaction is the generation step of a run. */
  lemma GenerationIsStep(h: L.History, scorer: Scorer, after: Store, ms: seq<PlannedMatch>, tournament: Uuid, teams: bool, keys: seq<Uuid>)
    requires Progression(ms) && !HasFixtures(L.Last(h).rows, tournament) && |keys| == |ms|
    requires after.events == L.Last(h).events && after.ongoing == L.Last(h).ongoing
    ensures Stores(L.Last(h), after, ms, tournament, teams, keys)
            <==> P.FreshKeys(L.Last(h).rows, L.Last(h).cards, keys)
                 && after == L.Next(h, scorer, L.GenerateFixtures(tournament, teams, ms, keys))
  {
    P.StoredIsAdded(L.Last(h).rows, L.Last(h).cards, after.rows, after.cards, ms, tournament, teams, keys);
  }

  lemma OthersStayOut(before: Rows, after: Rows, keys: seq<Uuid>)
    requires LinksInside(before) && P.Adds(before, after, keys)
    ensures forall id | id in after && id !in keys && after[id].nextMatch.Some? :: after[id].nextMatch.value !in keys
  {
    forall id | id in after && id !in keys && after[id].nextMatch.Some? ensures after[id].nextMatch.value !in keys {
      assert id in before && after[id] == before[id];
      var next := before[id].nextMatch.value;
      assert next in before;
    }
  }

  /** The seed order and the bracket inside a generated knockout plan. */
  lemma KnockoutOf(ps: seq<Participant>, s: Gen.Settings, draws: seq<nat>, plan: Gen.Plan)
    returns (order: seq<Participant>, ms: seq<PlannedMatch>, m: nat, nodes: seq<B.Node>)
    requires |ps| >= 2 && ValidDraws(draws, |ps| - 1) && Gen.IsPlan(ps, s, draws, plan) && s.format.FormatKnockout?
    ensures |order| == |ps| && UniqueIds(order) && plan.seedOrder == Ids(order)
    ensures plan.matches == Gen.Numbered(ms) && K.IsKnockout(K.Entries(Ids(order)), m, 0, ms, nodes)
  {
    order := SeedOrder(ps, s.seedStrategy, draws).value;
    OrderPermutes(ps, s.seedStrategy, draws);
    ms :| Gen.Builds(order, s, ms, plan.byes) && plan.matches == Gen.Numbered(ms);
    m, nodes :| K.IsKnockout(K.Entries(Ids(order)), m, 0, ms, nodes);
  }

  /** A generated knockout is exactly the opening that the theorems about runs start from. */
  lemma StoredKnockoutOpens(ps: seq<Participant>, s: Gen.Settings, draws: seq<nat>, plan: Gen.Plan,
                            tournament: Uuid, teams: bool, keys: seq<Uuid>, before: Store, st: Store) returns (d: Draw)
    requires |ps| >= 2 && ValidDraws(draws, |ps| - 1) && Gen.IsPlan(ps, s, draws, plan) && s.format.FormatKnockout?
    requires LinksInside(before.rows) && Stores(before, st, plan.matches, tournament, teams, keys)
    ensures R.Opens(d, st) && d.keys == keys && d.teams == teams && d.tournament == tournament
    ensures d.entrants == plan.seedOrder && |d.entrants| == |ps| && plan.matches == Gen.Numbered(d.matches)
  {
    var order, ms, m, nodes := KnockoutOf(ps, s, draws, plan);
    OthersStayOut(before.rows, st.rows, keys);
    NumberingKeepsRows(ms, tournament, teams, keys, st.rows);
    d := DrawOf(order, m, ms, nodes, tournament, teams, keys, st);
  }

  lemma DrawOf(order: seq<Participant>, m: nat, ms: seq<PlannedMatch>, nodes: seq<B.Node>, tournament: Uuid, teams: bool,
               keys: seq<Uuid>, st: Store) returns (d: Draw)
    requires UniqueIds(order) && K.IsKnockout(K.Entries(Ids(order)), m, 0, ms, nodes)
    requires P.IsStored(ms, tournament, teams, keys, st.rows) && P.HasCards(Gen.Numbered(ms), keys, st.cards)
    requires forall id | id in st.rows && id !in keys && st.rows[id].nextMatch.Some? :: st.rows[id].nextMatch.value !in keys
    ensures d == Draw(Ids(order), m, 0, ms, nodes, teams, tournament, keys) && R.Opens(d, st)
  {
    d := Draw(Ids(order), m, 0, ms, nodes, teams, tournament, keys);
    forall id | id in st.rows && id !in d.keys ensures R.NoneLinksIn(d, st.rows[id]) {}
    forall i | 0 <= i < |d.keys| ensures R.CardFits(d, st.cards[d.keys[i]], i) {
      NoPlaceholders(K.Entries(Ids(order)), m, ms, nodes, i);
    }
  }

  /** A knockout over participants has no placeholders. */
  lemma NoPlaceholders(refs: seq<SlotRef>, m: nat, ms: seq<PlannedMatch>, nodes: seq<B.Node>, i: nat)
    requires K.IsKnockout(refs, m, 0, ms, nodes) && i < |ms| && forall k | 0 <= k < |refs| :: refs[k].Concrete?
    ensures !ms[i].home.Qualifier? && !ms[i].away.Qualifier?
  {
    if ms[i].home != TBD { K.SlotsHoldParticipants(refs, m, 0, ms, nodes, i, 1); }
    if ms[i].away != TBD { K.SlotsHoldParticipants(refs, m, 0, ms, nodes, i, 2); }
  }

  /** Match numbers are not among the columns that progression reads. */
  lemma NumberingKeepsRows(ms: seq<PlannedMatch>, tournament: Uuid, teams: bool, keys: seq<Uuid>, rows: Rows)
    requires P.IsStored(Gen.Numbered(ms), tournament, teams, keys, rows)
    ensures P.IsStored(ms, tournament, teams, keys, rows)
  {
    forall i | 0 <= i < |ms| ensures P.RowOfMatch(ms, tournament, teams, keys, rows, i) {
      assert P.RowOfMatch(Gen.Numbered(ms), tournament, teams, keys, rows, i);
    }
  }
}
