// Whole runs of the match service: reads and compare-and-swap writes as separate,
// interleaved steps, among inserts and resolutions (backend/internal/matches/service.go,
// backend/internal/matches/repository.go, backend/internal/match_events/repository.go,
// backend/internal/fixturegen/repository.go).

module Lifecycle {
  import opened FixtureModels
  import opened BracketTree
  import opened MatchStore
  import P = PlanInsertion
  import Q = Qualification
  import E = EventLog

  /** One transaction committing.  seen is the state that the read of a service call observed: any earlier state of
      the run; ranked is what the resolution computes. */
  datatype Action =
    | PatchMatch(seen: nat, id: Uuid, patch: Patch, entry: Entry)
    | AwardWalkover(seen: nat, id: Uuid, winner: string, reason: string)
    | DeleteMatch(seen: nat, id: Uuid)
    | RecordEvent(event: E.NewEvent, members: E.Membership)
    | ChangeOngoing(ongoing: set<Uuid>)
    | CreateMatch(newId: Uuid, row: Row, card: Card)
    | GenerateFixtures(tournament: Uuid, teams: bool, plan: seq<PlannedMatch>, keys: seq<Uuid>)
    | ResolveQualifiers(t: Uuid, info: Option<Q.TournamentInfo>, ids: seq<Uuid>, ranked: Q.Ranking)

  /** The calls on one match that read before they write. */
  predicate IsCall(a: Action) { a.PatchMatch? || a.AwardWalkover? || a.DeleteMatch? }

  type History = h: seq<Store> | h != [] witness [Store(map[], map[], [], {})]

  function Last(h: History): Store { h[|h|-1] }

  function Seen(h: History, k: nat): Store { if k < |h| then h[k] else Last(h) }

  // ---- inserts ----

  /** A row as CreateMatch and generation insert it. */
  predicate IsNewRow(row: Row) {
    row.status.Scheduled? && row.winner == VACANT && !row.isWalkover && row.homeScore == 0 && row.awayScore == 0
  }

  /** The insert of one match: its id is fresh, its tournament ongoing, its successor stored, its slots concrete or open. */
  predicate Creates(st: Store, id: Uuid, row: Row, card: Card) {
    && id !in st.rows && id !in st.cards && IsNewRow(row) && row.tournament in st.ongoing
    && (row.nextMatch.Some? ==> row.nextMatch.value in st.rows)
    && card.homeQualifier.None? && card.awayQualifier.None?
  }

  /** Generation goes ahead for a tournament without fixtures, under fresh ids. */
  ghost predicate Generates(st: Store, tournament: Uuid, plan: seq<PlannedMatch>, keys: seq<Uuid>) {
    !HasFixtures(st.rows, tournament) && |keys| == |plan| && P.FreshKeys(st.rows, st.cards, keys) && Progression(plan)
  }

  // ---- steps ----

  /** The rows the call leaves behind, or why it changes nothing. */
  ghost function Outcome(h: History, scorer: Scorer, a: Action): Result<Rows, MatchError> {
    var st := Last(h);
    match a
    case PatchMatch(seen, id, patch, entry) =>
      if id !in Seen(h, seen).rows then Err(MatchNotFound)
      else
        var p := PrepareUpdate(id, Seen(h, seen).rows[id], patch, entry);
        if p.Err? then Err(p.error) else UpdateTx(st, scorer, p.value)
    case AwardWalkover(seen, id, winner, reason) =>
      if id !in Seen(h, seen).rows then Err(MatchNotFound)
      else
        var p := PrepareWalkover(id, Seen(h, seen).rows[id], winner, reason);
        if p.Err? then Err(p.error) else WalkoverTx(st, p.value)
    case DeleteMatch(seen, id) =>
      if id !in Seen(h, seen).rows then Err(MatchNotFound)
      else
        var p := PrepareCancel(Seen(h, seen).rows[id]);
        if p.Err? then Err(p.error) else CancelTx(st, id, p.value)
    case RecordEvent(_, _) => Ok(st.rows)
    case ChangeOngoing(_) => Ok(st.rows)
    case CreateMatch(id, row, card) => Ok(if Creates(st, id, row, card) then st.rows[id := row] else st.rows)
    case GenerateFixtures(t, teams, plan, keys) =>
      Ok(if Generates(st, t, plan, keys) then P.AddRows(st.rows, plan, t, teams, keys, |plan|) else st.rows)
    case ResolveQualifiers(t, info, ids, ranked) =>
      var r := Q.Resolution(st.rows, st.cards, t, info, ids, ranked);
      Ok(if Distinct(ids) && r.Ok? then r.value.0 else st.rows)
  }

  ghost function CardsAfter(st: Store, a: Action): Cards {
    match a
    case CreateMatch(id, row, card) => if Creates(st, id, row, card) then st.cards[id := card] else st.cards
    case GenerateFixtures(t, _, plan, keys) =>
      if Generates(st, t, plan, keys) then P.AddCards(st.cards, plan, keys, |plan|) else st.cards
    case _ => st.cards
  }

  function InfoOf(row: Row): E.MatchInfo {
    E.MatchInfo(row.status.Live?, row.home.team, row.away.team, row.home.player, row.away.player)
  }

  /** The event table after a call: the transaction works on the locked row, not on an earlier read. */
  function EventsAfter(st: Store, a: Action): seq<E.Event> {
    if a.RecordEvent? && a.event.matchId in st.rows
      then E.Recorded(st.events, E.Request(InfoOf(st.rows[a.event.matchId]), a.members, a.event))
    else st.events
  }

  ghost function Next(h: History, scorer: Scorer, a: Action): Store {
    var r := Outcome(h, scorer, a);
    Store(if r.Ok? then r.value else Last(h).rows,
          CardsAfter(Last(h), a),
          EventsAfter(Last(h), a),
          if a.ChangeOngoing? then a.ongoing else Last(h).ongoing)
  }

  /** All states of a run, first to last. */
  ghost function Trace(start: Store, scorer: Scorer, actions: seq<Action>): (h: History)
    ensures |h| == |actions| + 1 && h[0] == start
  {
    if actions == [] then [start]
    else
      var before := Trace(start, scorer, actions[..|actions|-1]);
      before + [Next(before, scorer, actions[|actions|-1])]
  }

  /** Every prefix of a trace is the trace of a prefix, so each state comes from its history so far. */
  lemma {:induction false} TraceStep(start: Store, scorer: Scorer, actions: seq<Action>, k: nat)
    requires k < |actions|
    ensures var h := Trace(start, scorer, actions);
            h[..k+1] == Trace(start, scorer, actions[..k]) && h[k+1] == Next(h[..k+1], scorer, actions[k])
  {
    var before := actions[..|actions|-1];
    var h, hb := Trace(start, scorer, actions), Trace(start, scorer, before);
    assert h[..|actions|] == hb;
    if k < |before| {
      TraceStep(start, scorer, before, k);
      assert before[..k] == actions[..k] && hb[..k+1] == h[..k+1] && hb[k+1] == h[k+1];
    } else {
      assert actions[..k] == before;
    }
  }

  /** One step of a run, as a step on its history. */
  lemma HistoryStep(start: Store, scorer: Scorer, actions: seq<Action>, k: nat)
    requires k < |actions|
    ensures var h := Trace(start, scorer, actions);
            && Last(h[..k+1]) == h[k] && h[k+1] == Next(h[..k+1], scorer, actions[k])
            && h[..k+2] == h[..k+1] + [h[k+1]]
  {
    TraceStep(start, scorer, actions, k);
  }

  /** A read observes one of the states so far. */
  lemma SeenIndex(h: seq<Store>, n: nat, seen: nat) returns (s: nat)
    requires 0 < n <= |h|
    ensures s < n && Seen(h[..n], seen) == h[s] && (seen < n ==> s == seen)
  {
    s := if seen < n then seen else n - 1;
  }

  // ---- what one call does to a row ----

  function Rank(s: Status): nat {
    match s
    case Scheduled => 0
    case Live => 1
    case _ => 2
  }

  /** A row stays, or a non-terminal row is edited, possibly one step up the lifecycle. */
  ghost predicate Moves(a: Row, b: Row) {
    a == b
    || (&& !IsTerminal(a.status)
        && b.tournament == a.tournament
        && (b.status == a.status || Allowed(a.status, b.status) || b.status.Walkover?)
        && b.isWalkover == (a.isWalkover || b.status.Walkover?))
  }

  ghost predicate RowsMove(before: Rows, after: Rows) {
    && (forall id | id in before :: id in after && Moves(before[id], after[id]))
    && (forall id | id in after && id !in before :: IsNewRow(after[id]))
  }

  lemma UpdateMoves(st: Store, scorer: Scorer, current: Row, q: Patch, entry: Entry, id: Uuid)
    requires PrepareUpdate(id, current, q, entry).Ok? && UpdateTx(st, scorer, PrepareUpdate(id, current, q, entry).value).Ok?
    ensures id in st.rows && st.rows[id].status == current.status && !IsTerminal(current.status)
    ensures RowsMove(st.rows, UpdateTx(st, scorer, PrepareUpdate(id, current, q, entry).value).value)
  {
  }

  lemma WalkoverMoves(st: Store, current: Row, winner: string, reason: string, id: Uuid)
    requires PrepareWalkover(id, current, winner, reason).Ok?
    requires WalkoverTx(st, PrepareWalkover(id, current, winner, reason).value).Ok?
    ensures id in st.rows && st.rows[id].status == current.status && !IsTerminal(current.status)
    ensures RowsMove(st.rows, WalkoverTx(st, PrepareWalkover(id, current, winner, reason).value).value)
  {
  }

  lemma GenerationMoves(st: Store, t: Uuid, teams: bool, plan: seq<PlannedMatch>, keys: seq<Uuid>)
    requires Generates(st, t, plan, keys)
    ensures RowsMove(st.rows, P.AddRows(st.rows, plan, t, teams, keys, |plan|))
  {
    P.RowsAdded(st.rows, plan, t, teams, keys, |plan|);
    assert keys[..|plan|] == keys;
    var after := P.AddRows(st.rows, plan, t, teams, keys, |plan|);
    forall id | id in after && id !in st.rows ensures IsNewRow(after[id]) {
      assert id in keys;
      var i :| 0 <= i < |keys| && keys[i] == id;
    }
  }

  lemma ResolutionMoves(rows: Rows, cards: Cards, t: Uuid, info: Option<Q.TournamentInfo>, ids: seq<Uuid>, ranked: Q.Ranking)
    requires Distinct(ids) && Q.Resolution(rows, cards, t, info, ids, ranked).Ok?
    ensures RowsMove(rows, Q.Resolution(rows, cards, t, info, ids, ranked).value.0)
  {
    Q.ResolutionFills(rows, cards, t, info, ids, ranked);
    var after := Q.Resolution(rows, cards, t, info, ids, ranked).value.0;
    forall id | id in rows ensures id in after && Moves(rows[id], after[id]) {
      assert Q.FillsRow(rows[id], after[id]);
    }
  }

  /** Everything but the calls on matches leaves a stored row alone, or fills participants of a scheduled one. */
  lemma TableKeeps(h: History, scorer: Scorer, a: Action, id: Uuid)
    requires !IsCall(a) && id in Last(h).rows
    ensures id in Next(h, scorer, a).rows && Q.FillsRow(Last(h).rows[id], Next(h, scorer, a).rows[id])
  {
    var st := Last(h);
    match a {
      case GenerateFixtures(t, teams, plan, keys) =>
        if Generates(st, t, plan, keys) { P.RowsAdded(st.rows, plan, t, teams, keys, |plan|); }
      case ResolveQualifiers(t, info, ids, ranked) =>
        if Distinct(ids) && Q.Resolution(st.rows, st.cards, t, info, ids, ranked).Ok? {
          Q.ResolutionFills(st.rows, st.cards, t, info, ids, ranked);
        }
      case _ =>
    }
  }

  lemma StepMoves(h: History, scorer: Scorer, a: Action)
    ensures RowsMove(Last(h).rows, Next(h, scorer, a).rows)
  {
    var st := Last(h);
    if Outcome(h, scorer, a).Ok? {
      match a {
        case PatchMatch(seen, id, patch, entry) => UpdateMoves(st, scorer, Seen(h, seen).rows[id], patch, entry, id);
        case AwardWalkover(seen, id, winner, reason) => WalkoverMoves(st, Seen(h, seen).rows[id], winner, reason, id);
        case GenerateFixtures(t, teams, plan, keys) => if Generates(st, t, plan, keys) { GenerationMoves(st, t, teams, plan, keys); }
        case ResolveQualifiers(t, info, ids, ranked) =>
          if Distinct(ids) && Q.Resolution(st.rows, st.cards, t, info, ids, ranked).Ok? {
            ResolutionMoves(st.rows, st.cards, t, info, ids, ranked);
          }
        case _ =>
      }
    }
  }

  /** The call asks for the cancellation of match id. */
  predicate Cancels(a: Action, id: Uuid) {
    (a.DeleteMatch? && a.id == id) || (a.PatchMatch? && a.id == id && a.patch.status == Some(Cancelled))
  }

  lemma OnlyCancelsCancel(h: History, scorer: Scorer, a: Action, id: Uuid)
    requires id in Last(h).rows && !Last(h).rows[id].status.Cancelled? && !Cancels(a, id)
    ensures id in Next(h, scorer, a).rows && !Next(h, scorer, a).rows[id].status.Cancelled?
  {
    if !IsCall(a) { TableKeeps(h, scorer, a, id); }
  }

  /** What a committed call leaves of its match: it found the status that it read, Scheduled or Live; a PATCH wrote its
      fields over the row read, a walkover the winner read, 0-0 and its flag, and a cancellation its status only. */
  lemma CommittedCall(h: History, scorer: Scorer, a: Action)
    requires IsCall(a) && Outcome(h, scorer, a).Ok?
    ensures a.id in Seen(h, a.seen).rows && a.id in Last(h).rows && a.id in Next(h, scorer, a).rows
    ensures var (read, row, row') := (Seen(h, a.seen).rows[a.id], Last(h).rows[a.id], Next(h, scorer, a).rows[a.id]);
            && row.status == read.status && (read.status == Scheduled || read.status == Live) && row'.tournament == row.tournament
            && (a.PatchMatch? ==>
                  && TakesSides(read, a.patch, row'.home, row'.away) && TakesWinner(read, a.patch, row'.winner)
                  && Takes(a.patch.status, read.status, row'.status) && row'.isWalkover == row.isWalkover)
            && (a.AwardWalkover? ==>
                  && var (teams, side) := (read.home.team != None, if a.winner == "home" then read.home else read.away);
                     a.winner in {"home", "away"} && a.reason != ""
                     && TakesWalkover(row, if teams then Side(side.team, None) else Side(None, side.player), row'))
            && (a.DeleteMatch? ==> row'.status == Cancelled && row'.(status := row.status) == row)
  {
    var read := Seen(h, a.seen).rows[a.id];
    match a {
      case PatchMatch(_, id, patch, entry) => PatchCommits(Last(h), scorer, id, read, patch, entry);
      case AwardWalkover(_, id, winner, reason) => WalkoverStored(Last(h), id, read, winner, reason);
      case DeleteMatch(_, id) => CancelIff(Last(h), id, read);
      case _ =>
    }
  }

  lemma WalkoverStored(st: Store, id: Uuid, read: Row, winner: string, reason: string)
    requires PrepareWalkover(id, read, winner, reason).Ok? && WalkoverTx(st, PrepareWalkover(id, read, winner, reason).value).Ok?
    ensures var after := WalkoverTx(st, PrepareWalkover(id, read, winner, reason).value).value;
            var (teams, side) := (read.home.team != None, if winner == "home" then read.home else read.away);
            && winner in {"home", "away"} && reason != "" && id in st.rows && id in after
            && st.rows[id].status == read.status && (read.status == Scheduled || read.status == Live)
            && TakesWalkover(st.rows[id], if teams then Side(side.team, None) else Side(None, side.player), after[id])
  {
    WalkoverPassesIff(id, read, winner, reason);
    var p := PrepareWalkover(id, read, winner, reason).value;
    WalkoverCommitsIff(st, p, WalkoverRow(st.rows[id], p.winner));
  }

  /** A call to record an event appends it exactly when the locked row, with its status and its four columns, allows it;
      no other call touches the events. */
  lemma EventsOfCall(st: Store, a: Action, info: E.MatchInfo)
    requires E.LogInvariant(st.events)
    requires a.RecordEvent? && a.event.matchId in st.rows ==>
               var row := st.rows[a.event.matchId];
               && (info.live <==> row.status == Live)
               && info.homeTeam == row.home.team && info.homePlayer == row.home.player
               && info.awayTeam == row.away.team && info.awayPlayer == row.away.player
    ensures if a.RecordEvent? && a.event.matchId in st.rows && E.Recordable(st.events, E.Request(info, a.members, a.event))
              then E.Appends(st.events, EventsAfter(st, a), a.event)
            else EventsAfter(st, a) == st.events
  {
    if a.RecordEvent? && a.event.matchId in st.rows {
      assert InfoOf(st.rows[a.event.matchId]) == info;
      E.RecordedIff(st.events, E.Request(info, a.members, a.event));
    }
  }

  // ---- status over whole runs ----

  /** Between any two states of a run no match disappears, none falls back, and a terminal row never changes. */
  lemma {:induction false} StatusOnlyMovesUp(start: Store, scorer: Scorer, actions: seq<Action>, i: nat, j: nat, id: Uuid)
    requires i <= j <= |actions| && id in Trace(start, scorer, actions)[i].rows
    ensures var h := Trace(start, scorer, actions);
            && id in h[j].rows
            && Rank(h[i].rows[id].status) <= Rank(h[j].rows[id].status)
            && (IsTerminal(h[i].rows[id].status) ==> h[j].rows[id] == h[i].rows[id])
            && h[j].rows[id].tournament == h[i].rows[id].tournament
    decreases j - i
  {
    if i < j {
      var h := Trace(start, scorer, actions);
      StatusOnlyMovesUp(start, scorer, actions, i, j - 1, id);
      HistoryStep(start, scorer, actions, j - 1);
      StepMoves(h[..j], scorer, actions[j-1]);
      assert Moves(h[j-1].rows[id], h[j].rows[id]);
    }
  }

  /** The status change a call commits: its match, the status it observed, the status it sets. */
  ghost function Transition(h: History, scorer: Scorer, a: Action): Option<(Uuid, Status, Status)> {
    if Outcome(h, scorer, a).Err? || !IsCall(a) then None
    else if a.id !in Seen(h, a.seen).rows then None
    else
      var from := Seen(h, a.seen).rows[a.id].status;
      var to := match a
                case PatchMatch(_, _, patch, _) => Or(patch.status, from)
                case AwardWalkover(_, _, _, _) => Walkover
                case _ => Cancelled;
      if from == to then None else Some((a.id, from, to))
  }

  lemma TransitionHappens(h: History, scorer: Scorer, a: Action)
    requires Transition(h, scorer, a).Some?
    ensures var (id, from, to) := Transition(h, scorer, a).value;
            && id in Last(h).rows && Last(h).rows[id].status == from && Rank(from) < Rank(to)
            && id in Next(h, scorer, a).rows && Next(h, scorer, a).rows[id].status == to
  {
    StepMoves(h, scorer, a);
    match a {
      case PatchMatch(seen, id, patch, entry) =>
        var current := Seen(h, seen).rows[id];
        UpdateMoves(Last(h), scorer, current, patch, entry, id);
      case AwardWalkover(seen, id, winner, reason) =>
        var current := Seen(h, seen).rows[id];
        WalkoverMoves(Last(h), current, winner, reason, id);
      case _ =>
    }
  }

  /** The status change that call i of a run commits. */
  ghost function Change(start: Store, scorer: Scorer, actions: seq<Action>, i: nat): Option<(Uuid, Status, Status)>
    requires i < |actions|
  {
    Transition(Trace(start, scorer, actions)[..i+1], scorer, actions[i])
  }

  lemma ChangeHappens(start: Store, scorer: Scorer, actions: seq<Action>, i: nat, id: Uuid, from: Status, to: Status)
    requires i < |actions| && Change(start, scorer, actions, i) == Some((id, from, to))
    ensures var h := Trace(start, scorer, actions);
            && id in h[i].rows && h[i].rows[id].status == from && Rank(from) < Rank(to)
            && id in h[i+1].rows && h[i+1].rows[id].status == to
  {
    TraceStep(start, scorer, actions, i);
    TransitionHappens(Trace(start, scorer, actions)[..i+1], scorer, actions[i]);
  }

  lemma PropagateKeepsStatus(rows: Rows, feeder: Row, id: Uuid)
    requires Propagate(rows, feeder).Ok? && id in rows
    ensures id in Propagate(rows, feeder).value && Propagate(rows, feeder).value[id].status == rows[id].status
  {
  }

  /** A call changes the status of its own match only. */
  lemma OthersKeepStatus(h: History, scorer: Scorer, a: Action, id: Uuid)
    requires id in Last(h).rows && (IsCall(a) ==> id != a.id)
    ensures id in Next(h, scorer, a).rows && Next(h, scorer, a).rows[id].status == Last(h).rows[id].status
  {
    var st := Last(h);
    if !IsCall(a) {
      TableKeeps(h, scorer, a, id);
    } else if Outcome(h, scorer, a).Ok? {
      match a {
        case PatchMatch(seen, x, patch, entry) =>
          var p := PrepareUpdate(x, Seen(h, seen).rows[x], patch, entry).value;
          if p.status.Completed? {
            var c := Written(st.rows[x], p, ScoreOf(st, scorer, x).0, ScoreOf(st, scorer, x).1);
            PropagateKeepsStatus(st.rows[x := c], c, id);
          }
        case AwardWalkover(seen, x, winner, reason) =>
          var c := WalkoverRow(st.rows[x], PrepareWalkover(x, Seen(h, seen).rows[x], winner, reason).value.winner);
          PropagateKeepsStatus(st.rows[x := c], c, id);
        case _ =>
      }
    }
  }

  /** Every change of a status in a run is the change of one call. */
  lemma EveryChangeIsACall(start: Store, scorer: Scorer, actions: seq<Action>, i: nat, id: Uuid)
    requires i < |actions| && id in Trace(start, scorer, actions)[i].rows && id in Trace(start, scorer, actions)[i+1].rows
    ensures var (from, to) := (Trace(start, scorer, actions)[i].rows[id].status, Trace(start, scorer, actions)[i+1].rows[id].status);
            from != to ==> Change(start, scorer, actions, i) == Some((id, from, to))
  {
    var h, a := Trace(start, scorer, actions)[..i+1], actions[i];
    TraceStep(start, scorer, actions, i);
    if !IsCall(a) || id != a.id {
      OthersKeepStatus(h, scorer, a, id);
    } else if Outcome(h, scorer, a).Ok? {
      CommittedCall(h, scorer, a);
    }
  }

  /** Of two calls that change the status of one match, the later one observed a strictly later status:
      from any observed status at most one change ever commits. */
  lemma OneChangePerObservedStatus(start: Store, scorer: Scorer, actions: seq<Action>, i: nat, j: nat, id: Uuid,
                                   from: Status, to: Status, from': Status, to': Status)
    requires i < j < |actions|
    requires Change(start, scorer, actions, i) == Some((id, from, to))
    requires Change(start, scorer, actions, j) == Some((id, from', to'))
    ensures Rank(from) < Rank(to) <= Rank(from') < Rank(to') && from != from'
  {
    ChangeHappens(start, scorer, actions, i, id, from, to);
    ChangeHappens(start, scorer, actions, j, id, from', to');
    StatusOnlyMovesUp(start, scorer, actions, i + 1, j, id);
  }

  // ---- the score of a completed match ----

  function ScoreFor(scorer: Scorer, row: Row, events: seq<E.Event>, id: Uuid): (int, int) {
    scorer(row.home, row.away, E.Effective(E.LogOf(events, id)))
  }

  /** after is what completing before records: the score of the locked sides, and a winner that fits it. */
  ghost predicate CompletesWith(scorer: Scorer, before: Row, after: Row, events: seq<E.Event>, id: Uuid) {
    && before.status.Live? && after.status.Completed?
    && (after.homeScore, after.awayScore) == ScoreFor(scorer, before, events, id)
    && WinnerLeads(after.winner, before.home, before.away, after.homeScore, after.awayScore)
  }

  /** Only a walkover sets is_walkover. */
  ghost predicate Clean(st: Store) {
    forall id | id in st.rows && !IsTerminal(st.rows[id].status) :: !st.rows[id].isWalkover
  }

  lemma {:induction false} FlagsStayClean(start: Store, scorer: Scorer, actions: seq<Action>, k: nat)
    requires Clean(start) && k <= |actions|
    ensures Clean(Trace(start, scorer, actions)[k])
  {
    if k > 0 {
      var h := Trace(start, scorer, actions);
      FlagsStayClean(start, scorer, actions, k - 1);
      TraceStep(start, scorer, actions, k - 1);
      StepMoves(h[..k], scorer, actions[k-1]);
    }
  }

  /** An update that makes a row completed completes that very row, from live, with the computed score. */
  lemma UpdateCompletes(st: Store, scorer: Scorer, p: Update, id: Uuid)
    requires UpdateTx(st, scorer, p).Ok? && id in st.rows && id in UpdateTx(st, scorer, p).value
    requires !st.rows[id].status.Completed? && UpdateTx(st, scorer, p).value[id].status.Completed?
    ensures p.id == id && p.status.Completed? && st.rows[id].status.Live? && p.expected == Live
    ensures var (hs, as_) := ScoreOf(st, scorer, id);
            UpdateTx(st, scorer, p).value[id] == Written(st.rows[id], p, hs, as_) && WinnerFitsScore(p, st.rows[id], hs, as_)
  {
  }

  /** Only completion makes a row completed, and it records the score of the events at that moment. */
  lemma CompletionScores(h: History, scorer: Scorer, a: Action, id: Uuid)
    requires id in Last(h).rows && id in Next(h, scorer, a).rows
    requires !Last(h).rows[id].status.Completed? && Next(h, scorer, a).rows[id].status.Completed?
    requires a.PatchMatch? ==> Clean(Seen(h, a.seen))
    ensures CompletesWith(scorer, Last(h).rows[id], Next(h, scorer, a).rows[id], Last(h).events, id)
    ensures a.PatchMatch? && a.id == id && id in Seen(h, a.seen).rows && Seen(h, a.seen).rows[id].status.Live?
    ensures TakesSides(Seen(h, a.seen).rows[id], a.patch, Next(h, scorer, a).rows[id].home, Next(h, scorer, a).rows[id].away)
    ensures Next(h, scorer, a).events == Last(h).events
  {
    StepMoves(h, scorer, a);
    if a.PatchMatch? {
      var p := PrepareUpdate(a.id, Seen(h, a.seen).rows[a.id], a.patch, a.entry).value;
      UpdateCompletes(Last(h), scorer, p, id);
      FitsIffLeads(p, Last(h).rows[id], ScoreOf(Last(h), scorer, id).0, ScoreOf(Last(h), scorer, id).1);
    } else if !IsCall(a) {
      TableKeeps(h, scorer, a, id);
    }
  }

  /** The row of state j was completed by call k, a PATCH that read the match live. */
  ghost predicate CompletedAt(h: History, scorer: Scorer, actions: seq<Action>, k: nat, j: nat, id: Uuid) {
    && k < j < |h| && k < |actions| && id in h[k].rows && id in h[j].rows
    && CompletesWith(scorer, h[k].rows[id], h[j].rows[id], h[j].events, id)
    && actions[k].PatchMatch? && actions[k].id == id
    && WritesSides(Seen(h[..k+1], actions[k].seen).rows, actions[k].patch, h[j].rows[id], id)
  }

  /** The sides written are those read, as patched. */
  ghost predicate WritesSides(seen: Rows, patch: Patch, after: Row, id: Uuid) {
    && id in seen && seen[id].status.Live?
    && TakesSides(seen[id], patch, after.home, after.away)
  }

  /** In every state of every run, the score of a completed match is the score of its log as it still
      stands, taken with the participants that were locked when it completed (state k). */
  lemma {:induction false} CompletedScore(start: Store, scorer: Scorer, actions: seq<Action>, j: nat, id: Uuid) returns (k: nat)
    requires Clean(start) && j <= |actions|
    requires id in start.rows ==> !start.rows[id].status.Completed?
    requires var h := Trace(start, scorer, actions); id in h[j].rows && h[j].rows[id].status.Completed?
    ensures CompletedAt(Trace(start, scorer, actions), scorer, actions, k, j, id)
  {
    var h := Trace(start, scorer, actions);
    PresentBefore(start, scorer, actions, j, id);
    if h[j-1].rows[id].status.Completed? {
      StatusOnlyMovesUp(start, scorer, actions, j - 1, j, id);
      k := CompletedScore(start, scorer, actions, j - 1, id);
      LogStaysInTrace(start, scorer, actions, j - 1, id);
    } else {
      k := j - 1;
      CompletedJustNow(start, scorer, actions, k, id);
    }
  }

  /** A match that is not scheduled was there before. */
  lemma PresentBefore(start: Store, scorer: Scorer, actions: seq<Action>, j: nat, id: Uuid)
    requires j <= |actions| && (id in start.rows ==> !start.rows[id].status.Completed?)
    requires var h := Trace(start, scorer, actions); id in h[j].rows && h[j].rows[id].status.Completed?
    ensures j > 0 && id in Trace(start, scorer, actions)[j-1].rows
  {
    if j > 0 {
      HistoryStep(start, scorer, actions, j - 1);
      NewIsScheduled(Trace(start, scorer, actions)[..j], scorer, actions[j-1], id);
    }
  }

  lemma NewIsScheduled(h: History, scorer: Scorer, a: Action, id: Uuid)
    requires id in Next(h, scorer, a).rows && !Next(h, scorer, a).rows[id].status.Scheduled?
    ensures id in Last(h).rows
  {
    StepMoves(h, scorer, a);
  }

  lemma LogStaysInTrace(start: Store, scorer: Scorer, actions: seq<Action>, k: nat, id: Uuid)
    requires k < |actions|
    requires var st := Trace(start, scorer, actions)[k]; id in st.rows && !st.rows[id].status.Live?
    ensures var h := Trace(start, scorer, actions);
            E.LogOf(h[k+1].events, id) == E.LogOf(h[k].events, id)
  {
  }

  lemma CompletedJustNow(start: Store, scorer: Scorer, actions: seq<Action>, k: nat, id: Uuid)
    requires Clean(start) && k < |actions|
    requires var h := Trace(start, scorer, actions);
             && id in h[k].rows && !h[k].rows[id].status.Completed?
             && id in h[k+1].rows && h[k+1].rows[id].status.Completed?
    ensures CompletedAt(Trace(start, scorer, actions), scorer, actions, k, k + 1, id)
  {
    var h := Trace(start, scorer, actions);
    TraceStep(start, scorer, actions, k);
    CleanSeen(start, scorer, actions, k);
    CompletionScores(h[..k+1], scorer, actions[k], id);
  }

  lemma CleanSeen(start: Store, scorer: Scorer, actions: seq<Action>, k: nat)
    requires Clean(start) && k < |actions|
    ensures actions[k].PatchMatch? ==> Clean(Seen(Trace(start, scorer, actions)[..k+1], actions[k].seen))
  {
    if actions[k].PatchMatch? {
      var h := Trace(start, scorer, actions);
      var i := SeenIndex(h, k + 1, actions[k].seen);
      FlagsStayClean(start, scorer, actions, i);
    }
  }

  // ---- with the participants of live matches left alone ----

  /** No PATCH that reads the match live sends participant fields. */
  ghost predicate KeepsLiveParticipants(h: History, actions: seq<Action>, id: Uuid) {
    |h| > |actions| && forall k | 0 <= k < |actions| :: KeepsLive(h[..k+1], actions[k], id)
  }

  ghost predicate KeepsLive(h: History, a: Action, id: Uuid) {
    a.PatchMatch? && a.id == id && id in Seen(h, a.seen).rows && Seen(h, a.seen).rows[id].status.Live? ==>
      !TouchesParticipants(a.patch)
  }

  lemma UpdateSides(st: Store, scorer: Scorer, p: Update, id: Uuid)
    requires UpdateTx(st, scorer, p).Ok? && id in st.rows && st.rows[id].status.Live?
    ensures var after := UpdateTx(st, scorer, p).value;
            && id in after && after[id].home == (if p.id == id then p.home else st.rows[id].home)
            && after[id].away == (if p.id == id then p.away else st.rows[id].away)
  {
  }

  /** A step from live to live writes the sides some earlier read saw, or leaves them. */
  lemma LiveSidesFromRead(h: History, scorer: Scorer, a: Action, id: Uuid)
    requires id in Last(h).rows && id in Next(h, scorer, a).rows
    requires Last(h).rows[id].status.Live? && Next(h, scorer, a).rows[id].status.Live? && KeepsLive(h, a, id)
    ensures var (row, row') := (Last(h).rows[id], Next(h, scorer, a).rows[id]);
            || (row'.home == row.home && row'.away == row.away)
            || (&& a.PatchMatch? && id in Seen(h, a.seen).rows && Seen(h, a.seen).rows[id].status.Live?
                && row'.home == Seen(h, a.seen).rows[id].home && row'.away == Seen(h, a.seen).rows[id].away)
  {
    match a {
      case PatchMatch(seen, pid, patch, entry) =>
        if Outcome(h, scorer, a).Ok? {
          UpdateSides(Last(h), scorer, PrepareUpdate(pid, Seen(h, seen).rows[pid], patch, entry).value, id);
        }
      case AwardWalkover(_, _, _, _) => StepMoves(h, scorer, a);
      case DeleteMatch(_, _) =>
      case _ => TableKeeps(h, scorer, a, id);
    }
  }

  lemma {:induction false} LiveSidesFixed(start: Store, scorer: Scorer, actions: seq<Action>, i: nat, j: nat, id: Uuid)
    requires i <= j <= |actions| && KeepsLiveParticipants(Trace(start, scorer, actions), actions, id)
    requires var h := Trace(start, scorer, actions);
             id in h[i].rows && id in h[j].rows && h[i].rows[id].status.Live? && h[j].rows[id].status.Live?
    ensures var h := Trace(start, scorer, actions);
            h[i].rows[id].home == h[j].rows[id].home && h[i].rows[id].away == h[j].rows[id].away
    decreases j
  {
    if i < j {
      var h := Trace(start, scorer, actions);
      var before, a := h[..j], actions[j-1];
      StatusOnlyMovesUp(start, scorer, actions, i, j - 1, id);
      StatusOnlyMovesUp(start, scorer, actions, j - 1, j, id);
      TraceStep(start, scorer, actions, j - 1);
      assert Last(before) == h[j-1] && before == h[..j-1+1];
      assert KeepsLive(before, a, id);
      LiveSidesFixed(start, scorer, actions, i, j - 1, id);
      LiveSidesFromRead(before, scorer, a, id);
      if a.PatchMatch? && id in Seen(before, a.seen).rows && Seen(before, a.seen).rows[id].status.Live? {
        var s := SeenIndex(h, j, a.seen);
        LiveSidesFixed(start, scorer, actions, s, j - 1, id);
      }
    }
  }

  /** Then a completed row is consistent with itself in every later state: its score is the score of its
      own sides and effective log, and its winner is the side that leads. */
  lemma CompletedRowIsConsistent(start: Store, scorer: Scorer, actions: seq<Action>, j: nat, id: Uuid)
    requires Clean(start) && j <= |actions|
    requires id in start.rows ==> !start.rows[id].status.Completed?
    requires KeepsLiveParticipants(Trace(start, scorer, actions), actions, id)
    requires var h := Trace(start, scorer, actions); id in h[j].rows && h[j].rows[id].status.Completed?
    ensures var (row, st) := (Trace(start, scorer, actions)[j].rows[id], Trace(start, scorer, actions)[j]);
            && (row.homeScore, row.awayScore) == ScoreFor(scorer, row, st.events, id)
            && WinnerLeads(row.winner, row.home, row.away, row.homeScore, row.awayScore)
  {
    var h := Trace(start, scorer, actions);
    var k := CompletedScore(start, scorer, actions, j, id);
    var s := SeenIndex(h, k + 1, actions[k].seen);
    assert KeepsLive(h[..k+1], actions[k], id);
    LiveSidesFixed(start, scorer, actions, s, k, id);
    CompletedFits(h, scorer, actions, k, j, s, id);
  }

  lemma CompletedFits(h: History, scorer: Scorer, actions: seq<Action>, k: nat, j: nat, s: nat, id: Uuid)
    requires CompletedAt(h, scorer, actions, k, j, id) && KeepsLive(h[..k+1], actions[k], id)
    requires s <= k && Seen(h[..k+1], actions[k].seen) == h[s] && id in h[s].rows
    requires h[s].rows[id].home == h[k].rows[id].home && h[s].rows[id].away == h[k].rows[id].away
    ensures var (row, st) := (h[j].rows[id], h[j]);
            && (row.homeScore, row.awayScore) == ScoreFor(scorer, row, st.events, id)
            && WinnerLeads(row.winner, row.home, row.away, row.homeScore, row.awayScore)
  {
  }

  /** The row's score is that of its own sides. */
  ghost predicate FitsOwnSides(scorer: Scorer, rows: Rows, events: seq<E.Event>, id: Uuid) {
    id in rows && (rows[id].homeScore, rows[id].awayScore) == ScoreFor(scorer, rows[id], events, id)
  }

  /** A completing PATCH stores the score of the sides it stores, under every scoring engine, exactly when it
      stores the locked sides. */
  lemma CompletionFitsIff(st: Store, s0: Scorer, p: Update)
    requires p.status.Completed? && UpdateTx(st, s0, p).Ok?
    ensures p.id in st.rows
    ensures (forall s: Scorer | UpdateTx(st, s, p).Ok? :: FitsOwnSides(s, UpdateTx(st, s, p).value, st.events, p.id))
            <==> p.home == st.rows[p.id].home && p.away == st.rows[p.id].away
  {
    var locked := st.rows[p.id];
    forall s: Scorer | UpdateTx(st, s, p).Ok? ensures UpdateStores(st, s, p) { StoredByUpdate(st, s, p); }
    if p.home != locked.home || p.away != locked.away {
      var s1: Scorer := (home, away, log) =>
        if home == p.home && away == p.away then (s0(locked.home, locked.away, log).0 + 1, 0) else s0(home, away, log);
      assert ScoreOf(st, s1, p.id) == ScoreOf(st, s0, p.id);
      assert UpdateTx(st, s1, p).Ok? && UpdateStores(st, s1, p);
      assert !FitsOwnSides(s1, UpdateTx(st, s1, p).value, st.events, p.id);
    }
  }

  ghost predicate UpdateStores(st: Store, s: Scorer, p: Update) {
    && UpdateTx(st, s, p).Ok? && p.id in st.rows && p.id in UpdateTx(st, s, p).value
    && var row := UpdateTx(st, s, p).value[p.id];
       row.home == p.home && row.away == p.away && (row.homeScore, row.awayScore) == ScoreOf(st, s, p.id)
  }

  lemma StoredByUpdate(st: Store, s: Scorer, p: Update)
    requires p.status.Completed? && UpdateTx(st, s, p).Ok?
    ensures UpdateStores(st, s, p)
  {
  }

  /** The input: a completing PATCH that also replaces a participant, so that the stored score is not the score
      of the stored sides. */
  lemma LiveEditExample() returns (start: Store, scorer: Scorer, action: Action)
    ensures Clean(start) && start.rows.Keys == {1} && start.rows[1].status.Live?
    ensures 1 in Next([start], scorer, action).rows
    ensures var row := Next([start], scorer, action).rows[1];
            row.status.Completed? && (row.homeScore, row.awayScore) != ScoreFor(scorer, row, start.events, 1)
  {
    var a, b, c := Side(Some("a"), None), Side(Some("b"), None), Side(Some("c"), None);
    var row := Row(7, Live, a, b, VACANT, false, 0, 0, None, None);
    start := Store(map[1 := row], map[], [], {7});
    scorer := (home, away, log) => if away == b then (0, 0) else (0, 1);
    action := PatchMatch(0, 1, Patch(Some(Completed), None, Some(Some("c")), None, None, None, None, None), Entry(true, true));
    var p := PrepareUpdate(1, row, action.patch, action.entry).value;
    assert UpdateTx(start, scorer, p) == Ok(start.rows[1 := Written(row, p, 0, 0)]);
    assert p.away == c;
  }
}
