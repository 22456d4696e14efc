// Match rows and the transactions over them (backend/internal/matches/repository.go,
// backend/internal/matches/service.go, backend/db/sqlc/matches.sql.go).
//
// Rows carry the columns that progression and scoring depend on; display columns,
// timestamps, audit records and outbox entries are not modelled.

module MatchStore {
  import opened FixtureModels
  import EventLog

  type Uuid = EventLog.Uuid

  datatype Status = Scheduled | Live | Completed | Cancelled | Abandoned | Walkover

  /** One side of a match: its team and player columns. */
  datatype Side = Side(team: Option<string>, player: Option<string>)

  const VACANT := Side(None, None)

  /** The participant id a side stands for; the team column wins. */
  function Uid(s: Side): Option<string> {
    if s.team.Some? then s.team else s.player
  }

  /** p is the side's team, or its player if it has no team. */
  ghost predicate StandsFor(side: Side, p: string) {
    side.team == Some(p) || (side.team == None && side.player == Some(p))
  }

  datatype Row = Row(
    tournament: Uuid, status: Status, home: Side, away: Side, winner: Side, isWalkover: bool,
    homeScore: int, awayScore: int, nextMatch: Option<Uuid>, nextSlot: Option<int>)

  type Rows = map<Uuid, Row>

  /** Columns written on insertion that progression never touches. */
  datatype Card = Card(
    roundNumber: int, matchNumber: int, groupLabel: string,
    homeQualifier: Option<(string, int)>, awayQualifier: Option<(string, int)>)

  type Cards = map<Uuid, Card>

  predicate HasFixtures(rows: Rows, tournament: Uuid) {
    exists id :: id in rows && rows[id].tournament == tournament
  }

  datatype MatchError =
    | TournamentNotOngoing
    | MatchNotFound
    | MatchNotUpdatable
    | MatchAlreadyCancelled
    | WinnerScoreMismatch
    | NextMatchNotFound
    | BracketInconsistent
    | DownstreamLocked
    | InvalidNextSlot
    | InvalidStatusTransition
    | MatchHasTBDSlot
    | WinnerNotAllowed
    | WinnerNotParticipant
    | MixedParticipantTypes
    | MissingParticipants
    | DuplicateParticipants
    | ParticipantsRejected
    | NextMatchLinkIncomplete
    | SelfLink
    | NextMatchCrossTournament
    | SlotAlreadyFed
    | InvalidWalkoverWinner
    | WalkoverReasonRequired
    | WalkoverNeedsParticipants

  /** What the transactions see: the two halves of the match rows, the event table, and the tournaments that are ongoing. */
  datatype Store = Store(rows: Rows, cards: Cards, events: seq<EventLog.Event>, ongoing: set<Uuid>)

  /** The scoring engine, which is not part of this model: any function of the sides and the effective log. */
  type Scorer = (Side, Side, seq<EventLog.Event>) -> (int, int)

  // ---- the status table ----

  predicate IsTerminal(s: Status) {
    s.Completed? || s.Cancelled? || s.Abandoned? || s.Walkover?
  }

  predicate Allowed(from: Status, to: Status) {
    match from
    case Scheduled => to.Live? || to.Cancelled?
    case Live => to.Completed? || to.Abandoned? || to.Cancelled?
    case _ => false
  }

  predicate NeedsOngoing(s: Status) {
    s.Live? || s.Completed? || s.Abandoned?
  }

  predicate BothAssigned(home: Side, away: Side) {
    (home.team.Some? && away.team.Some?) || (home.player.Some? && away.player.Some?)
  }

  // ---- propagation ----

  /** Writes the winner of a concluded feeder into its one slot of the successor. */
  function Propagate(rows: Rows, feeder: Row): Result<Rows, MatchError> {
    if feeder.nextMatch.None? || feeder.nextSlot.None? then Ok(rows)
    else if feeder.winner == VACANT then Ok(rows)
    else if feeder.nextMatch.value !in rows then Err(NextMatchNotFound)
    else
      var succ := rows[feeder.nextMatch.value];
      if succ.tournament != feeder.tournament then Err(BracketInconsistent)
      else if succ.status != Scheduled then Err(DownstreamLocked)
      else if feeder.nextSlot.value == 1 then Ok(rows[feeder.nextMatch.value := succ.(home := feeder.winner)])
      else if feeder.nextSlot.value == 2 then Ok(rows[feeder.nextMatch.value := succ.(away := feeder.winner)])
      else Err(InvalidNextSlot)
  }

  // ---- the update transaction ----

  /** The full-row update: every mutable column, and the status the service observed. */
  datatype Update = Update(
    id: Uuid, home: Side, away: Side, status: Status, winner: Side, homeScore: int, awayScore: int,
    nextMatch: Option<Uuid>, nextSlot: Option<int>, expected: Status, lockTournament: bool,
    tournament: Uuid, isWalkover: bool)

  /** The declared winner must be the side with the higher score, and absent in a draw; walkovers are exempt. */
  predicate WinnerFitsScore(p: Update, locked: Row, homeScore: int, awayScore: int) {
    p.isWalkover
    || if homeScore > awayScore then Uid(p.winner).Some? && Uid(p.winner) == Uid(locked.home)
       else if awayScore > homeScore then Uid(p.winner).Some? && Uid(p.winner) == Uid(locked.away)
       else Uid(p.winner).None?
  }

  function ScoreOf(st: Store, scorer: Scorer, id: Uuid): (int, int)
    requires id in st.rows
  {
    scorer(st.rows[id].home, st.rows[id].away, EventLog.Effective(EventLog.LogOf(st.events, id)))
  }

  /** The row UpdateMatch writes. */
  function Written(row: Row, p: Update, homeScore: int, awayScore: int): Row {
    row.(status := p.status, home := p.home, away := p.away, winner := p.winner,
         homeScore := homeScore, awayScore := awayScore, nextMatch := p.nextMatch, nextSlot := p.nextSlot)
  }

  function UpdateTx(st: Store, scorer: Scorer, p: Update): Result<Rows, MatchError> {
    if p.lockTournament && p.tournament !in st.ongoing then Err(TournamentNotOngoing)
    else if p.status.Completed? && p.id !in st.rows then Err(MatchNotFound)
    else if p.status.Completed? && st.rows[p.id].status != Live then Err(MatchNotUpdatable)
    else if p.status.Completed?
            && !WinnerFitsScore(p, st.rows[p.id], ScoreOf(st, scorer, p.id).0, ScoreOf(st, scorer, p.id).1)
      then Err(WinnerScoreMismatch)
    else if p.id !in st.rows || st.rows[p.id].status != p.expected then Err(MatchNotUpdatable)
    else
      var (hs, as_) := if p.status.Completed? then ScoreOf(st, scorer, p.id) else (p.homeScore, p.awayScore);
      var row := Written(st.rows[p.id], p, hs, as_);
      var rows := st.rows[p.id := row];
      if p.status.Completed? then Propagate(rows, row) else Ok(rows)
  }

  // ---- the walkover and cancel transactions ----

  datatype WalkoverParams = WalkoverParams(id: Uuid, tournament: Uuid, winner: Side, expected: Status)

  function WalkoverRow(row: Row, winner: Side): Row {
    row.(status := Walkover, isWalkover := true, winner := winner, homeScore := 0, awayScore := 0)
  }

  function WalkoverTx(st: Store, p: WalkoverParams): Result<Rows, MatchError> {
    if p.tournament !in st.ongoing then Err(TournamentNotOngoing)
    else if p.id !in st.rows || st.rows[p.id].status != p.expected then Err(MatchNotUpdatable)
    else
      var row := WalkoverRow(st.rows[p.id], p.winner);
      Propagate(st.rows[p.id := row], row)
  }

  function CancelTx(st: Store, id: Uuid, expected: Status): Result<Rows, MatchError> {
    if id !in st.rows || st.rows[id].status != expected then Err(MatchNotUpdatable)
    else Ok(st.rows[id := st.rows[id].(status := Cancelled)])
  }

  // ---- the service checks on the row it read ----

  /** A PATCH; None keeps the column.  A field set to an empty id clears it. */
  datatype Patch = Patch(
    status: Option<Status>,
    homeTeam: Option<Option<string>>, awayTeam: Option<Option<string>>,
    homePlayer: Option<Option<string>>, awayPlayer: Option<Option<string>>,
    winnerTeam: Option<Option<string>>, winnerPlayer: Option<Option<string>>,
    link: Option<Result<(Option<Uuid>, Option<int>), MatchError>>)

  function Or<T>(new_: Option<T>, kept: T): T {
    if new_.Some? then new_.value else kept
  }

  predicate TouchesParticipants(q: Patch) {
    q.homeTeam.Some? || q.awayTeam.Some? || q.homePlayer.Some? || q.awayPlayer.Some?
  }

  function PatchedHome(current: Row, q: Patch): Side {
    Side(Or(q.homeTeam, current.home.team), Or(q.homePlayer, current.home.player))
  }

  function PatchedAway(current: Row, q: Patch): Side {
    Side(Or(q.awayTeam, current.away.team), Or(q.awayPlayer, current.away.player))
  }

  function PatchedWinner(current: Row, q: Patch): Side {
    Side(Or(q.winnerTeam, current.winner.team), Or(q.winnerPlayer, current.winner.player))
  }

  predicate WinnerIsParticipant(winner: Side, home: Side, away: Side) {
    && (winner.team.Some? ==> winner.team == home.team || winner.team == away.team)
    && (winner.player.Some? ==> winner.player == home.player || winner.player == away.player)
  }

  /** What the participant checks read: the tournament's participant type, and whether both participants belong to
      the organisation and hold an approved registration. */
  datatype Entry = Entry(teams: bool, approved: bool)

  /** The participant checks, in the order of the service. */
  function ParticipantError(entry: Entry, home: Side, away: Side): Option<MatchError> {
    if entry.teams && (home.player.Some? || away.player.Some?) then Some(MixedParticipantTypes)
    else if entry.teams && (home.team.None? || away.team.None?) then Some(MissingParticipants)
    else if !entry.teams && (home.team.Some? || away.team.Some?) then Some(MixedParticipantTypes)
    else if !entry.teams && (home.player.None? || away.player.None?) then Some(MissingParticipants)
    else if home == away then Some(DuplicateParticipants)
    else if !entry.approved then Some(ParticipantsRejected)
    else None
  }

  /** An active match linked to a slot; cancelled feeders do not count. */
  predicate IsFeeder(rows: Rows, id: Uuid, next: Uuid, slot: int) {
    id in rows && rows[id].nextMatch == Some(next) && rows[id].nextSlot == Some(slot) && !rows[id].status.Cancelled?
  }

  /** The check of a link; self is None for a match that is being created. */
  function LinkVerdict(rows: Rows, tournament: Uuid, next: Option<Uuid>, slot: Option<int>, self: Option<Uuid>)
    : Result<(Option<Uuid>, Option<int>), MatchError>
  {
    if next.None? && slot.None? then Ok((None, None))
    else if next.None? || slot.None? then Err(NextMatchLinkIncomplete)
    else if slot.value != 1 && slot.value != 2 then Err(InvalidNextSlot)
    else if next == self then Err(SelfLink)
    else if next.value !in rows then Err(NextMatchNotFound)
    else if rows[next.value].tournament != tournament then Err(NextMatchCrossTournament)
    else if exists id | id in rows :: Some(id) != self && IsFeeder(rows, id, next.value, slot.value) then Err(SlotAlreadyFed)
    else Ok((next, slot))
  }

  /** Service.Create up to the repository call: no participant at all, or two that pass the checks, and a link that passes. */
  predicate AdmitsCreation(rows: Rows, row: Row, entry: Entry) {
    && ((row.home == VACANT && row.away == VACANT) || ParticipantError(entry, row.home, row.away).None?)
    && LinkVerdict(rows, row.tournament, row.nextMatch, row.nextSlot, None) == Ok((row.nextMatch, row.nextSlot))
  }

  /** Service.Update up to the repository call; the verdict on a new link arrives with the patch. */
  function PrepareUpdate(id: Uuid, current: Row, q: Patch, entry: Entry): Result<Update, MatchError> {
    var home, away, winner := PatchedHome(current, q), PatchedAway(current, q), PatchedWinner(current, q);
    var status := Or(q.status, current.status);
    if IsTerminal(current.status) then Err(MatchNotUpdatable)
    else if TouchesParticipants(q) && ParticipantError(entry, home, away).Some? then Err(ParticipantError(entry, home, away).value)
    else if q.link.Some? && q.link.value.Err? then Err(q.link.value.error)
    else if q.status.Some? && !Allowed(current.status, status) then Err(InvalidStatusTransition)
    else if q.status.Some? && (status.Live? || status.Completed?) && !BothAssigned(home, away) then Err(MatchHasTBDSlot)
    else if (q.winnerTeam.Some? || q.winnerPlayer.Some?) && !status.Completed? then Err(WinnerNotAllowed)
    else if !WinnerIsParticipant(winner, home, away) then Err(WinnerNotParticipant)
    else
      var (next, slot) := if q.link.Some? then q.link.value.value else (current.nextMatch, current.nextSlot);
      Ok(Update(id, home, away, status, winner, current.homeScore, current.awayScore, next, slot, current.status,
                q.status.Some? && NeedsOngoing(status), current.tournament, current.isWalkover))
  }

  /** Service.Walkover up to the repository call; winner and reason are already trimmed and lower-cased. */
  function PrepareWalkover(id: Uuid, current: Row, winner: string, reason: string): Result<WalkoverParams, MatchError> {
    if winner != "home" && winner != "away" then Err(InvalidWalkoverWinner)
    else if reason == "" then Err(WalkoverReasonRequired)
    else if IsTerminal(current.status) then Err(MatchNotUpdatable)
    else if current.home.team.Some? || current.away.team.Some? then
      if current.home.team.None? || current.away.team.None? then Err(WalkoverNeedsParticipants)
      else
        var team := if winner == "home" then current.home.team else current.away.team;
        Ok(WalkoverParams(id, current.tournament, Side(team, None), current.status))
    else if current.home.player.Some? || current.away.player.Some? then
      if current.home.player.None? || current.away.player.None? then Err(WalkoverNeedsParticipants)
      else
        var player := if winner == "home" then current.home.player else current.away.player;
        Ok(WalkoverParams(id, current.tournament, Side(None, player), current.status))
    else Err(WalkoverNeedsParticipants)
  }

  function PrepareCancel(current: Row): Result<Status, MatchError> {
    if current.status.Cancelled? then Err(MatchAlreadyCancelled)
    else if IsTerminal(current.status) then Err(MatchNotUpdatable)
    else Ok(current.status)
  }

  // ---- what a PATCH, a walkover and a cancellation write ----

  /** The value written is the field's if the field was sent, and the value read otherwise. */
  ghost predicate Takes<T>(field: Option<T>, read: T, written: T) {
    (field.Some? ==> written == field.value) && (field.None? ==> written == read)
  }

  ghost predicate TakesSides(current: Row, q: Patch, home: Side, away: Side) {
    && Takes(q.homeTeam, current.home.team, home.team) && Takes(q.homePlayer, current.home.player, home.player)
    && Takes(q.awayTeam, current.away.team, away.team) && Takes(q.awayPlayer, current.away.player, away.player)
  }

  ghost predicate TakesWinner(current: Row, q: Patch, winner: Side) {
    Takes(q.winnerTeam, current.winner.team, winner.team) && Takes(q.winnerPlayer, current.winner.player, winner.player)
  }

  /** Column by column, what a PATCH that passes the checks asks the transaction to write. */
  lemma PatchColumns(id: Uuid, current: Row, q: Patch, entry: Entry)
    requires PrepareUpdate(id, current, q, entry).Ok?
    ensures var p := PrepareUpdate(id, current, q, entry).value;
            && TakesSides(current, q, p.home, p.away) && TakesWinner(current, q, p.winner) && Takes(q.status, current.status, p.status)
            && (q.link.None? ==> p.nextMatch == current.nextMatch && p.nextSlot == current.nextSlot)
            && (q.link.Some? ==> q.link.value.Ok? && q.link.value.value.0 == p.nextMatch && q.link.value.value.1 == p.nextSlot)
            && p.homeScore == current.homeScore && p.awayScore == current.awayScore
            && p.id == id && p.tournament == current.tournament && p.isWalkover == current.isWalkover && p.expected == current.status
            && (p.lockTournament <==> q.status.Some? && q.status.value in {Live, Completed, Abandoned})
  {
  }

  /** Two different participants of the tournament's type, both approved. */
  ghost predicate ValidPair(entry: Entry, home: Side, away: Side) {
    && entry.approved
    && if entry.teams then home.player == None && away.player == None && home.team != None && away.team != None && home.team != away.team
       else home.team == None && away.team == None && home.player != None && away.player != None && home.player != away.player
  }

  /** The status may change from a to b. */
  ghost predicate Advances(a: Status, b: Status) {
    (a, b) in {(Scheduled, Live), (Scheduled, Cancelled), (Live, Completed), (Live, Abandoned), (Live, Cancelled)}
  }

  /** Both sides name a team, or both name a player. */
  ghost predicate SeatsTaken(home: Side, away: Side) {
    (home.team != None && away.team != None) || (home.player != None && away.player != None)
  }

  /** A PATCH passes the checks of the service exactly when the match is not over, changed participants are a valid pair,
      a link is sound, a status may follow the present one and finds both sides seated to start or complete, a winner is
      sent with a completion only, and the winner to be stored is a participant; home, away and winner are as patched. */
  lemma PatchPassesIff(id: Uuid, current: Row, q: Patch, entry: Entry, home: Side, away: Side, winner: Side)
    requires TakesSides(current, q, home, away) && TakesWinner(current, q, winner)
    ensures PrepareUpdate(id, current, q, entry).Ok? <==>
              && (current.status == Scheduled || current.status == Live)
              && (q.homeTeam != None || q.homePlayer != None || q.awayTeam != None || q.awayPlayer != None ==> ValidPair(entry, home, away))
              && (q.link.Some? ==> q.link.value.Ok?)
              && (q.status.Some? ==> Advances(current.status, q.status.value))
              && (q.status == Some(Live) || q.status == Some(Completed) ==> SeatsTaken(home, away))
              && (q.winnerTeam != None || q.winnerPlayer != None ==> q.status == Some(Completed))
              && (winner.team != None ==> winner.team in {home.team, away.team})
              && (winner.player != None ==> winner.player in {home.player, away.player})
  {
    var (h, a, w) := (PatchedHome(current, q), PatchedAway(current, q), PatchedWinner(current, q));
    assert home == h && away == a && winner == w;
    ValidPairIff(entry, home, away);
  }

  lemma ValidPairIff(entry: Entry, home: Side, away: Side)
    ensures ParticipantError(entry, home, away).None? <==> ValidPair(entry, home, away)
  {
  }

  /** The two columns of the winner's slot in the successor. */
  ghost predicate SeatsIn(before: Row, after: Row, slot: int, winner: Side) {
    && (slot == 1 || slot == 2)
    && after.home == (if slot == 1 then winner else before.home) && after.away == (if slot == 2 then winner else before.away)
    && SameButSides(before, after)
  }

  ghost predicate SameButSides(a: Row, b: Row) {
    && b.tournament == a.tournament && b.status == a.status && b.winner == a.winner && b.isWalkover == a.isWalkover
    && b.homeScore == a.homeScore && b.awayScore == a.awayScore && b.nextMatch == a.nextMatch && b.nextSlot == a.nextSlot
  }

  /** Nobody moves on: no link, or no winner. */
  ghost predicate StaysPut(c: Row) {
    c.nextMatch == None || c.nextSlot == None || (c.winner.team == None && c.winner.player == None)
  }

  /** The result c of a match can move on to a scheduled match of its tournament. */
  ghost predicate CanMoveOn(rows: Rows, c: Row) {
    && !StaysPut(c) && c.nextMatch.value in rows && (c.nextSlot == Some(1) || c.nextSlot == Some(2))
    && rows[c.nextMatch.value].tournament == c.tournament && rows[c.nextMatch.value].status == Scheduled
  }

  /** Propagation succeeds exactly when nobody moves on or the winner can; then it writes the one slot, and nothing else. */
  lemma PropagatesIff(rows: Rows, c: Row)
    ensures var r := Propagate(rows, c);
            && (r.Ok? <==> StaysPut(c) || CanMoveOn(rows, c))
            && (StaysPut(c) ==> r == Ok(rows))
            && (CanMoveOn(rows, c) ==>
                  && r.Ok? && r.value.Keys == rows.Keys
                  && SeatsIn(rows[c.nextMatch.value], r.value[c.nextMatch.value], c.nextSlot.value, c.winner)
                  && forall id | id in rows && id != c.nextMatch.value :: r.value[id] == rows[id])
  {
  }

  /** The error of a propagation that fails. */
  lemma PropagationError(rows: Rows, c: Row)
    requires Propagate(rows, c).Err?
    ensures !StaysPut(c)
    ensures match Propagate(rows, c).error
            case NextMatchNotFound => c.nextMatch.value !in rows
            case BracketInconsistent => c.nextMatch.value in rows && rows[c.nextMatch.value].tournament != c.tournament
            case DownstreamLocked => c.nextMatch.value in rows && rows[c.nextMatch.value].status != Scheduled
            case InvalidNextSlot => c.nextSlot.value != 1 && c.nextSlot.value != 2
            case _ => false
  {
  }

  /** after is the table with row c for match id, whose winner, if moving is asked for, has moved on. */
  ghost predicate Commits(rows: Rows, after: Rows, id: Uuid, c: Row, moving: bool) {
    && after.Keys == rows.Keys && id in rows && after[id] == c
    && forall other | other in rows && other != id ::
         if moving && !StaysPut(c) && c.nextMatch.value == other
           then SeatsIn(rows[other], after[other], c.nextSlot.value, c.winner)
         else after[other] == rows[other]
  }

  /** The recorded winner is the side with the higher score, and nobody in a draw. */
  ghost predicate WinnerLeads(winner: Side, home: Side, away: Side, homeScore: int, awayScore: int) {
    && (homeScore > awayScore ==> exists p :: StandsFor(winner, p) && StandsFor(home, p))
    && (awayScore > homeScore ==> exists p :: StandsFor(winner, p) && StandsFor(away, p))
    && (homeScore == awayScore ==> winner.team == None && winner.player == None)
  }

  /** The winner passes the check of a completion exactly when he leads. */
  lemma FitsIffLeads(p: Update, locked: Row, homeScore: int, awayScore: int)
    ensures WinnerFitsScore(p, locked, homeScore, awayScore) <==>
              p.isWalkover || WinnerLeads(p.winner, locked.home, locked.away, homeScore, awayScore)
  {
    SameParticipantIff(p.winner, locked.home);
    SameParticipantIff(p.winner, locked.away);
  }

  lemma SameParticipantIff(a: Side, b: Side)
    ensures Uid(a).Some? && Uid(a) == Uid(b) <==> exists p :: StandsFor(a, p) && StandsFor(b, p)
  {
    if Uid(a).Some? && Uid(a) == Uid(b) {
      assert StandsFor(a, Uid(a).value) && StandsFor(b, Uid(a).value);
    }
  }

  /** c is the locked row with every column of the update; a completion takes the engine's score of the locked sides and
      the standing events, any other update the score it brings. */
  ghost predicate TakesUpdate(st: Store, scorer: Scorer, p: Update, c: Row)
    requires p.id in st.rows
  {
    var locked, score := st.rows[p.id], (c.homeScore, c.awayScore);
    && c.tournament == locked.tournament && c.isWalkover == locked.isWalkover
    && c.status == p.status && c.home == p.home && c.away == p.away && c.winner == p.winner
    && c.nextMatch == p.nextMatch && c.nextSlot == p.nextSlot
    && score == if p.status == Completed then scorer(locked.home, locked.away, EventLog.Effective(EventLog.LogOf(st.events, p.id)))
                else (p.homeScore, p.awayScore)
  }

  /** An update commits exactly when its tournament is ongoing if that matters, the match still has the status observed,
      and a completion of a live match brings the leading side as winner, who can move on; it writes row c. */
  lemma UpdateCommitsIff(st: Store, scorer: Scorer, p: Update, c: Row)
    requires p.id in st.rows && TakesUpdate(st, scorer, p, c)
    ensures var (locked, r) := (st.rows[p.id], UpdateTx(st, scorer, p));
            && (r.Ok? <==>
                  && (p.lockTournament ==> p.tournament in st.ongoing) && locked.status == p.expected
                  && (p.status == Completed ==>
                        && locked.status == Live
                        && (p.isWalkover || WinnerLeads(p.winner, locked.home, locked.away, c.homeScore, c.awayScore))
                        && (StaysPut(c) || CanMoveOn(st.rows[p.id := c], c))))
            && (r.Ok? ==> Commits(st.rows, r.value, p.id, c, p.status == Completed))
  {
    var row := Written(st.rows[p.id], p, c.homeScore, c.awayScore);
    assert row == c;
    FitsIffLeads(p, st.rows[p.id], c.homeScore, c.awayScore);
    PropagatesIff(st.rows[p.id := c], c);
  }

  /** An update of a match that is not there fails. */
  lemma UpdateNeedsMatch(st: Store, scorer: Scorer, p: Update)
    requires p.id !in st.rows
    ensures UpdateTx(st, scorer, p).Err?
  {
  }

  /** The error of an update that fails. */
  lemma UpdateError(st: Store, scorer: Scorer, p: Update)
    requires UpdateTx(st, scorer, p).Err?
    ensures var e := UpdateTx(st, scorer, p).error;
            && (e == TournamentNotOngoing <==> p.lockTournament && p.tournament !in st.ongoing)
            && (e == MatchNotFound ==> p.id !in st.rows)
            && (e == MatchNotUpdatable ==>
                  p.id !in st.rows || st.rows[p.id].status != p.expected || (p.status == Completed && st.rows[p.id].status != Live))
            && (e == WinnerScoreMismatch ==>
                  && p.status == Completed && p.id in st.rows && !p.isWalkover
                  && var (hs, as_) := scorer(st.rows[p.id].home, st.rows[p.id].away, EventLog.Effective(EventLog.LogOf(st.events, p.id)));
                     !WinnerLeads(p.winner, st.rows[p.id].home, st.rows[p.id].away, hs, as_))
  {
    if p.id in st.rows {
      FitsIffLeads(p, st.rows[p.id], ScoreOf(st, scorer, p.id).0, ScoreOf(st, scorer, p.id).1);
    }
  }

  /** A PATCH that commits leaves, column by column, what it sent and what was read, in the row it found with the status
      it read. */
  lemma PatchCommits(st: Store, scorer: Scorer, id: Uuid, current: Row, q: Patch, entry: Entry)
    requires PrepareUpdate(id, current, q, entry).Ok? && UpdateTx(st, scorer, PrepareUpdate(id, current, q, entry).value).Ok?
    ensures var after := UpdateTx(st, scorer, PrepareUpdate(id, current, q, entry).value).value;
            && id in st.rows && st.rows[id].status == current.status && after.Keys == st.rows.Keys
            && var (old_, new_) := (st.rows[id], after[id]);
               && TakesSides(current, q, new_.home, new_.away) && TakesWinner(current, q, new_.winner)
               && Takes(q.status, current.status, new_.status)
               && (q.link.None? ==> new_.nextMatch == current.nextMatch && new_.nextSlot == current.nextSlot)
               && (q.link.Some? ==> q.link.value.Ok? && q.link.value.value.0 == new_.nextMatch && q.link.value.value.1 == new_.nextSlot)
               && new_.tournament == old_.tournament && new_.isWalkover == old_.isWalkover
               && (new_.status != Completed ==> new_.homeScore == current.homeScore && new_.awayScore == current.awayScore)
               && (new_.status != Completed ==> forall other | other in st.rows && other != id :: after[other] == st.rows[other])
  {
    PatchColumns(id, current, q, entry);
    var p := PrepareUpdate(id, current, q, entry).value;
    if id !in st.rows { UpdateNeedsMatch(st, scorer, p); }
    var (hs, as_) := if p.status.Completed? then ScoreOf(st, scorer, id) else (p.homeScore, p.awayScore);
    UpdateCommitsIff(st, scorer, p, Written(st.rows[id], p, hs, as_));
  }

  /** A walkover passes the checks exactly for a match that is not over, with a reason, to one of two seated sides; the
      winner named is stored with his team or player. */
  lemma WalkoverPassesIff(id: Uuid, current: Row, winner: string, reason: string)
    ensures var (r, teams) := (PrepareWalkover(id, current, winner, reason), current.home.team != None && current.away.team != None);
            && (r.Ok? <==>
                  && winner in {"home", "away"} && reason != "" && (current.status == Scheduled || current.status == Live)
                  && (teams || (current.home.team == None && current.away.team == None
                                && current.home.player != None && current.away.player != None)))
            && (r.Ok? ==>
                  && var (p, side) := (r.value, if winner == "home" then current.home else current.away);
                     && p.id == id && p.tournament == current.tournament && p.expected == current.status
                     && p.winner.team == (if teams then side.team else None) && p.winner.player == (if teams then None else side.player))
            && (r.Err? ==> match r.error
                           case InvalidWalkoverWinner => winner !in {"home", "away"}
                           case WalkoverReasonRequired => reason == ""
                           case MatchNotUpdatable => current.status != Scheduled && current.status != Live
                           case WalkoverNeedsParticipants => !teams
                           case _ => false)
  {
  }

  /** c is the locked row as a walkover: 0-0, flagged, with the winner named. */
  ghost predicate TakesWalkover(locked: Row, winner: Side, c: Row) {
    && c.status == Walkover && c.isWalkover && c.winner == winner && c.homeScore == 0 && c.awayScore == 0
    && c.tournament == locked.tournament && c.home == locked.home && c.away == locked.away
    && c.nextMatch == locked.nextMatch && c.nextSlot == locked.nextSlot
  }

  lemma WalkoverCommitsIff(st: Store, p: WalkoverParams, c: Row)
    requires p.id in st.rows && TakesWalkover(st.rows[p.id], p.winner, c)
    ensures var r := WalkoverTx(st, p);
            && (r.Ok? <==>
                  p.tournament in st.ongoing && st.rows[p.id].status == p.expected && (StaysPut(c) || CanMoveOn(st.rows[p.id := c], c)))
            && (r.Ok? ==> Commits(st.rows, r.value, p.id, c, true))
  {
    assert WalkoverRow(st.rows[p.id], p.winner) == c;
    PropagatesIff(st.rows[p.id := c], c);
  }

  /** A cancellation goes through exactly for a match that was read scheduled or live and still is; it sets the status,
      and nothing else. */
  lemma CancelIff(st: Store, id: Uuid, current: Row)
    ensures var r := PrepareCancel(current);
            && (r.Ok? <==> current.status == Scheduled || current.status == Live)
            && (r.Err? ==> r.error == if current.status == Cancelled then MatchAlreadyCancelled else MatchNotUpdatable)
            && (r.Ok? ==>
                  && var done := CancelTx(st, id, r.value);
                     && (done.Ok? <==> id in st.rows && st.rows[id].status == current.status)
                     && (done.Err? ==> done.error == MatchNotUpdatable)
                     && (done.Ok? ==>
                           && done.value.Keys == st.rows.Keys && done.value[id].status == Cancelled
                           && done.value[id].(status := current.status) == st.rows[id]
                           && forall other | other in st.rows && other != id :: done.value[other] == st.rows[other]))
  {
  }

  /** A link is accepted exactly when there is none, or it leads to one of the two slots of another stored match of the
      tournament that no other active match feeds. */
  lemma LinkAcceptedIff(rows: Rows, tournament: Uuid, next: Option<Uuid>, slot: Option<int>, self: Option<Uuid>)
    ensures var r := LinkVerdict(rows, tournament, next, slot, self);
            && (r.Ok? <==>
                  || (next == None && slot == None)
                  || (&& next != None && (slot == Some(1) || slot == Some(2)) && next != self && next.value in rows
                      && rows[next.value].tournament == tournament
                      && forall id | id in rows && rows[id].nextMatch == next && rows[id].nextSlot == slot ::
                           rows[id].status == Cancelled || Some(id) == self))
            && (r.Ok? ==> r.value.0 == next && r.value.1 == slot)
  {
    if next.Some? && slot.Some? {
      forall id | id in rows ensures IsFeeder(rows, id, next.value, slot.value)
          <==> rows[id].nextMatch == next && rows[id].nextSlot == slot && rows[id].status != Cancelled {}
    }
  }

  // ---- the repository ----

  /** The matches table with its transactions: each commits all of its writes or none. */
  class MatchRepository {
    var rows: Rows
    const cards: Cards
    var events: seq<EventLog.Event>
    var ongoing: set<Uuid>
    const scorer: Scorer

    constructor (rows: Rows, cards: Cards, events: seq<EventLog.Event>, ongoing: set<Uuid>, scorer: Scorer)
      ensures Contents() == Store(rows, cards, events, ongoing) && this.scorer == scorer
    {
      this.rows, this.cards, this.events, this.ongoing, this.scorer := rows, cards, events, ongoing, scorer;
    }

    ghost function Contents(): Store
      reads this
    {
      Store(rows, cards, events, ongoing)
    }

    /** Advances the winner inside the caller's transaction, whose rows so far are tx. */
    method PropagateWinner(tx: Rows, feeder: Row) returns (r: Result<Rows, MatchError>)
      ensures r == Propagate(tx, feeder)
    {
      if feeder.nextMatch.None? || feeder.nextSlot.None? {
        return Ok(tx);
      }
      if feeder.winner.team.None? && feeder.winner.player.None? {
        return Ok(tx);
      }
      var next := feeder.nextMatch.value;
      if next !in tx {
        return Err(NextMatchNotFound);
      }
      var succ := tx[next];
      if succ.tournament != feeder.tournament {
        return Err(BracketInconsistent);
      }
      if succ.status != Scheduled {
        return Err(DownstreamLocked);
      }
      match feeder.nextSlot.value {
        case 1 => succ := succ.(home := feeder.winner);
        case 2 => succ := succ.(away := feeder.winner);
        case _ => return Err(InvalidNextSlot);
      }
      r := Ok(tx[next := succ]);
    }

    method UpdateWithAudit(p: Update) returns (e: Option<MatchError>)
      modifies this
      ensures events == old(events) && ongoing == old(ongoing)
      ensures match UpdateTx(old(Contents()), scorer, p)
              case Ok(after) => e == None && rows == after
              case Err(error) => e == Some(error) && rows == old(rows)
    {
      if p.lockTournament && p.tournament !in ongoing {
        return Some(TournamentNotOngoing);
      }
      var homeScore, awayScore := p.homeScore, p.awayScore;
      if p.status.Completed? {
        if p.id !in rows {
          return Some(MatchNotFound);
        }
        var locked := rows[p.id];
        if locked.status != Live {
          return Some(MatchNotUpdatable);
        }
        var effective := EventLog.Effective(EventLog.LogOf(events, p.id));
        var score := scorer(locked.home, locked.away, effective);
        if !WinnerFitsScore(p, locked, score.0, score.1) {
          return Some(WinnerScoreMismatch);
        }
        homeScore, awayScore := score.0, score.1;
      }
      if p.id !in rows || rows[p.id].status != p.expected {
        return Some(MatchNotUpdatable);
      }
      var m := Written(rows[p.id], p, homeScore, awayScore);
      var tx := rows[p.id := m];
      if m.status.Completed? {
        var r := PropagateWinner(tx, m);
        if r.Err? {
          return Some(r.error);
        }
        tx := r.value;
      }
      rows := tx;
      e := None;
    }

    method WalkoverWithAudit(p: WalkoverParams) returns (e: Option<MatchError>)
      modifies this
      ensures events == old(events) && ongoing == old(ongoing)
      ensures match WalkoverTx(old(Contents()), p)
              case Ok(after) => e == None && rows == after
              case Err(error) => e == Some(error) && rows == old(rows)
    {
      if p.tournament !in ongoing {
        return Some(TournamentNotOngoing);
      }
      if p.id !in rows || rows[p.id].status != p.expected {
        return Some(MatchNotUpdatable);
      }
      var m := WalkoverRow(rows[p.id], p.winner);
      var r := PropagateWinner(rows[p.id := m], m);
      if r.Err? {
        return Some(r.error);
      }
      rows := r.value;
      e := None;
    }

    method CancelWithAudit(id: Uuid, previousStatus: Status) returns (e: Option<MatchError>)
      modifies this
      ensures events == old(events) && ongoing == old(ongoing)
      ensures match CancelTx(old(Contents()), id, previousStatus)
              case Ok(after) => e == None && rows == after
              case Err(error) => e == Some(error) && rows == old(rows)
    {
      if id !in rows || rows[id].status != previousStatus {
        return Some(MatchNotUpdatable);
      }
      rows := rows[id := rows[id].(status := Cancelled)];
      e := None;
    }
  }
}
