// The append-only match event log (backend/internal/match_events/repository.go,
// backend/internal/match_events/service.go, backend/db/sqlc/match_events.sql.go).

module EventLog {
  import opened FixtureModels
  import opened Counting

  type Uuid = int

  datatype EventKind = MatchStarted | MatchEnded | ScoreCorrection | OtherKind(name: string)

  datatype Event = Event(
    id: Uuid, matchId: Uuid, sequenceNumber: int, kind: EventKind,
    team: Option<string>, player: Option<string>, payload: string, cancels: Option<Uuid>)

  /** What the locked match row says: whether it is live, and its four participant columns. */
  datatype MatchInfo = MatchInfo(
    live: bool, homeTeam: Option<string>, awayTeam: Option<string>, homePlayer: Option<string>, awayPlayer: Option<string>)

  /** A request to record an event; newId is the id the insert will be given. */
  datatype NewEvent = NewEvent(
    newId: Uuid, matchId: Uuid, kind: EventKind,
    team: Option<string>, player: Option<string>, payload: string, cancels: Option<Uuid>)

  datatype EventError =
    | CancelsEventRequired
    | CancelsEventNotAllowed
    | MatchNotLive
    | TeamNotParticipant
    | PlayerNotParticipant
    | PlayerNotOnTeam
    | DuplicateLifecycleEvent
    | CancelsEventNotFound
    | CancelsEventCrossMatch
    | CannotCancelCorrection
    | EventAlreadyCancelled

  predicate IsLifecycle(k: EventKind) {
    k.MatchStarted? || k.MatchEnded?
  }

  // ---- queries ----

  /** The events of one match, in append order. */
  function LogOf(events: seq<Event>, m: Uuid): seq<Event> {
    if events == [] then []
    else LogOf(events[..|events|-1], m) + if events[|events|-1].matchId == m then [events[|events|-1]] else []
  }

  /** COALESCE(MAX(sequence_number), 0). */
  function MaxSequence(log: seq<Event>): int {
    if log == [] then 0
    else
      var before, last := MaxSequence(log[..|log|-1]), log[|log|-1].sequenceNumber;
      if last > before then last else before
  }

  function CancelledIds(log: seq<Event>): set<Uuid> {
    set e | e in log && e.cancels.Some? :: e.cancels.value
  }

  /** The effective timeline: events no correction of the match cancels. */
  function Effective(log: seq<Event>): seq<Event> {
    Surviving(log, CancelledIds(log))
  }

  function Surviving(log: seq<Event>, cancelled: set<Uuid>): seq<Event> {
    if log == [] then []
    else Surviving(log[..|log|-1], cancelled) + if log[|log|-1].id in cancelled then [] else [log[|log|-1]]
  }

  predicate HasKind(log: seq<Event>, k: EventKind) {
    exists i :: 0 <= i < |log| && log[i].kind == k
  }

  predicate HasId(events: seq<Event>, id: Uuid) {
    exists i :: 0 <= i < |events| && events[i].id == id
  }

  function FindEvent(events: seq<Event>, id: Uuid): (r: Option<Event>)
    ensures r.Some? <==> HasId(events, id)
    ensures r.Some? ==> r.value in events && r.value.id == id
  {
    if events == [] then None
    else if events[0].id == id then Some(events[0])
    else
      assert forall i | 0 < i < |events| :: events[i] == events[1..][i-1];
      FindEvent(events[1..], id)
  }

  // ---- the transaction ----

  /** cancels_event_id is required for a correction and forbidden for everything else. */
  function ServiceCheck(p: NewEvent): Option<EventError> {
    if p.kind.ScoreCorrection? && p.cancels.None? then Some(CancelsEventRequired)
    else if !p.kind.ScoreCorrection? && p.cancels.Some? then Some(CancelsEventNotAllowed)
    else None
  }

  /** Both ids present and equal. */
  predicate SameId(a: Option<string>, b: Option<string>) {
    a.Some? && a == b
  }

  /** Membership of a player on a team, as the two EXISTS queries report it. */
  type Membership = set<(string, string)>

  function ParticipantCheck(info: MatchInfo, members: Membership, p: NewEvent): Option<EventError> {
    if p.team.Some? && !SameId(p.team, info.homeTeam) && !SameId(p.team, info.awayTeam) then Some(TeamNotParticipant)
    else if p.player.Some? && (info.homePlayer.Some? || info.awayPlayer.Some?)
            && !SameId(p.player, info.homePlayer) && !SameId(p.player, info.awayPlayer) then Some(PlayerNotParticipant)
    else if p.player.Some? && info.homePlayer.None? && info.awayPlayer.None?
            && (info.homeTeam.Some? || info.awayTeam.Some?)
            && !(info.homeTeam.Some? && (p.player.value, info.homeTeam.value) in members)
            && !(info.awayTeam.Some? && (p.player.value, info.awayTeam.value) in members) then Some(PlayerNotParticipant)
    else if p.team.Some? && p.player.Some? && (p.player.value, p.team.value) !in members then Some(PlayerNotOnTeam)
    else None
  }

  function CorrectionCheck(events: seq<Event>, p: NewEvent): Option<EventError> {
    if !p.kind.ScoreCorrection? then None
    else if p.cancels.None? then Some(CancelsEventRequired)
    else
      match FindEvent(events, p.cancels.value)
      case None => Some(CancelsEventNotFound)
      case Some(target) =>
        if target.matchId != p.matchId then Some(CancelsEventCrossMatch)
        else if target.kind.ScoreCorrection? then Some(CannotCancelCorrection)
        else if p.cancels.value in CancelledIds(LogOf(events, p.matchId)) then Some(EventAlreadyCancelled)
        else None
  }

  /** The checks of the transaction, in order; None when the event is inserted. */
  function Rejection(events: seq<Event>, info: MatchInfo, members: Membership, p: NewEvent): Option<EventError> {
    if !info.live then Some(MatchNotLive)
    else if ParticipantCheck(info, members, p).Some? then ParticipantCheck(info, members, p)
    else if IsLifecycle(p.kind) && HasKind(LogOf(events, p.matchId), p.kind) then Some(DuplicateLifecycleEvent)
    else CorrectionCheck(events, p)
  }

  function Inserted(events: seq<Event>, p: NewEvent): Event {
    Event(p.newId, p.matchId, MaxSequence(LogOf(events, p.matchId)) + 1, p.kind, p.team, p.player, p.payload, p.cancels)
  }

  class EventTable {
    var events: seq<Event>

    constructor ()
      ensures events == []
    {
      events := [];
    }

    /** Records an event under the match row lock, or changes nothing. */
    method CreateWithAudit(info: MatchInfo, members: Membership, p: NewEvent) returns (r: Result<Event, EventError>)
      modifies this
      ensures match ServiceCheck(p)
              case Some(e) => r == Err(e) && events == old(events)
              case None =>
                match Rejection(old(events), info, members, p)
                case Some(e) => r == Err(e) && events == old(events)
                case None => r == Ok(Inserted(old(events), p)) && events == old(events) + [Inserted(old(events), p)]
    {
      var bad := ServiceCheck(p);
      if bad.Some? {
        return Err(bad.value);
      }
      if !info.live {
        return Err(MatchNotLive);
      }
      bad := ParticipantCheck(info, members, p);
      if bad.Some? {
        return Err(bad.value);
      }
      var log := LogOf(events, p.matchId);
      if IsLifecycle(p.kind) && HasKind(log, p.kind) {
        return Err(DuplicateLifecycleEvent);
      }
      bad := CorrectionCheck(events, p);
      if bad.Some? {
        return Err(bad.value);
      }
      var nextSeq := MaxSequence(log) + 1;
      var e := Event(p.newId, p.matchId, nextSeq, p.kind, p.team, p.player, p.payload, p.cancels);
      events := events + [e];
      r := Ok(e);
    }
  }

  // ---- when an event is recorded ----

  /** The named team plays in the match. */
  ghost predicate TeamPlays(info: MatchInfo, team: string) {
    info.homeTeam == Some(team) || info.awayTeam == Some(team)
  }

  /** The named player plays in the match: as one of its players, or else as a member of one of its teams; anybody may
      play in a match without participants. */
  ghost predicate PlayerPlays(info: MatchInfo, members: Membership, player: string) {
    if info.homePlayer != None || info.awayPlayer != None then info.homePlayer == Some(player) || info.awayPlayer == Some(player)
    else
      info.homeTeam != None || info.awayTeam != None ==> exists team :: TeamPlays(info, team) && (player, team) in members
  }

  ghost predicate ParticipantsFit(info: MatchInfo, members: Membership, p: NewEvent) {
    && (p.team.Some? ==> TeamPlays(info, p.team.value))
    && (p.player.Some? ==> PlayerPlays(info, members, p.player.value))
    && (p.team.Some? && p.player.Some? ==> (p.player.value, p.team.value) in members)
  }

  /** Event i can be cancelled by a correction of match m: it is of that match, no correction itself, and still stands. */
  ghost predicate Cancellable(events: seq<Event>, i: int, m: Uuid) {
    && 0 <= i < |events| && events[i].matchId == m && !events[i].kind.ScoreCorrection?
    && forall k | 0 <= k < |events| && events[k].matchId == m :: events[k].cancels != Some(events[i].id)
  }

  ghost predicate NamesCancellable(events: seq<Event>, m: Uuid, id: Uuid) {
    exists i :: 0 <= i < |events| && events[i].id == id && Cancellable(events, i, m)
  }

  lemma ParticipantsFitIff(info: MatchInfo, members: Membership, p: NewEvent)
    ensures ParticipantCheck(info, members, p).None? <==> ParticipantsFit(info, members, p)
    ensures ParticipantCheck(info, members, p) == Some(TeamNotParticipant) <==> p.team.Some? && !TeamPlays(info, p.team.value)
    ensures ParticipantCheck(info, members, p) == Some(PlayerNotParticipant) ==>
              p.player.Some? && !PlayerPlays(info, members, p.player.value)
    ensures ParticipantCheck(info, members, p) == Some(PlayerNotOnTeam) ==>
              p.team.Some? && p.player.Some? && (p.player.value, p.team.value) !in members
  {
    if p.player.Some? && info.homePlayer.None? && info.awayPlayer.None? && (info.homeTeam.Some? || info.awayTeam.Some?) {
      assert forall t | info.homeTeam == Some(t) :: TeamPlays(info, t);
      assert forall t | info.awayTeam == Some(t) :: TeamPlays(info, t);
      if info.homeTeam.Some? { assert TeamPlays(info, info.homeTeam.value); }
      if info.awayTeam.Some? { assert TeamPlays(info, info.awayTeam.value); }
    }
  }

  lemma CancelledIff(events: seq<Event>, m: Uuid, id: Uuid)
    ensures id in CancelledIds(LogOf(events, m)) <==>
              exists k :: 0 <= k < |events| && events[k].matchId == m && events[k].cancels == Some(id)
  {
    if id in CancelledIds(LogOf(events, m)) {
      var e :| e in LogOf(events, m) && e.cancels.Some? && e.cancels.value == id;
      LogMember(events, m, e);
      var k :| 0 <= k < |events| && events[k] == e;
      assert events[k].cancels == Some(id);
    }
    forall k | 0 <= k < |events| && events[k].matchId == m && events[k].cancels == Some(id)
      ensures id in CancelledIds(LogOf(events, m))
    {
      LogMember(events, m, events[k]);
    }
  }

  lemma CorrectionFitsIff(events: seq<Event>, p: NewEvent)
    requires forall i, j | 0 <= i < j < |events| :: events[i].id != events[j].id
    requires p.kind.ScoreCorrection? && p.cancels.Some?
    ensures CorrectionCheck(events, p).None? <==> NamesCancellable(events, p.matchId, p.cancels.value)
    ensures CorrectionCheck(events, p) == Some(CancelsEventNotFound) <==> forall i | 0 <= i < |events| :: events[i].id != p.cancels.value
    ensures CorrectionCheck(events, p) == Some(CancelsEventCrossMatch) <==>
              exists i :: 0 <= i < |events| && events[i].id == p.cancels.value && events[i].matchId != p.matchId
  {
    CancelledIff(events, p.matchId, p.cancels.value);
    var found := FindEvent(events, p.cancels.value);
    if found.Some? {
      var i :| 0 <= i < |events| && events[i] == found.value;
      assert forall j | 0 <= j < |events| && events[j].id == p.cancels.value :: j == i;
    }
  }

  ghost predicate KindRecorded(events: seq<Event>, m: Uuid, k: EventKind) {
    exists i :: 0 <= i < |events| && events[i].matchId == m && events[i].kind == k
  }

  lemma KindRecordedIff(events: seq<Event>, m: Uuid, k: EventKind)
    ensures HasKind(LogOf(events, m), k) <==> KindRecorded(events, m, k)
  {
    var log := LogOf(events, m);
    if HasKind(log, k) {
      var i :| 0 <= i < |log| && log[i].kind == k;
      LogMember(events, m, log[i]);
      var j :| 0 <= j < |events| && events[j] == log[i];
      assert events[j].kind == k;
    }
    if KindRecorded(events, m, k) {
      var i :| 0 <= i < |events| && events[i].matchId == m && events[i].kind == k;
      LogMember(events, m, events[i]);
    }
  }

  /** An event is recorded exactly for a live match, with participants of that match, the first of its kind if it starts
      or ends the match, and as a correction exactly when it names an event of the match that can be cancelled. */
  ghost predicate Recordable(events: seq<Event>, q: Request) {
    var p := q.event;
    && q.info.live && ParticipantsFit(q.info, q.members, p)
    && (p.kind == MatchStarted || p.kind == MatchEnded ==> !KindRecorded(events, p.matchId, p.kind))
    && if p.kind == ScoreCorrection then
         p.cancels.Some? && NamesCancellable(events, p.matchId, p.cancels.value)
       else p.cancels.None?
  }

  /** after is before and one event with the fields of the request, numbered next in its match. */
  ghost predicate Appends(before: seq<Event>, after: seq<Event>, p: NewEvent) {
    && |after| == |before| + 1 && after[..|before|] == before
    && var e := after[|before|];
       && e.id == p.newId && e.matchId == p.matchId && e.kind == p.kind && e.cancels == p.cancels
       && e.team == p.team && e.player == p.player && e.payload == p.payload
       && (forall i | 0 <= i < |before| && before[i].matchId == p.matchId :: before[i].sequenceNumber < e.sequenceNumber)
  }

  lemma RecordableIff(events: seq<Event>, q: Request)
    requires LogInvariant(events)
    ensures Recordable(events, q) <==> ServiceCheck(q.event).None? && Rejection(events, q.info, q.members, q.event).None?
  {
    var p := q.event;
    ParticipantsFitIff(q.info, q.members, p);
    KindRecordedIff(events, p.matchId, p.kind);
    if p.kind.ScoreCorrection? && p.cancels.Some? {
      forall i, j | 0 <= i < j < |events| ensures events[i].id != events[j].id {
        assert Compatible(events[i], events[j]);
      }
      CorrectionFitsIff(events, p);
    }
  }

  /** In every table that calls can reach, a request appends its event exactly when it is recordable, and else changes nothing. */
  lemma RecordedIff(events: seq<Event>, q: Request)
    requires LogInvariant(events)
    ensures if Recordable(events, q) then Appends(events, Recorded(events, q), q.event) else Recorded(events, q) == events
  {
    RecordableIff(events, q);
    AppendsInserted(events, q.event);
  }

  lemma AppendsInserted(events: seq<Event>, p: NewEvent)
    ensures Appends(events, events + [Inserted(events, p)], p)
  {
    forall i | 0 <= i < |events| && events[i].matchId == p.matchId
      ensures events[i].sequenceNumber <= MaxSequence(LogOf(events, p.matchId))
    {
      LogMember(events, p.matchId, events[i]);
      BelowMax(LogOf(events, p.matchId), events[i]);
    }
  }

  /** What the named error says about the request. */
  ghost predicate Breaks(events: seq<Event>, q: Request, e: EventError) {
    var p := q.event;
    match e
    case CancelsEventRequired => p.kind == ScoreCorrection && p.cancels == None
    case CancelsEventNotAllowed => p.kind != ScoreCorrection && p.cancels != None
    case MatchNotLive => !q.info.live
    case TeamNotParticipant => p.team.Some? && !TeamPlays(q.info, p.team.value)
    case PlayerNotParticipant => p.player.Some? && !PlayerPlays(q.info, q.members, p.player.value)
    case PlayerNotOnTeam => p.team.Some? && p.player.Some? && (p.player.value, p.team.value) !in q.members
    case DuplicateLifecycleEvent => (p.kind == MatchStarted || p.kind == MatchEnded) && KindRecorded(events, p.matchId, p.kind)
    case CancelsEventNotFound => p.cancels.Some? && forall i | 0 <= i < |events| :: events[i].id != p.cancels.value
    case CancelsEventCrossMatch =>
      p.cancels.Some? && exists i :: 0 <= i < |events| && events[i].id == p.cancels.value && events[i].matchId != p.matchId
    case CannotCancelCorrection =>
      p.cancels.Some? && exists i :: 0 <= i < |events| && events[i].id == p.cancels.value && events[i].kind == ScoreCorrection
    case EventAlreadyCancelled =>
      p.cancels.Some? && exists k :: 0 <= k < |events| && events[k].matchId == p.matchId && events[k].cancels == p.cancels
  }

  /** A refused request is told something that is true of it. */
  lemma RefusalNamesCause(events: seq<Event>, q: Request, e: EventError)
    requires ServiceCheck(q.event) == Some(e) || (ServiceCheck(q.event) == None && Rejection(events, q.info, q.members, q.event) == Some(e))
    ensures Breaks(events, q, e)
  {
    var p := q.event;
    ParticipantsFitIff(q.info, q.members, p);
    KindRecordedIff(events, p.matchId, p.kind);
    if p.cancels.Some? {
      CancelledIff(events, p.matchId, p.cancels.value);
      if HasId(events, p.cancels.value) {
        var target := FindEvent(events, p.cancels.value).value;
        var i :| 0 <= i < |events| && events[i] == target;
      }
    }
  }

  lemma {:induction false} BelowMax(log: seq<Event>, e: Event)
    requires e in log
    ensures e.sequenceNumber <= MaxSequence(log)
  {
    var last := log[|log|-1];
    if e != last {
      assert log == log[..|log|-1] + [last];
      BelowMax(log[..|log|-1], e);
    }
  }

  // ---- what every reachable log satisfies ----

  /** Event k is numbered after the earlier events of its match; only a correction cancels,
      and it cancels an earlier event of its match that is not a correction. */
  ghost predicate EventOk(events: seq<Event>, k: int)
    requires 0 <= k < |events|
  {
    var e := events[k];
    && e.sequenceNumber == |LogOf(events[..k], e.matchId)| + 1
    && (e.cancels.Some? <==> e.kind.ScoreCorrection?)
    && (e.cancels.Some? ==> Target(events, k, e.cancels.value))
  }

  ghost predicate Target(events: seq<Event>, k: int, id: Uuid)
    requires 0 <= k < |events|
  {
    exists j :: 0 <= j < k && events[j].id == id && events[j].matchId == events[k].matchId
                && !events[j].kind.ScoreCorrection?
  }

  ghost predicate Compatible(a: Event, b: Event) {
    && a.id != b.id
    && (a.cancels.Some? && b.cancels.Some? ==> a.cancels.value != b.cancels.value)
    && (a.matchId == b.matchId && IsLifecycle(a.kind) ==> a.kind != b.kind)
  }

  ghost predicate LogInvariant(events: seq<Event>) {
    && (forall k | 0 <= k < |events| :: EventOk(events, k))
    && (forall k, l | 0 <= k < l < |events| :: Compatible(events[k], events[l]))
  }

  lemma {:induction false} LogMember(events: seq<Event>, m: Uuid, e: Event)
    ensures e in LogOf(events, m) <==> e in events && e.matchId == m
  {
    if events != [] {
      LogMember(events[..|events|-1], m, e);
      assert events == events[..|events|-1] + [events[|events|-1]];
    }
  }

  /** The log of a match is its events, all of them, once each and in append order. */
  lemma {:induction false} LogIsSublist(events: seq<Event>, m: Uuid) returns (at: seq<nat>)
    ensures PicksAll(events, LogOf(events, m), at, (e: Event) => e.matchId == m)
  {
    at := [];
    if events != [] {
      var n := |events| - 1;
      at := LogIsSublist(events[..n], m);
      PicksGrow(events, LogOf(events[..n], m), at, (e: Event) => e.matchId == m);
      if events[n].matchId == m { at := at + [n]; }
    }
  }

  lemma {:induction false} MaxOfPositions(log: seq<Event>)
    requires forall i | 0 <= i < |log| :: log[i].sequenceNumber == i + 1
    ensures MaxSequence(log) == |log|
  {
    if log != [] { MaxOfPositions(log[..|log|-1]); }
  }

  /** The i-th event of a log has sequence number i + 1. */
  lemma {:induction false} SequenceIsPosition(events: seq<Event>, m: Uuid)
    requires LogInvariant(events)
    ensures forall i | 0 <= i < |LogOf(events, m)| :: LogOf(events, m)[i].sequenceNumber == i + 1
    ensures MaxSequence(LogOf(events, m)) == |LogOf(events, m)|
  {
    if events != [] {
      InvariantOfPrefix(events);
      SequenceIsPosition(events[..|events|-1], m);
      assert EventOk(events, |events| - 1);
    }
    MaxOfPositions(LogOf(events, m));
  }

  lemma InvariantOfPrefix(events: seq<Event>)
    requires LogInvariant(events) && events != []
    ensures LogInvariant(events[..|events|-1])
  {
    var before := events[..|events|-1];
    forall k | 0 <= k < |before| ensures EventOk(before, k) {
      assert EventOk(events, k) && before[..k] == events[..k];
      if events[k].cancels.Some? {
        var j :| 0 <= j < k && events[j].id == events[k].cancels.value && events[j].matchId == events[k].matchId
                 && !events[j].kind.ScoreCorrection?;
        assert before[j] == events[j];
      }
    }
  }

  /** Recording an event keeps the invariant. */
  lemma RecordKeepsInvariant(events: seq<Event>, info: MatchInfo, members: Membership, p: NewEvent)
    requires LogInvariant(events) && !HasId(events, p.newId)
    requires ServiceCheck(p) == None && Rejection(events, info, members, p) == None
    ensures LogInvariant(events + [Inserted(events, p)])
  {
    var e := Inserted(events, p);
    var events' := events + [e];
    SequenceIsPosition(events, p.matchId);
    forall k | 0 <= k < |events'| ensures EventOk(events', k) {
      OldEventStaysOk(events, e, k, p, info, members);
    }
    forall k, l | 0 <= k < l < |events'| ensures Compatible(events'[k], events'[l]) {
      if l == |events| {
        NewEventFits(events, info, members, p, k);
      } else {
        assert Compatible(events[k], events[l]);
      }
    }
  }

  lemma NewEventFits(events: seq<Event>, info: MatchInfo, members: Membership, p: NewEvent, k: nat)
    requires LogInvariant(events) && !HasId(events, p.newId) && k < |events|
    requires ServiceCheck(p) == None && Rejection(events, info, members, p) == None
    ensures Compatible(events[k], Inserted(events, p))
  {
    var a := events[k];
    LogMember(events, p.matchId, a);
    if a.cancels.Some? && p.cancels.Some? && a.cancels == p.cancels {
      assert EventOk(events, k);
      var j :| 0 <= j < k && events[j].id == a.cancels.value && events[j].matchId == a.matchId;
      var target := FindEvent(events, p.cancels.value).value;
      var i :| 0 <= i < |events| && events[i] == target;
      SameIdSameEvent(events, i, j);
    }
  }

  lemma SameIdSameEvent(events: seq<Event>, i: nat, j: nat)
    requires LogInvariant(events) && i < |events| && j < |events| && events[i].id == events[j].id
    ensures i == j
  {
  }

  lemma OldEventStaysOk(events: seq<Event>, e: Event, k: nat, p: NewEvent, info: MatchInfo, members: Membership)
    requires LogInvariant(events) && k <= |events| && e == Inserted(events, p)
    requires MaxSequence(LogOf(events, p.matchId)) == |LogOf(events, p.matchId)|
    requires ServiceCheck(p) == None && CorrectionCheck(events, p) == None
    ensures EventOk(events + [e], k)
  {
    var events' := events + [e];
    if k < |events| {
      assert EventOk(events, k) && events'[..k] == events[..k];
      if events[k].cancels.Some? {
        var j :| 0 <= j < k && events[j].id == events[k].cancels.value && events[j].matchId == events[k].matchId
                 && !events[j].kind.ScoreCorrection?;
        assert events'[j] == events[j];
      }
    } else {
      assert events'[..k] == events;
      if p.kind.ScoreCorrection? {
        var target := FindEvent(events, p.cancels.value).value;
        var j :| 0 <= j < |events| && events[j] == target;
        assert events'[j] == target;
      }
    }
  }

  // ---- runs ----

  /** One call to the service, with the row, the memberships and the id the insert will be given. */
  datatype Request = Request(info: MatchInfo, members: Membership, event: NewEvent)

  function Recorded(events: seq<Event>, q: Request): seq<Event> {
    if ServiceCheck(q.event).Some? || Rejection(events, q.info, q.members, q.event).Some? then events
    else events + [Inserted(events, q.event)]
  }

  function Run(requests: seq<Request>): seq<Event> {
    if requests == [] then [] else Recorded(Run(requests[..|requests|-1]), requests[|requests|-1])
  }

  /** Ids are never reused. */
  ghost predicate FreshIds(requests: seq<Request>) {
    forall i, j | 0 <= i < j < |requests| :: requests[i].event.newId != requests[j].event.newId
  }

  lemma {:induction false} RunIds(requests: seq<Request>, id: Uuid)
    requires HasId(Run(requests), id)
    ensures exists i :: 0 <= i < |requests| && requests[i].event.newId == id
  {
    var before, q := requests[..|requests|-1], requests[|requests|-1];
    if HasId(Run(before), id) {
      RunIds(before, id);
      var i :| 0 <= i < |before| && before[i].event.newId == id;
      assert requests[i].event.newId == id;
    }
  }

  lemma {:induction false} RunInvariant(requests: seq<Request>)
    requires FreshIds(requests)
    ensures LogInvariant(Run(requests))
  {
    if requests != [] {
      var before, q := requests[..|requests|-1], requests[|requests|-1];
      RunInvariant(before);
      if HasId(Run(before), q.event.newId) { RunIds(before, q.event.newId); }
      if Recorded(Run(before), q) != Run(before) {
        RecordKeepsInvariant(Run(before), q.info, q.members, q.event);
      }
    }
  }

  // ---- the effective timeline ----

  ghost function IsCorrection(): Event -> bool { (e: Event) => e.kind.ScoreCorrection? }

  ghost function IsCancelled(cancelled: set<Uuid>): Event -> bool { (e: Event) => e.id in cancelled }

  lemma {:induction false} SurvivingSize(log: seq<Event>, cancelled: set<Uuid>)
    ensures |Surviving(log, cancelled)| == |log| - Count(log, IsCancelled(cancelled))
  {
    if log != [] { SurvivingSize(log[..|log|-1], cancelled); }
  }

  /** No correction in the log cancels e. */
  ghost predicate Stands(log: seq<Event>, e: Event) {
    forall k | 0 <= k < |log| :: log[k].cancels != Some(e.id)
  }

  lemma {:induction false} SurvivorsAt(log: seq<Event>, cancelled: set<Uuid>) returns (at: seq<nat>)
    ensures PicksAll(log, Surviving(log, cancelled), at, (e: Event) => e.id !in cancelled)
  {
    at := [];
    if log != [] {
      var n := |log| - 1;
      at := SurvivorsAt(log[..n], cancelled);
      PicksGrow(log, Surviving(log[..n], cancelled), at, (e: Event) => e.id !in cancelled);
      if log[n].id !in cancelled { at := at + [n]; }
    }
  }

  lemma StandsIff(log: seq<Event>, e: Event)
    ensures Stands(log, e) <==> e.id !in CancelledIds(log)
  {
    if e.id in CancelledIds(log) {
      var c :| c in log && c.cancels.Some? && c.cancels.value == e.id;
      var k :| 0 <= k < |log| && log[k] == c;
      assert log[k].cancels == Some(e.id);
    }
    forall k | 0 <= k < |log| && log[k].cancels == Some(e.id) ensures e.id in CancelledIds(log) {
      assert log[k] in log;
    }
  }

  /** The effective timeline is exactly the events that no correction of the log cancels, corrections included,
      each once and in the order of the log. */
  lemma EffectiveIsUncancelled(log: seq<Event>) returns (at: seq<nat>)
    ensures Picks(log, Effective(log), at)
    ensures forall i | 0 <= i < |log| :: i in at <==> Stands(log, log[i])
    ensures forall e :: e in Effective(log) <==> e in log && Stands(log, e)
  {
    at := SurvivorsAt(log, CancelledIds(log));
    forall i | 0 <= i < |log| ensures i in at <==> Stands(log, log[i]) { StandsIff(log, log[i]); }
    forall e ensures e in Effective(log) <==> e in log && Stands(log, e) { PickedMembers(log, Effective(log), at, e); }
  }

  lemma PickedMembers(log: seq<Event>, to: seq<Event>, at: seq<nat>, e: Event)
    requires Picks(log, to, at) && forall i | 0 <= i < |log| :: i in at <==> Stands(log, log[i])
    ensures e in to <==> e in log && Stands(log, e)
  {
    if e in to {
      var k :| 0 <= k < |to| && to[k] == e;
      assert at[k] in at;
    }
    if e in log && Stands(log, e) {
      var i :| 0 <= i < |log| && log[i] == e;
      var k :| 0 <= k < |at| && at[k] == i;
      assert to[k] == e;
    }
  }

  /** What the invariant says about one match's log. */
  ghost predicate GoodLog(log: seq<Event>) {
    && (forall k, l | 0 <= k < l < |log| :: Compatible(log[k], log[l]) && log[k].matchId == log[l].matchId)
    && (forall k | 0 <= k < |log| :: log[k].cancels.Some? <==> log[k].kind.ScoreCorrection?)
    && (forall k | 0 <= k < |log| && log[k].cancels.Some? :: CancelsEarlier(log, k))
  }

  ghost predicate CancelsEarlier(log: seq<Event>, k: int)
    requires 0 <= k < |log|
  {
    log[k].cancels.Some?
    && exists j :: 0 <= j < k && log[j].id == log[k].cancels.value && !log[j].kind.ScoreCorrection?
  }

  lemma {:induction false} LogIsGood(events: seq<Event>, m: Uuid)
    requires LogInvariant(events)
    ensures GoodLog(LogOf(events, m))
  {
    if events != [] {
      var before, e := events[..|events|-1], events[|events|-1];
      InvariantOfPrefix(events);
      LogIsGood(before, m);
      if e.matchId == m {
        ExtendGood(events, m);
      } else {
        assert LogOf(events, m) == LogOf(before, m);
      }
    }
  }

  lemma ExtendGood(events: seq<Event>, m: Uuid)
    requires LogInvariant(events) && events != [] && events[|events|-1].matchId == m
    requires GoodLog(LogOf(events[..|events|-1], m))
    ensures GoodLog(LogOf(events, m))
  {
    var before, e, n := events[..|events|-1], events[|events|-1], |events| - 1;
    var prior, log := LogOf(before, m), LogOf(events, m);
    assert log == prior + [e] && EventOk(events, n);
    forall k | 0 <= k < |prior| ensures Compatible(log[k], e) && log[k].matchId == m {
      LogMember(before, m, prior[k]);
      var i :| 0 <= i < |before| && before[i] == prior[k];
      assert Compatible(events[i], events[n]);
    }
    forall k | 0 <= k < |log| && log[k].cancels.Some? ensures CancelsEarlier(log, k) {
      if k < |prior| {
        assert CancelsEarlier(prior, k);
        var j :| 0 <= j < k && prior[j].id == prior[k].cancels.value && !prior[j].kind.ScoreCorrection?;
        assert log[j] == prior[j];
      } else {
        TargetInLog(events, m);
      }
    }
  }

  lemma TargetInLog(events: seq<Event>, m: Uuid)
    requires LogInvariant(events) && events != []
    requires events[|events|-1].matchId == m && events[|events|-1].cancels.Some?
    ensures CancelsEarlier(LogOf(events, m), |LogOf(events, m)| - 1)
  {
    var n := |events| - 1;
    var prior := LogOf(events[..n], m);
    assert LogOf(events, m) == prior + [events[n]];
    assert EventOk(events, n);
    var j :| 0 <= j < n && events[j].id == events[n].cancels.value && events[j].matchId == m && !events[j].kind.ScoreCorrection?;
    assert events[..n][j] == events[j];
    LogMember(events[..n], m, events[j]);
    var i :| 0 <= i < |prior| && prior[i] == events[j];
    assert LogOf(events, m)[i] == prior[i];
  }

  /** Each correction removes one distinct event: effective length is raw length minus corrections. */
  lemma EffectiveLength(log: seq<Event>)
    requires GoodLog(log)
    ensures |Effective(log)| == |log| - Count(log, IsCorrection())
  {
    var cancelled := CancelledIds(log);
    SurvivingSize(log, cancelled);
    EachIdOnce(log, cancelled);
    EachCorrectionOnce(log, cancelled);
  }

  lemma EachIdOnce(log: seq<Event>, cancelled: set<Uuid>)
    requires GoodLog(log) && cancelled == CancelledIds(log)
    ensures Count(log, IsCancelled(cancelled)) == |cancelled|
  {
    var id := (e: Event) => e.id;
    forall k, l | 0 <= k < l < |log| ensures id(log[k]) != id(log[l]) { assert Compatible(log[k], log[l]); }
    forall y | y in cancelled ensures Hits(log, IsCancelled(cancelled), id, y) {
      var e :| e in log && e.cancels.Some? && e.cancels.value == y;
      var k :| 0 <= k < |log| && log[k] == e;
      assert CancelsEarlier(log, k);
    }
    CountIsSize(log, IsCancelled(cancelled), id, cancelled);
  }

  lemma EachCorrectionOnce(log: seq<Event>, cancelled: set<Uuid>)
    requires GoodLog(log) && cancelled == CancelledIds(log)
    ensures Count(log, IsCorrection()) == |cancelled|
  {
    var target := (e: Event) => if e.cancels.Some? then e.cancels.value else 0;
    forall k, l | 0 <= k < l < |log| && log[k].kind.ScoreCorrection? && log[l].kind.ScoreCorrection?
      ensures target(log[k]) != target(log[l])
    {
      assert Compatible(log[k], log[l]);
    }
    forall y | y in cancelled ensures Hits(log, IsCorrection(), target, y) {
      var e :| e in log && e.cancels.Some? && e.cancels.value == y;
      var k :| 0 <= k < |log| && log[k] == e;
      assert target(log[k]) == y;
    }
    CountIsSize(log, IsCorrection(), target, cancelled);
  }

  /** In every reachable table: numbers 1..k without gaps, the effective timeline as the uncancelled events in the order
      of their numbers, its length, and one start and one end at most. */
  lemma ReachableLogs(requests: seq<Request>, m: Uuid)
    requires FreshIds(requests)
    ensures var log := LogOf(Run(requests), m);
            && (forall e :: e in log <==> e in Run(requests) && e.matchId == m)
            && (forall i | 0 <= i < |log| :: log[i].sequenceNumber == i + 1)
            && |Effective(log)| == |log| - Count(log, IsCorrection())
            && (forall e :: e in Effective(log) <==> e in log && Stands(log, e))
            && (forall i, j | 0 <= i < j < |Effective(log)| :: Effective(log)[i].sequenceNumber < Effective(log)[j].sequenceNumber)
            && (forall i, j | 0 <= i < j < |log| && IsLifecycle(log[i].kind) :: log[i].kind != log[j].kind)
            && (forall i | 0 <= i < |log| && log[i].kind.ScoreCorrection? :: CancelsEarlier(log, i))
            && (forall i, j | 0 <= i < j < |log| && log[i].cancels.Some? :: log[i].cancels != log[j].cancels)
  {
    RunInvariant(requests);
    SequenceIsPosition(Run(requests), m);
    LogIsGood(Run(requests), m);
    var log := LogOf(Run(requests), m);
    EffectiveLength(log);
    var at := EffectiveIsUncancelled(log);
    forall e ensures e in log <==> e in Run(requests) && e.matchId == m { LogMember(Run(requests), m, e); }
    forall i, j | 0 <= i < j < |log|
      ensures (IsLifecycle(log[i].kind) ==> log[i].kind != log[j].kind) && (log[i].cancels.Some? ==> log[i].cancels != log[j].cancels)
    {
      assert Compatible(log[i], log[j]);
    }
  }
}
