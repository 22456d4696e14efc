// The email worker's claims, leases and retries (backend/internal/notifworker/worker.go,
// backend/db/sqlc/notifications.sql.go, lines 14-33 and 639-669).

module EmailLease {
  import opened FixtureModels
  import opened Counting

  type Id = int

  const MAX_ATTEMPTS: int := 3
  const BATCH_SIZE: int := 10

  /** Times are in seconds on one clock. */
  const LEASE: int := 300

  /** The delivery columns of an email notification. */
  datatype Note = Note(
    createdAt: int, attempts: int, sent: bool, failedPermanently: bool, lease: Option<int>, lastAttempt: Option<int>)

  type Notes = map<Id, Note>

  function NewNote(createdAt: int): Note {
    Note(createdAt, 0, false, false, None, None)
  }

  // ---- the three statements ----

  predicate Eligible(n: Note, now: int) {
    !n.sent && !n.failedPermanently && n.attempts < MAX_ATTEMPTS && (n.lease.None? || n.lease.value < now)
  }

  /** ORDER BY last_attempted_at ASC NULLS FIRST, created_at ASC. */
  predicate Older(a: Note, b: Note) {
    match (a.lastAttempt, b.lastAttempt)
    case (None, Some(_)) => true
    case (Some(_), None) => false
    case (None, None) => a.createdAt < b.createdAt
    case (Some(x), Some(y)) => x < y || (x == y && a.createdAt < b.createdAt)
  }

  function Claimed(n: Note, now: int): Note {
    n.(lastAttempt := Some(now), lease := Some(now + LEASE), attempts := n.attempts + 1)
  }

  function RetryDelay(attempt: int): int {
    if attempt == 1 then 60 else if attempt == 2 then 300 else 900
  }

  /** What recordFailure writes for a claim that carried this attempt number; the statement has no guard. */
  function Failed(n: Note, attempt: int, now: int): Note {
    if attempt >= MAX_ATTEMPTS then n.(failedPermanently := true, lease := None)
    else n.(failedPermanently := false, lease := Some(now + RetryDelay(attempt)))
  }

  function Sent(n: Note): Note {
    n.(sent := true)
  }

  /** A claimed row as the worker holds it: its id and the attempt number after the increment. */
  datatype Ticket = Ticket(id: Id, attempt: int)

  ghost predicate Candidate(notes: Notes, now: int, skipped: set<Id>, id: Id) {
    id in notes && id !in skipped && Eligible(notes[id], now)
  }

  ghost predicate Holds(batch: seq<Ticket>, id: Id) {
    exists k :: 0 <= k < |batch| && batch[k].id == id
  }

  /** Ticket k names a row that could be claimed, with its next attempt number. */
  ghost predicate Granted(notes: Notes, now: int, skipped: set<Id>, t: Ticket) {
    Candidate(notes, now, skipped, t.id) && t.attempt == notes[t.id].attempts + 1
  }

  /** Rows that can be claimed, each once, none passed over for a newer one. */
  ghost predicate OldestFirst(notes: Notes, now: int, skipped: set<Id>, batch: seq<Ticket>) {
    && |batch| <= BATCH_SIZE
    && (forall k | 0 <= k < |batch| :: Granted(notes, now, skipped, batch[k]))
    && (forall k, l | 0 <= k < l < |batch| :: batch[k].id != batch[l].id)
    && (forall id | Candidate(notes, now, skipped, id) && !Holds(batch, id) :: NotOlder(notes, id, batch))
  }

  ghost predicate NotOlder(notes: Notes, id: Id, batch: seq<Ticket>) {
    id in notes && forall k | 0 <= k < |batch| :: batch[k].id in notes ==> !Older(notes[id], notes[batch[k].id])
  }

  ghost predicate ClaimsRecorded(before: Notes, after: Notes, now: int, batch: seq<Ticket>) {
    && after.Keys == before.Keys
    && forall id | id in before :: after[id] == if Holds(batch, id) then Claimed(before[id], now) else before[id]
  }

  lemma EmptyOrInhabited(ids: set<Id>)
    ensures ids == {} || exists x :: x in ids
  {
    if forall x :: x !in ids {
      assert ids == {};
    }
  }

  ghost function Member(ids: set<Id>): (x: Id)
    requires ids != {}
    ensures x in ids
  {
    EmptyOrInhabited(ids);
    var x :| x in ids;
    x
  }

  lemma {:induction false} OldestExists(notes: Notes, ids: set<Id>, x: Id) returns (oldest: Id)
    requires x in ids && forall id | id in ids :: id in notes
    ensures oldest in ids && forall id | id in ids :: !Older(notes[id], notes[oldest])
    decreases |ids|
  {
    var rest := ids - {x};
    oldest := x;
    if rest != {} {
      var z := OldestExists(notes, rest, Member(rest));
      oldest := if Older(notes[x], notes[z]) then x else z;
      assert forall id | id in ids :: id == x || id in rest;
    } else {
      assert forall id | id in ids :: id == x || id in rest;
    }
  }

  /** Claiming the oldest remaining row extends the batch. */
  lemma ClaimOldest(notes: Notes, now: int, skipped: set<Id>, batch: seq<Ticket>, id: Id, after: Notes, batch': seq<Ticket>)
    requires OldestFirst(notes, now, skipped, batch) && |batch| < BATCH_SIZE
    requires Candidate(notes, now, skipped, id) && !Holds(batch, id)
    requires forall x | Candidate(notes, now, skipped, x) && !Holds(batch, x) :: !Older(notes[x], notes[id])
    requires ClaimsRecorded(notes, after, now, batch)
    requires batch' == batch + [Ticket(id, notes[id].attempts + 1)]
    ensures OldestFirst(notes, now, skipped, batch')
    ensures ClaimsRecorded(notes, after[id := Claimed(notes[id], now)], now, batch')
    ensures forall x :: Holds(batch', x) <==> Holds(batch, x) || x == id
  {
    forall x ensures Holds(batch', x) <==> Holds(batch, x) || x == id {
      if Holds(batch, x) {
        var k :| 0 <= k < |batch| && batch[k].id == x;
        assert batch'[k].id == x;
      }
      assert batch'[|batch|].id == id;
    }
    forall x | Candidate(notes, now, skipped, x) && !Holds(batch', x) ensures NotOlder(notes, x, batch') {
      assert NotOlder(notes, x, batch);
    }
  }

  class EmailQueue {
    var notes: Notes

    constructor ()
      ensures notes == map[]
    {
      notes := map[];
    }

    /** skipped are the rows other transactions hold locked.  The batch is the oldest rows that can be claimed. */
    method ClaimBatch(now: int, skipped: set<Id>) returns (batch: seq<Ticket>)
      modifies this
      ensures OldestFirst(old(notes), now, skipped, batch)
      ensures |batch| < BATCH_SIZE ==> forall id | Candidate(old(notes), now, skipped, id) :: Holds(batch, id)
      ensures ClaimsRecorded(old(notes), notes, now, batch)
    {
      var eligible := set id | id in notes && id !in skipped && Eligible(notes[id], now);
      batch := [];
      while |batch| < BATCH_SIZE && eligible != {}
        invariant OldestFirst(old(notes), now, skipped, batch)
        invariant ClaimsRecorded(old(notes), notes, now, batch)
        invariant forall id :: id in eligible <==> Candidate(old(notes), now, skipped, id) && !Holds(batch, id)
        decreases BATCH_SIZE - |batch|
      {
        ghost var first := OldestExists(old(notes), eligible, Member(eligible));
        assert forall id | id in eligible :: notes[id] == old(notes)[id];
        var id :| id in eligible && forall other | other in eligible :: !Older(notes[other], notes[id]);
        ghost var before, batch0 := notes, batch;
        notes := notes[id := Claimed(notes[id], now)];
        batch := batch + [Ticket(id, notes[id].attempts)];
        ClaimOldest(old(notes), now, skipped, batch0, id, before, batch);
        eligible := eligible - {id};
      }
    }

    /** UPDATE ... SET sent_at WHERE id = $1 AND sent_at IS NULL. */
    method RecordSuccess(id: Id)
      modifies this
      ensures notes == if id in old(notes) then old(notes)[id := Sent(old(notes)[id])] else old(notes)
    {
      if id in notes && !notes[id].sent {
        notes := notes[id := notes[id].(sent := true)];
      }
    }

    method RecordFailure(t: Ticket, now: int)
      modifies this
      ensures notes == if t.id in old(notes) then old(notes)[t.id := Failed(old(notes)[t.id], t.attempt, now)] else old(notes)
    {
      var permanent := t.attempt >= MAX_ATTEMPTS;
      var next: Option<int> := None;
      if !permanent {
        next := Some(now + RetryDelay(t.attempt));
      }
      if t.id in notes {
        notes := notes[t.id := notes[t.id].(failedPermanently := permanent, lease := next)];
      }
    }

    /** One delivery; the outcomes of the lookups, of the send, and of the recording itself are inputs. */
    method Deliver(t: Ticket, userFound: bool, organizationFound: bool, accepted: bool, recorded: bool, now: int)
      modifies this
      ensures var n := old(notes);
              if !recorded || t.id !in n then notes == n
              else if userFound && organizationFound && accepted then notes == n[t.id := Sent(n[t.id])]
              else notes == n[t.id := Failed(n[t.id], t.attempt, now)]
    {
      if !recorded {
        return;
      }
      if !userFound || !organizationFound || !accepted {
        RecordFailure(t, now);
        return;
      }
      RecordSuccess(t.id);
    }
  }

  // ---- what the statements write, column by column ----

  /** The row can be claimed: neither sent nor given up, attempts left, and no lease that still runs. */
  ghost predicate Claimable(n: Note, now: int) {
    !n.sent && !n.failedPermanently && n.attempts <= 2 && forall until | n.lease == Some(until) :: until < now
  }

  /** a was attempted before b, or as long ago and created no later; a row never attempted comes before all others. */
  ghost predicate NotAfter(a: Note, b: Note) {
    && (b.lastAttempt == None ==> a.lastAttempt == None)
    && (a.lastAttempt != None && b.lastAttempt != None ==> a.lastAttempt.value <= b.lastAttempt.value)
    && (a.lastAttempt == b.lastAttempt ==> a.createdAt <= b.createdAt)
  }

  /** Claiming counts the attempt, notes its time and takes the lease for five minutes. */
  ghost predicate IsClaimed(a: Note, b: Note, now: int) {
    && b.attempts == a.attempts + 1 && b.lastAttempt == Some(now) && b.lease == Some(now + 300)
    && b.createdAt == a.createdAt && b.sent == a.sent && b.failedPermanently == a.failedPermanently
  }

  /** Every claimed row could be claimed, and none that could be claimed and was not should have come before it; at most ten
      rows are claimed, and fewer only if no other could be. */
  lemma BatchRows(before: Notes, after: Notes, now: int, skipped: set<Id>, batch: seq<Ticket>, id: Id)
    requires OldestFirst(before, now, skipped, batch) && ClaimsRecorded(before, after, now, batch) && id in before
    requires |batch| < BATCH_SIZE ==> forall x | Candidate(before, now, skipped, x) :: Holds(batch, x)
    ensures after.Keys == before.Keys && |batch| <= 10
    ensures Holds(batch, id) ==> id !in skipped && Claimable(before[id], now) && IsClaimed(before[id], after[id], now)
    ensures !Holds(batch, id) ==> after[id] == before[id]
    ensures !Holds(batch, id) && id !in skipped && Claimable(before[id], now) ==>
              |batch| == 10 && forall k | 0 <= k < |batch| :: batch[k].id in before && NotAfter(before[batch[k].id], before[id])
    ensures forall k | 0 <= k < |batch| && batch[k].id == id :: batch[k].attempt == after[id].attempts
  {
    assert Candidate(before, now, skipped, id) <==> id !in skipped && Claimable(before[id], now);
    if Holds(batch, id) {
      var k :| 0 <= k < |batch| && batch[k].id == id;
      assert Granted(before, now, skipped, batch[k]);
    } else if Candidate(before, now, skipped, id) {
      assert NotOlder(before, id, batch);
      forall k | 0 <= k < |batch| ensures batch[k].id in before && NotAfter(before[batch[k].id], before[id]) {
        assert Granted(before, now, skipped, batch[k]);
      }
    }
  }

  /** A failure gives the third attempt up for good and leaves any other to a retry after one or five minutes; a delivery
      is noted as sent. */
  lemma ReportRows(n: Note, attempt: int, now: int)
    ensures var b := Failed(n, attempt, now);
            && b.createdAt == n.createdAt && b.attempts == n.attempts && b.sent == n.sent && b.lastAttempt == n.lastAttempt
            && (b.failedPermanently <==> attempt >= 3)
            && (attempt >= 3 ==> b.lease == None)
            && (attempt == 1 ==> b.lease == Some(now + 60)) && (attempt == 2 ==> b.lease == Some(now + 300))
    ensures var b := Sent(n);
            && b.sent && b.createdAt == n.createdAt && b.attempts == n.attempts && b.failedPermanently == n.failedPermanently
            && b.lease == n.lease && b.lastAttempt == n.lastAttempt
  {
  }

  // ---- runs ----

  /** How a claim ended, if it did: a crashed worker leaves it open for ever. */
  datatype Ending = Open | Delivered(at: int) | Refused(at: int)

  datatype Claim = Claim(id: Id, attempt: int, at: int, end: Ending)

  datatype State = State(notes: Notes, claims: seq<Claim>)

  /** A batch is a series of Take steps at one time; workers finish their claims in any order, at any time. */
  datatype Action =
    | Enqueue(id: Id, now: int)
    | Take(id: Id, now: int)
    | Succeed(claim: nat, now: int)
    | Fail(claim: nat, now: int)

  function Ended(s: State, c: nat, end: Ending, note: Note): State
    requires c < |s.claims|
  {
    State(s.notes[s.claims[c].id := note], s.claims[c := s.claims[c].(end := end)])
  }

  function Apply(s: State, a: Action): State {
    match a
    case Enqueue(id, now) => if id in s.notes then s else s.(notes := s.notes[id := NewNote(now)])
    case Take(id, now) =>
      if id in s.notes && Eligible(s.notes[id], now)
        then State(s.notes[id := Claimed(s.notes[id], now)], s.claims + [Claim(id, s.notes[id].attempts + 1, now, Open)])
      else s
    case Succeed(c, now) =>
      if c < |s.claims| && s.claims[c].end.Open? && s.claims[c].id in s.notes
        then Ended(s, c, Delivered(now), Sent(s.notes[s.claims[c].id]))
      else s
    case Fail(c, now) =>
      if c < |s.claims| && s.claims[c].end.Open? && s.claims[c].id in s.notes
        then Ended(s, c, Refused(now), Failed(s.notes[s.claims[c].id], s.claims[c].attempt, now))
      else s
  }

  function Run(actions: seq<Action>): State {
    if actions == [] then State(map[], []) else Apply(Run(actions[..|actions|-1]), actions[|actions|-1])
  }

  ghost function For(id: Id): Claim -> bool { (c: Claim) => c.id == id }

  // ---- claims are counted ----

  /** attempt_count is the number of claims, which carry the numbers 1, 2, ... in order. */
  ghost predicate Counted(s: State) {
    && (forall c | 0 <= c < |s.claims| :: s.claims[c].id in s.notes && NumberedAt(s.claims, c))
    && (forall id | id in s.notes :: CountedFor(s, id))
  }

  ghost predicate NumberedAt(claims: seq<Claim>, c: int)
    requires 0 <= c < |claims|
  {
    claims[c].attempt == Count(claims[..c], For(claims[c].id)) + 1
  }

  ghost predicate CountedFor(s: State, id: Id)
    requires id in s.notes
  {
    && s.notes[id].attempts == Count(s.claims, For(id)) <= MAX_ATTEMPTS
    && (s.notes[id].failedPermanently ==> s.notes[id].attempts == MAX_ATTEMPTS)
  }

  lemma {:induction false} CountPrefix(claims: seq<Claim>, k: nat, id: Id)
    requires k <= |claims|
    ensures Count(claims[..k], For(id)) <= Count(claims, For(id))
    ensures k < |claims| && claims[k].id == id ==> Count(claims[..k], For(id)) < Count(claims, For(id))
  {
    CountConcat(claims[..k], claims[k..], For(id));
    assert claims == claims[..k] + claims[k..];
    if k < |claims| && claims[k].id == id {
      CountConcat([claims[k]], claims[k+1..], For(id));
      assert claims[k..] == [claims[k]] + claims[k+1..];
      CountSnoc([], claims[k], For(id));
      assert [] + [claims[k]] == [claims[k]];
    }
  }

  /** Ending a claim does not change whose it is. */
  lemma EndKeepsCounts(claims: seq<Claim>, c: nat, end: Ending, k: nat, id: Id)
    requires c < |claims| && k <= |claims|
    ensures Count(claims[c := claims[c].(end := end)][..k], For(id)) == Count(claims[..k], For(id))
  {
    CountSame(claims[c := claims[c].(end := end)][..k], claims[..k], For(id), For(id));
  }

  lemma EndedIsNumbered(claims: seq<Claim>, c: nat, end: Ending, k: nat)
    requires c < |claims| && k < |claims| && NumberedAt(claims, k)
    ensures NumberedAt(claims[c := claims[c].(end := end)], k)
  {
    EndKeepsCounts(claims, c, end, k, claims[k].id);
  }

  lemma EndedIsCounted(s: State, c: nat, end: Ending, note: Note, id: Id)
    requires Counted(s) && c < |s.claims| && id in s.notes
    requires note.attempts == s.notes[s.claims[c].id].attempts
    requires note.failedPermanently ==> s.notes[s.claims[c].id].failedPermanently || s.claims[c].attempt >= MAX_ATTEMPTS
    ensures CountedFor(Ended(s, c, end, note), id)
  {
    assert CountedFor(s, id);
    EndCounts(s.claims, c, end, id);
    if id == s.claims[c].id { AttemptIsCounted(s, c); }
  }

  lemma AttemptIsCounted(s: State, c: nat)
    requires Counted(s) && c < |s.claims|
    ensures s.claims[c].attempt <= s.notes[s.claims[c].id].attempts
  {
    assert CountedFor(s, s.claims[c].id) && NumberedAt(s.claims, c);
    CountPrefix(s.claims, c, s.claims[c].id);
  }

  lemma EndStaysCounted(s: State, c: nat, end: Ending, note: Note)
    requires Counted(s) && c < |s.claims|
    requires note.attempts == s.notes[s.claims[c].id].attempts
    requires note.failedPermanently ==> s.notes[s.claims[c].id].failedPermanently || s.claims[c].attempt >= MAX_ATTEMPTS
    ensures Counted(Ended(s, c, end, note))
  {
    var after := Ended(s, c, end, note);
    forall k | 0 <= k < |after.claims| ensures after.claims[k].id in after.notes && NumberedAt(after.claims, k) {
      assert NumberedAt(s.claims, k);
      EndedIsNumbered(s.claims, c, end, k);
    }
    forall id | id in after.notes ensures CountedFor(after, id) { EndedIsCounted(s, c, end, note, id); }
  }

  lemma TakeStaysCounted(s: State, id: Id, now: int)
    requires Counted(s) && id in s.notes && Eligible(s.notes[id], now)
    ensures Counted(Apply(s, Take(id, now)))
  {
    var after, c := Apply(s, Take(id, now)), Claim(id, s.notes[id].attempts + 1, now, Open);
    forall k | 0 <= k < |after.claims| ensures after.claims[k].id in after.notes && NumberedAt(after.claims, k) {
      TakenIsNumbered(s, c, k);
    }
    forall x | x in after.notes ensures CountedFor(after, x) { TakenIsCounted(s, id, now, x); }
  }

  lemma TakenIsCounted(s: State, id: Id, now: int, x: Id)
    requires Counted(s) && id in s.notes && Eligible(s.notes[id], now) && x in s.notes
    ensures CountedFor(Apply(s, Take(id, now)), x)
  {
    assert CountedFor(s, x);
    CountSnoc(s.claims, Claim(id, s.notes[id].attempts + 1, now, Open), For(x));
  }

  lemma TakenIsNumbered(s: State, c: Claim, k: nat)
    requires Counted(s) && c.id in s.notes && c.attempt == s.notes[c.id].attempts + 1 && k <= |s.claims|
    ensures (s.claims + [c])[k].id in s.notes && NumberedAt(s.claims + [c], k)
  {
    var claims := s.claims + [c];
    if k < |s.claims| {
      assert NumberedAt(s.claims, k) && claims[..k] == s.claims[..k];
    } else {
      assert CountedFor(s, c.id) && claims[..k] == s.claims;
    }
  }

  lemma EnqueueStaysCounted(s: State, id: Id, now: int)
    requires Counted(s)
    ensures Counted(Apply(s, Enqueue(id, now)))
  {
    var after := Apply(s, Enqueue(id, now));
    if id !in s.notes {
      CountNone(s.claims, For(id));
      forall x | x in after.notes ensures CountedFor(after, x) {
        if x != id { assert CountedFor(s, x); }
      }
    }
  }

  lemma StepStaysCounted(s: State, a: Action)
    requires Counted(s)
    ensures Counted(Apply(s, a))
  {
    match a {
      case Enqueue(id, now) => EnqueueStaysCounted(s, id, now);
      case Take(id, now) => if id in s.notes && Eligible(s.notes[id], now) { TakeStaysCounted(s, id, now); }
      case Succeed(c, now) =>
        if c < |s.claims| && s.claims[c].end.Open? { EndStaysCounted(s, c, Delivered(now), Sent(s.notes[s.claims[c].id])); }
      case Fail(c, now) =>
        if c < |s.claims| && s.claims[c].end.Open? {
          EndStaysCounted(s, c, Refused(now), Failed(s.notes[s.claims[c].id], s.claims[c].attempt, now));
        }
    }
  }

  lemma {:induction false} RunIsCounted(actions: seq<Action>)
    ensures Counted(Run(actions))
  {
    if actions != [] {
      RunIsCounted(actions[..|actions|-1]);
      StepStaysCounted(Run(actions[..|actions|-1]), actions[|actions|-1]);
    }
  }

  /** Whatever the workers do, no notification is claimed more than three times. */
  lemma AtMostThreeClaims(actions: seq<Action>, id: Id)
    ensures Count(Run(actions).claims, For(id)) <= MAX_ATTEMPTS
  {
    RunIsCounted(actions);
    if id in Run(actions).notes {
      assert CountedFor(Run(actions), id);
    } else {
      CountNone(Run(actions).claims, For(id));
    }
  }

  /** Sent, or out of attempts; a permanent failure is one of these. */
  ghost predicate Finished(s: State, id: Id) {
    id in s.notes && (s.notes[id].sent || s.notes[id].failedPermanently || s.notes[id].attempts == MAX_ATTEMPTS)
  }

  lemma EndCounts(claims: seq<Claim>, c: nat, end: Ending, id: Id)
    requires c < |claims|
    ensures Count(claims[c := claims[c].(end := end)], For(id)) == Count(claims, For(id))
  {
    var after := claims[c := claims[c].(end := end)];
    EndKeepsCounts(claims, c, end, |claims|, id);
    assert after[..|claims|] == after && claims[..|claims|] == claims;
  }

  lemma EndKeepsFinished(s: State, c: nat, end: Ending, note: Note, id: Id)
    requires Counted(s) && Finished(s, id) && c < |s.claims|
    requires note.attempts == s.notes[s.claims[c].id].attempts && (s.notes[s.claims[c].id].sent ==> note.sent)
    ensures Finished(Ended(s, c, end, note), id)
    ensures Count(Ended(s, c, end, note).claims, For(id)) == Count(s.claims, For(id))
    ensures s.notes[id].sent ==> Ended(s, c, end, note).notes[id].sent
  {
    assert CountedFor(s, id);
    EndCounts(s.claims, c, end, id);
  }

  lemma FinishedStays(s: State, a: Action, id: Id)
    requires Counted(s) && Finished(s, id)
    ensures Finished(Apply(s, a), id)
    ensures Count(Apply(s, a).claims, For(id)) == Count(s.claims, For(id))
    ensures s.notes[id].sent ==> Apply(s, a).notes[id].sent
  {
    match a {
      case Enqueue(_, _) =>
      case Take(x, now) =>
        assert CountedFor(s, id);
        if x in s.notes && Eligible(s.notes[x], now) {
          CountSnoc(s.claims, Claim(x, s.notes[x].attempts + 1, now, Open), For(id));
        }
      case Succeed(c, now) =>
        if c < |s.claims| { EndKeepsFinished(s, c, Delivered(now), Sent(s.notes[s.claims[c].id]), id); }
      case Fail(c, now) =>
        if c < |s.claims| {
          EndKeepsFinished(s, c, Refused(now), Failed(s.notes[s.claims[c].id], s.claims[c].attempt, now), id);
        }
    }
  }

  /** Once a notification is sent, or has failed permanently, it is never claimed again. */
  lemma {:induction false} NoClaimAfterTheEnd(actions: seq<Action>, i: nat, id: Id)
    requires i <= |actions| && Finished(Run(actions[..i]), id)
    ensures Finished(Run(actions), id)
    ensures Count(Run(actions).claims, For(id)) == Count(Run(actions[..i]).claims, For(id))
    ensures Run(actions[..i]).notes[id].sent ==> Run(actions).notes[id].sent
    decreases |actions|
  {
    if i == |actions| {
      assert actions[..i] == actions;
    } else {
      var before := actions[..|actions|-1];
      assert before[..i] == actions[..i];
      NoClaimAfterTheEnd(before, i, id);
      RunIsCounted(before);
      FinishedStays(Run(before), actions[|actions|-1], id);
    }
  }

  /** Claiming the first k tickets of a batch one by one. */
  ghost function TakeAll(s: State, batch: seq<Ticket>, now: int, k: nat): State
    requires k <= |batch|
  {
    if k == 0 then s else Apply(TakeAll(s, batch, now, k - 1), Take(batch[k - 1].id, now))
  }

  ghost function OpenClaims(batch: seq<Ticket>, now: int): seq<Claim> {
    seq(|batch|, k requires 0 <= k < |batch| => Claim(batch[k].id, batch[k].attempt, now, Open))
  }

  lemma OneMoreTake(notes: Notes, before: State, batch: seq<Ticket>, now: int, skipped: set<Id>, k: nat)
    requires OldestFirst(notes, now, skipped, batch) && 0 < k <= |batch|
    requires ClaimsRecorded(notes, before.notes, now, batch[..k-1])
    ensures ClaimsRecorded(notes, Apply(before, Take(batch[k - 1].id, now)).notes, now, batch[..k])
    ensures Apply(before, Take(batch[k - 1].id, now)).claims
            == before.claims + [Claim(batch[k - 1].id, batch[k - 1].attempt, now, Open)]
  {
  }

  /** The batch statement does what its rows' Take steps do. */
  lemma {:induction false} BatchIsTakes(s: State, batch: seq<Ticket>, now: int, skipped: set<Id>, k: nat)
    requires OldestFirst(s.notes, now, skipped, batch) && k <= |batch|
    ensures ClaimsRecorded(s.notes, TakeAll(s, batch, now, k).notes, now, batch[..k])
    ensures TakeAll(s, batch, now, k).claims == s.claims + OpenClaims(batch[..k], now)
  {
    if k > 0 {
      BatchIsTakes(s, batch, now, skipped, k - 1);
      OneMoreTake(s.notes, TakeAll(s, batch, now, k - 1), batch, now, skipped, k);
    }
  }

  // ---- leases ----

  /** Whoever claims, finishes within the lease or never. */
  ghost predicate Timely(claims: seq<Claim>) {
    forall c | 0 <= c < |claims| :: InTime(claims[c])
  }

  ghost predicate InTime(c: Claim) {
    match c.end
    case Open => true
    case Delivered(t) => t <= c.at + LEASE
    case Refused(t) => t <= c.at + LEASE
  }

  /** When b follows a on one row: a was not delivered; if it was left open its lease had run out,
      and if it failed it was not the last attempt and its retry delay had passed. */
  ghost predicate Apart(a: Claim, b: Claim) {
    match a.end
    case Open => b.at > a.at + LEASE
    case Delivered(t) => false
    case Refused(t) => a.attempt < MAX_ATTEMPTS && b.at > t + RetryDelay(a.attempt)
  }

  /** What the row of a claim's notification says while that claim is the latest. */
  ghost predicate Reflects(n: Note, c: Claim) {
    && n.attempts == c.attempt
    && match c.end
       case Open => !n.sent && !n.failedPermanently && n.lease == Some(c.at + LEASE)
       case Delivered(t) => n.sent
       case Refused(t) =>
         if c.attempt >= MAX_ATTEMPTS then n.failedPermanently
         else !n.sent && !n.failedPermanently && n.lease == Some(t + RetryDelay(c.attempt))
  }

  ghost predicate IsLatest(claims: seq<Claim>, c: int)
    requires 0 <= c < |claims|
  {
    forall k | c < k < |claims| :: claims[k].id != claims[c].id
  }

  ghost predicate Leased(s: State, now: int) {
    && (forall c | 0 <= c < |s.claims| :: s.claims[c].id in s.notes && s.claims[c].at <= now)
    && (forall c | 0 <= c < |s.claims| && IsLatest(s.claims, c) :: Reflects(s.notes[s.claims[c].id], s.claims[c]))
    && (forall i, j | 0 <= i < j < |s.claims| && s.claims[i].id == s.claims[j].id :: Apart(s.claims[i], s.claims[j]))
  }

  /** A claim still open at a timely finish is the latest on its row. */
  lemma OpenIsLatest(s: State, now: int, c: nat)
    requires Leased(s, now) && c < |s.claims| && s.claims[c].end.Open? && now <= s.claims[c].at + LEASE
    ensures IsLatest(s.claims, c)
  {
  }

  lemma EndKeepsLeases(s: State, now: int, c: nat, end: Ending, note: Note)
    requires Leased(s, now) && c < |s.claims| && IsLatest(s.claims, c)
    requires Reflects(note, s.claims[c].(end := end))
    ensures Leased(Ended(s, c, end, note), now)
  {
    var after := Ended(s, c, end, note);
    forall k | 0 <= k < |after.claims| && IsLatest(after.claims, k) ensures Reflects(after.notes[after.claims[k].id], after.claims[k]) {
      forall l | k < l < |s.claims| ensures s.claims[l].id != s.claims[k].id {
        assert after.claims[l].id != after.claims[k].id;
      }
      assert IsLatest(s.claims, k);
      if k < c { assert s.claims[c].id != s.claims[k].id; }
      if c < k { assert s.claims[k].id != s.claims[c].id; }
    }
    forall i, j | 0 <= i < j < |after.claims| && after.claims[i].id == after.claims[j].id
      ensures Apart(after.claims[i], after.claims[j])
    {
      assert i != c && Apart(s.claims[i], s.claims[j]);
    }
  }

  /** The row before a claim says its predecessors' time is up. */
  lemma TakeIsApart(s: State, now: int, id: Id, c: nat)
    requires Leased(s, now) && Counted(s) && id in s.notes && Eligible(s.notes[id], now)
    requires c < |s.claims| && s.claims[c].id == id
    ensures Apart(s.claims[c], Claim(id, s.notes[id].attempts + 1, now, Open))
  {
    var l := LatestOf(s.claims, id, c);
    assert Reflects(s.notes[id], s.claims[l]);
    assert l != c ==> Apart(s.claims[c], s.claims[l]);
    assert s.claims[l].at <= now;
  }

  lemma {:induction false} LatestOf(claims: seq<Claim>, id: Id, c: nat) returns (l: nat)
    requires c < |claims| && claims[c].id == id
    ensures c <= l < |claims| && claims[l].id == id && IsLatest(claims, l)
    decreases |claims| - c
  {
    l := c;
    if !IsLatest(claims, c) {
      var k :| c < k < |claims| && claims[k].id == id;
      l := LatestOf(claims, id, k);
    }
  }

  lemma TakeKeepsLeases(s: State, now: int, id: Id)
    requires Leased(s, now) && Counted(s) && id in s.notes && Eligible(s.notes[id], now)
    ensures Leased(Apply(s, Take(id, now)), now)
  {
    var after, n := Apply(s, Take(id, now)), |s.claims|;
    forall k | 0 <= k < |after.claims| && IsLatest(after.claims, k) ensures Reflects(after.notes[after.claims[k].id], after.claims[k]) {
      if k < n {
        assert after.claims[n].id != after.claims[k].id;
        forall l | k < l < n ensures s.claims[l].id != s.claims[k].id {
          assert after.claims[l].id != after.claims[k].id;
        }
        assert IsLatest(s.claims, k);
      }
    }
    forall i, j | 0 <= i < j < |after.claims| && after.claims[i].id == after.claims[j].id
      ensures Apart(after.claims[i], after.claims[j])
    {
      if j < n {
        assert Apart(s.claims[i], s.claims[j]);
      } else {
        TakeIsApart(s, now, id, i);
      }
    }
  }

  ghost predicate Monotone(actions: seq<Action>) {
    forall i, j | 0 <= i < j < |actions| :: actions[i].now <= actions[j].now
  }

  ghost function Clock(actions: seq<Action>): int {
    if actions == [] then 0 else actions[|actions|-1].now
  }

  lemma StepKeepsLeases(s: State, a: Action)
    requires Leased(s, a.now) && Counted(s) && Timely(Apply(s, a).claims)
    ensures Leased(Apply(s, a), a.now)
  {
    match a {
      case Enqueue(id, now) =>
      case Take(id, now) => if id in s.notes && Eligible(s.notes[id], now) { TakeKeepsLeases(s, now, id); }
      case Succeed(c, now) =>
        if c < |s.claims| && s.claims[c].end.Open? { FinishKeepsLeases(s, now, c, Delivered(now), Sent(s.notes[s.claims[c].id])); }
      case Fail(c, now) =>
        if c < |s.claims| && s.claims[c].end.Open? {
          FinishKeepsLeases(s, now, c, Refused(now), Failed(s.notes[s.claims[c].id], s.claims[c].attempt, now));
        }
    }
  }

  lemma FinishKeepsLeases(s: State, now: int, c: nat, end: Ending, note: Note)
    requires Leased(s, now) && c < |s.claims| && s.claims[c].end.Open? && Timely(Ended(s, c, end, note).claims)
    requires (end == Delivered(now) && note == Sent(s.notes[s.claims[c].id]))
             || (end == Refused(now) && note == Failed(s.notes[s.claims[c].id], s.claims[c].attempt, now))
    ensures Leased(Ended(s, c, end, note), now)
  {
    assert InTime(Ended(s, c, end, note).claims[c]);
    OpenIsLatest(s, now, c);
    assert Reflects(s.notes[s.claims[c].id], s.claims[c]);
    EndKeepsLeases(s, now, c, end, note);
  }

  /** A claim that ended in time had ended in time in every earlier state where it had ended. */
  lemma TimelyBefore(s: State, a: Action)
    requires Timely(Apply(s, a).claims)
    ensures Timely(s.claims)
  {
    forall c | 0 <= c < |s.claims| ensures InTime(s.claims[c]) {
      assert InTime(Apply(s, a).claims[c]);
    }
  }

  lemma {:induction false} RunIsLeased(actions: seq<Action>)
    requires Monotone(actions) && Timely(Run(actions).claims)
    ensures Leased(Run(actions), Clock(actions))
  {
    if actions != [] {
      var before, a := actions[..|actions|-1], actions[|actions|-1];
      TimelyBefore(Run(before), a);
      RunIsLeased(before);
      RunIsCounted(before);
      if before != [] {
        assert before[|before|-1] == actions[|actions|-2];
      }
      StepKeepsLeases(Run(before), a);
    }
  }

  /** If every worker that finishes does so within its lease, no row is ever held by two workers, a delivered
      row is never claimed again, and a retry waits out the delay of the failure before it. */
  lemma LeaseIsExclusive(actions: seq<Action>, i: nat, j: nat)
    requires Monotone(actions) && Timely(Run(actions).claims)
    requires i < j < |Run(actions).claims| && Run(actions).claims[i].id == Run(actions).claims[j].id
    ensures Apart(Run(actions).claims[i], Run(actions).claims[j])
    ensures Run(actions).claims[i].attempt < Run(actions).claims[j].attempt <= MAX_ATTEMPTS
  {
    RunIsLeased(actions);
    RunIsCounted(actions);
    AttemptsDiffer(Run(actions), i, j);
  }

  // ---- permanent failures ----

  /** A report of an earlier attempt: it takes the permanent failure back. */
  ghost predicate Undoes(s: State, a: Action, id: Id) {
    && a.Fail? && a.claim < |s.claims| && s.claims[a.claim].end.Open?
    && s.claims[a.claim].id == id && s.claims[a.claim].attempt < MAX_ATTEMPTS
  }

  /** The last attempt was made and has been reported, so nothing can fail the row permanently again. */
  ghost predicate Spent(s: State, id: Id) {
    && id in s.notes && s.notes[id].attempts == MAX_ATTEMPTS
    && forall c | 0 <= c < |s.claims| && s.claims[c].id == id && s.claims[c].attempt >= MAX_ATTEMPTS :: !s.claims[c].end.Open?
  }

  /** No two claims of one row carry the same number. */
  lemma AttemptsDiffer(s: State, i: nat, j: nat)
    requires Counted(s) && i < j < |s.claims| && s.claims[i].id == s.claims[j].id
    ensures s.claims[i].attempt < s.claims[j].attempt <= MAX_ATTEMPTS
  {
    var a, b := s.claims[i], s.claims[j];
    assert NumberedAt(s.claims, i) && NumberedAt(s.claims, j) && CountedFor(s, a.id);
    CountPrefix(s.claims[..j], i, a.id);
    assert s.claims[..j][..i] == s.claims[..i];
    CountPrefix(s.claims, j, a.id);
  }

  lemma ReportSpends(s: State, c: nat, now: int)
    requires Counted(s) && c < |s.claims| && s.claims[c].end.Open? && s.claims[c].attempt >= MAX_ATTEMPTS
    ensures Spent(Apply(s, Fail(c, now)), s.claims[c].id)
  {
    var id := s.claims[c].id;
    assert CountedFor(s, id) && NumberedAt(s.claims, c);
    CountPrefix(s.claims, c, id);
    forall k | 0 <= k < |s.claims| && k != c && s.claims[k].id == id ensures s.claims[k].attempt < MAX_ATTEMPTS {
      if k < c { AttemptsDiffer(s, k, c); } else { AttemptsDiffer(s, c, k); }
    }
  }

  lemma SpentStays(s: State, a: Action, id: Id)
    requires Counted(s) && Spent(s, id)
    ensures Spent(Apply(s, a), id)
    ensures Apply(s, a).notes[id].failedPermanently <==> s.notes[id].failedPermanently && !Undoes(s, a, id)
  {
  }

  lemma FlagSpends(s: State, a: Action, id: Id)
    requires Counted(s) && (id in s.notes && s.notes[id].failedPermanently ==> Spent(s, id))
    requires id in Apply(s, a).notes && Apply(s, a).notes[id].failedPermanently
    ensures Spent(Apply(s, a), id)
  {
    if id in s.notes && s.notes[id].failedPermanently {
      SpentStays(s, a, id);
    } else {
      ReportSpends(s, a.claim, a.now);
    }
  }

  /** In every run, a permanently failed row has been given its last attempt, and that one was reported. */
  lemma {:induction false} FailedIsSpent(actions: seq<Action>, id: Id)
    requires id in Run(actions).notes && Run(actions).notes[id].failedPermanently
    ensures Spent(Run(actions), id)
  {
    var before := actions[..|actions|-1];
    if id in Run(before).notes && Run(before).notes[id].failedPermanently { FailedIsSpent(before, id); }
    RunIsCounted(before);
    FlagSpends(Run(before), actions[|actions|-1], id);
  }

  ghost predicate NoneUndoes(actions: seq<Action>, i: nat, id: Id) {
    forall k | i <= k < |actions| :: !Undoes(Run(actions[..k]), actions[k], id)
  }

  lemma NoneUndoesPrefix(actions: seq<Action>, i: nat, id: Id)
    requires i < |actions|
    ensures NoneUndoes(actions, i, id) <==>
              NoneUndoes(actions[..|actions|-1], i, id) && !Undoes(Run(actions[..|actions|-1]), actions[|actions|-1], id)
  {
    var before := actions[..|actions|-1];
    forall k | i <= k < |before| ensures Undoes(Run(before[..k]), before[k], id) <==> Undoes(Run(actions[..k]), actions[k], id) {
      assert before[..k] == actions[..k];
    }
    if NoneUndoes(before, i, id) && !Undoes(Run(before), actions[|actions|-1], id) {
      forall k | i <= k < |actions| ensures !Undoes(Run(actions[..k]), actions[k], id) {
        if k < |before| { assert !Undoes(Run(before[..k]), before[k], id); }
      }
    }
    if NoneUndoes(actions, i, id) {
      forall k | i <= k < |before| ensures !Undoes(Run(before[..k]), before[k], id) {
        assert !Undoes(Run(actions[..k]), actions[k], id);
      }
    }
  }

  /** A permanent failure is permanent exactly as long as no earlier attempt of the row reports its failure
      afterwards; the clocks and leases of the workers do not matter. */
  lemma {:induction false} DeadLetterStaysIff(actions: seq<Action>, i: nat, id: Id)
    requires i <= |actions| && id in Run(actions[..i]).notes && Run(actions[..i]).notes[id].failedPermanently
    ensures Spent(Run(actions), id)
    ensures Run(actions).notes[id].failedPermanently <==> NoneUndoes(actions, i, id)
    decreases |actions|
  {
    if i == |actions| {
      assert actions[..i] == actions;
      FailedIsSpent(actions, id);
    } else {
      var before, a := actions[..|actions|-1], actions[|actions|-1];
      assert before[..i] == actions[..i];
      DeadLetterStaysIff(before, i, id);
      RunIsCounted(before);
      SpentStays(Run(before), a, id);
      NoneUndoesPrefix(actions, i, id);
    }
  }

  /** With timely workers nothing is reported after the last attempt, so a permanent failure stays. */
  lemma DeadLettersStay(actions: seq<Action>, i: nat, id: Id)
    requires i <= |actions| && Monotone(actions) && Timely(Run(actions).claims)
    requires id in Run(actions[..i]).notes && Run(actions[..i]).notes[id].failedPermanently
    ensures id in Run(actions).notes && Run(actions).notes[id].failedPermanently
  {
    DeadLetterStaysIff(actions, i, id);
    if !NoneUndoes(actions, i, id) {
      var k :| i <= k < |actions| && Undoes(Run(actions[..k]), actions[k], id);
      TimelyAt(actions, k);
      SpentAt(actions, i, k, id);
      TimelyHasNoUndo(Run(actions[..k]), actions[k], id);
    }
  }

  lemma SpentAt(actions: seq<Action>, i: nat, k: nat, id: Id)
    requires i <= k <= |actions| && id in Run(actions[..i]).notes && Run(actions[..i]).notes[id].failedPermanently
    ensures Spent(Run(actions[..k]), id)
  {
    assert actions[..k][..i] == actions[..i];
    DeadLetterStaysIff(actions[..k], i, id);
  }

  /** Every step of a timely run was taken in a state with its leases in order. */
  lemma {:induction false} TimelyAt(actions: seq<Action>, k: nat)
    requires k < |actions| && Monotone(actions) && Timely(Run(actions).claims)
    ensures Timely(Run(actions[..k]).claims) && Timely(Apply(Run(actions[..k]), actions[k]).claims)
    ensures Leased(Run(actions[..k]), actions[k].now) && Counted(Run(actions[..k]))
    decreases |actions|
  {
    var before := actions[..|actions|-1];
    TimelyBefore(Run(before), actions[|actions|-1]);
    if k < |before| {
      TimelyAt(before, k);
      assert before[..k] == actions[..k];
    } else {
      assert before == actions[..k];
      RunIsLeased(before);
      RunIsCounted(before);
      LaterIsLeased(Run(before), Clock(before), actions[k].now, k);
    }
  }

  lemma LaterIsLeased(s: State, t: int, now: int, k: nat)
    requires Leased(s, t) && (t <= now || |s.claims| == 0)
    ensures Leased(s, now)
  {
  }

  lemma TimelyHasNoUndo(s: State, a: Action, id: Id)
    requires Leased(s, a.now) && Counted(s) && Timely(Apply(s, a).claims) && Spent(s, id)
    ensures !Undoes(s, a, id)
  {
    if Undoes(s, a, id) {
      assert InTime(Apply(s, a).claims[a.claim]);
      OpenIsLatest(s, a.now, a.claim);
    }
  }

  // ---- rows that are never finished ----

  /** Out of attempts, but neither sent nor failed. */
  ghost predicate Stuck(s: State, id: Id) {
    id in s.notes && s.notes[id].attempts == MAX_ATTEMPTS && !s.notes[id].sent && !s.notes[id].failedPermanently
  }

  /** A report that ends the row: a delivery, or the failure of the last attempt. */
  ghost predicate Settles(s: State, a: Action, id: Id) {
    && (a.Succeed? || a.Fail?) && a.claim < |s.claims| && s.claims[a.claim].end.Open? && s.claims[a.claim].id == id
    && (a.Succeed? || s.claims[a.claim].attempt >= MAX_ATTEMPTS)
  }

  lemma StuckStep(s: State, a: Action, id: Id)
    requires Counted(s) && Stuck(s, id)
    ensures Stuck(Apply(s, a), id) <==> !Settles(s, a, id)
  {
  }

  lemma {:induction false} StaysStuck(actions: seq<Action>, i: nat, j: nat, id: Id)
    requires i <= j <= |actions| && Stuck(Run(actions[..i]), id)
    requires forall k | i <= k < j :: !Settles(Run(actions[..k]), actions[k], id)
    ensures Stuck(Run(actions[..j]), id)
    decreases j
  {
    if i < j {
      var k := j - 1;
      StaysStuck(actions, i, k, id);
      OneMoreStuck(actions, k, id);
    }
  }

  lemma OneMoreStuck(actions: seq<Action>, k: nat, id: Id)
    requires k < |actions| && Stuck(Run(actions[..k]), id) && !Settles(Run(actions[..k]), actions[k], id)
    ensures Stuck(Run(actions[..k+1]), id)
  {
    RunIsCounted(actions[..k]);
    RunStep(actions, k + 1);
    StuckStep(Run(actions[..k]), actions[k], id);
  }

  /** Out of attempts, a row stays unfinished, and no worker will ever claim it again, exactly until one of its
      open claims is reported delivered or its last attempt is reported failed.  A worker that crashes in the
      last attempt is enough to leave it so for ever. */
  lemma StuckUntilSettled(actions: seq<Action>, i: nat, id: Id)
    requires i <= |actions| && Stuck(Run(actions[..i]), id)
    ensures (forall k | i <= k <= |actions| :: Stuck(Run(actions[..k]), id))
            <==> forall k | i <= k < |actions| :: !Settles(Run(actions[..k]), actions[k], id)
    ensures forall k, now | i <= k <= |actions| && id in Run(actions[..k]).notes :: !Eligible(Run(actions[..k]).notes[id], now)
  {
    forall k, now | i <= k <= |actions| && id in Run(actions[..k]).notes ensures !Eligible(Run(actions[..k]).notes[id], now) {
      assert actions[..k][..i] == actions[..i];
      NoClaimAfterTheEnd(actions[..k], i, id);
    }
    if forall k | i <= k < |actions| :: !Settles(Run(actions[..k]), actions[k], id) {
      forall k | i <= k <= |actions| ensures Stuck(Run(actions[..k]), id) { StaysStuck(actions, i, k, id); }
    }
    forall k | i <= k < |actions| && Settles(Run(actions[..k]), actions[k], id) ensures exists j :: i <= j <= |actions| && !Stuck(Run(actions[..j]), id) {
      SettledAt(actions, k, id);
    }
  }

  lemma SettledAt(actions: seq<Action>, k: nat, id: Id)
    requires k < |actions| && Settles(Run(actions[..k]), actions[k], id)
    ensures !Stuck(Run(actions[..k]), id) || !Stuck(Run(actions[..k+1]), id)
  {
    RunIsCounted(actions[..k]);
    RunStep(actions, k + 1);
    if Stuck(Run(actions[..k]), id) { StuckStep(Run(actions[..k]), actions[k], id); }
  }

  /** A run in which the second of three workers reports its failure after the third one did. */
  ghost const LATE_REPORT: seq<Action> :=
    [Enqueue(1, 0), Take(1, 0), Take(1, 301), Take(1, 602), Fail(2, 603), Fail(1, 604)]

  ghost function ThreeClaims(second: Ending, third: Ending): seq<Claim> {
    [Claim(1, 1, 0, Open), Claim(1, 2, 301, second), Claim(1, 3, 602, third)]
  }

  lemma RunStep(actions: seq<Action>, k: nat)
    requires 0 < k <= |actions|
    ensures Run(actions[..k]) == Apply(Run(actions[..k-1]), actions[k-1])
  {
    assert actions[..k][..k-1] == actions[..k-1];
  }

  lemma LateReportClaims()
    ensures Run(LATE_REPORT[..4]) == State(map[1 := Note(0, 3, false, false, Some(902), Some(602))], ThreeClaims(Open, Open))
  {
    RunStep(LATE_REPORT, 1);
    assert Run(LATE_REPORT[..1]) == State(map[1 := NewNote(0)], []);
    RunStep(LATE_REPORT, 2);
    assert Run(LATE_REPORT[..2]) == State(map[1 := Note(0, 1, false, false, Some(300), Some(0))], [Claim(1, 1, 0, Open)]);
    RunStep(LATE_REPORT, 3);
    assert Run(LATE_REPORT[..3]) == State(map[1 := Note(0, 2, false, false, Some(601), Some(301))],
                                          [Claim(1, 1, 0, Open), Claim(1, 2, 301, Open)]);
    RunStep(LATE_REPORT, 4);
  }

  /** No report is late here: after three crashes the row is stuck. */
  lemma CrashesLeaveRowStuck()
    ensures Stuck(Run(LATE_REPORT[..4]), 1) && forall now :: !Eligible(Run(LATE_REPORT[..4]).notes[1], now)
  {
    LateReportClaims();
  }

  lemma LateReportDeadLetter()
    ensures Run(LATE_REPORT[..5]) == State(map[1 := Note(0, 3, false, true, None, Some(602))], ThreeClaims(Open, Refused(603)))
  {
    LateReportClaims();
    RunStep(LATE_REPORT, 5);
  }

  /** Without timeliness the failure statement, which has no guard, can undo a dead letter: the row ends up
      neither sent, nor failed, nor ever claimable. */
  lemma LateReportUndoesDeadLetter()
    ensures Monotone(LATE_REPORT) && !Timely(Run(LATE_REPORT).claims)
    ensures Run(LATE_REPORT[..5]).notes == map[1 := Note(0, 3, false, true, None, Some(602))]
    ensures Run(LATE_REPORT).notes == map[1 := Note(0, 3, false, false, Some(904), Some(602))]
  {
    LateReportDeadLetter();
    RunStep(LATE_REPORT, 6);
    assert LATE_REPORT[..6] == LATE_REPORT;
    assert Run(LATE_REPORT).claims == ThreeClaims(Refused(604), Refused(603));
    assert !InTime(ThreeClaims(Refused(604), Refused(603))[1]);
  }
}
