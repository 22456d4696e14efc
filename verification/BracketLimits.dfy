// Where the play of a stored knockout ends for good, and what breaks the bracket: stuck matches, stale PATCHes
// and foreign links (backend/internal/matches/service.go, lines 256-824;
// backend/internal/matches/repository.go, lines 590-668).

module BracketLimits {
  import opened FixtureModels
  import opened BracketTree
  import opened MatchStore
  import opened BracketBoard
  import opened BracketRun
  import L = Lifecycle

  // ---- exactly when play can be completed ----

  /** The states of a run are kept when the run goes on. */
  lemma LongerRun(start: Store, scorer: Scorer, actions: seq<L.Action>, more: seq<L.Action>)
    ensures L.Trace(start, scorer, actions + more)[|actions|] == L.Last(L.Trace(start, scorer, actions))
  {
    var all := actions + more;
    if more != [] {
      L.TraceStep(start, scorer, all, |actions|);
      assert all[..|actions|] == actions;
    } else {
      assert all == actions;
    }
  }

  /** A row that cannot change is the same at the end of every continuation. */
  lemma TerminalStays(start: Store, scorer: Scorer, actions: seq<L.Action>, more: seq<L.Action>, id: Uuid)
    requires var rows := L.Last(L.Trace(start, scorer, actions)).rows; id in rows && IsTerminal(rows[id].status)
    ensures var after := L.Last(L.Trace(start, scorer, actions + more)).rows;
            id in after && after[id] == L.Last(L.Trace(start, scorer, actions)).rows[id]
  {
    LongerRun(start, scorer, actions, more);
    L.StatusOnlyMovesUp(start, scorer, actions + more, |actions|, |actions + more|, id);
  }

  /** A cancelled, abandoned or drawn match is never decided: no continuation of any kind completes the bracket. */
  lemma StuckForEver(d: Draw, start: Store, scorer: Scorer, actions: seq<L.Action>, more: seq<L.Action>)
    requires Present(d, L.Last(L.Trace(start, scorer, actions)).rows) && !NoneStuck(d, L.Last(L.Trace(start, scorer, actions)).rows)
    ensures !AllDecided(d, L.Last(L.Trace(start, scorer, actions + more)).rows)
  {
    var rows := L.Last(L.Trace(start, scorer, actions)).rows;
    var t :| 0 <= t < |d.keys| && Stuck(rows[d.keys[t]]);
    TerminalStays(start, scorer, actions, more, d.keys[t]);
  }

  /** Who has lost stays out. */
  lemma OutForEver(d: Draw, start: Store, scorer: Scorer, actions: seq<L.Action>, more: seq<L.Action>, l: int)
    requires Entrant(d, l) && Sound(d, L.Last(L.Trace(start, scorer, actions)).rows)
    requires !StillIn(d, L.Last(L.Trace(start, scorer, actions)).rows, l)
    ensures !WonBy(d, L.Last(L.Trace(start, scorer, actions + more)).rows, l)
  {
    var rows, after := L.Last(L.Trace(start, scorer, actions)).rows, L.Last(L.Trace(start, scorer, actions + more)).rows;
    var t :| Lost(Cells(d, rows), t, SideOf(d, l));
    SidesProper(d, rows, t);
    TerminalStays(start, scorer, actions, more, d.keys[t]);
    if WonBy(d, after, l) {
      assert Cells(d, after)[t] == Cells(d, rows)[t];
      assert Lost(Cells(d, after), t, SideOf(d, l));
    }
  }

  /** The run can be continued so that the bracket is completed in play. */
  ghost predicate Completable(d: Draw, start: Store, scorer: Scorer, actions: seq<L.Action>, k0: nat) {
    exists more :: Completes(d, start, scorer, actions, k0, more)
  }

  ghost predicate Completes(d: Draw, start: Store, scorer: Scorer, actions: seq<L.Action>, k0: nat, more: seq<L.Action>) {
    Plays(d, start, scorer, actions + more, k0) && AllDecided(d, L.Last(L.Trace(start, scorer, actions + more)).rows)
  }

  /** And so that seed l is the champion. */
  ghost predicate Winnable(d: Draw, start: Store, scorer: Scorer, actions: seq<L.Action>, k0: nat, l: int) {
    exists more :: Crowns(d, start, scorer, actions, k0, l, more)
  }

  ghost predicate Crowns(d: Draw, start: Store, scorer: Scorer, actions: seq<L.Action>, k0: nat, l: int, more: seq<L.Action>) {
    Plays(d, start, scorer, actions + more, k0) && WonBy(d, L.Last(L.Trace(start, scorer, actions + more)).rows, l)
  }

  /** In an ongoing tournament an entrant can still become champion exactly when he has not lost and no match was
      cancelled, abandoned or drawn. */
  lemma WinnableIff(d: Draw, start: Store, scorer: Scorer, actions: seq<L.Action>, k0: nat, l: int)
    requires Plays(d, start, scorer, actions, k0) && Entrant(d, l)
    requires d.tournament in L.Last(L.Trace(start, scorer, actions)).ongoing
    ensures Present(d, L.Last(L.Trace(start, scorer, actions)).rows)
    ensures Winnable(d, start, scorer, actions, k0, l) <==>
              NoneStuck(d, L.Last(L.Trace(start, scorer, actions)).rows) && StillIn(d, L.Last(L.Trace(start, scorer, actions)).rows, l)
  {
    var rows := L.Last(L.Trace(start, scorer, actions)).rows;
    WholeRunSound(d, start, scorer, actions, k0);
    if NoneStuck(d, rows) && StillIn(d, rows, l) {
      var more := EveryEntrantCanWin(d, start, scorer, actions, k0, l);
      assert Crowns(d, start, scorer, actions, k0, l, more);
    } else {
      forall more ensures !Crowns(d, start, scorer, actions, k0, l, more) {
        if NoneStuck(d, rows) { OutForEver(d, start, scorer, actions, more, l); } else { StuckForEver(d, start, scorer, actions, more); }
      }
    }
  }

  lemma SomebodyIsIn(d: Draw, rows: Rows) returns (l: int)
    requires Sound(d, rows) && NoneStuck(d, rows)
    ensures Entrant(d, l) && StillIn(d, rows, l)
  {
    var cells := Cells(d, rows);
    if AllDecided(d, rows) {
      l := SoundCrownsOne(d, rows);
    } else {
      forall t | 0 <= t < |cells| ensures cells[t] == rows[d.keys[t]] {}
      var t0 :| 0 <= t0 < |d.keys| && !Decided(rows[d.keys[t0]]);
      assert !Decided(cells[t0]);
      var t := SomeMatchIsPlayable(d, cells);
      SittingIsIn(d, cells, t, cells[t].home);
      assert Sits(cells, t, cells[t].home) && InField(d, cells[t].home);
      l :| Entrant(d, l) && cells[t].home == SideOf(d, l);
    }
  }

  lemma NotCompletable(d: Draw, start: Store, scorer: Scorer, actions: seq<L.Action>, k0: nat)
    requires Present(d, L.Last(L.Trace(start, scorer, actions)).rows) && !NoneStuck(d, L.Last(L.Trace(start, scorer, actions)).rows)
    ensures !Completable(d, start, scorer, actions, k0)
  {
    forall more ensures !Completes(d, start, scorer, actions, k0, more) {
      StuckForEver(d, start, scorer, actions, more);
    }
  }

  /** In an ongoing tournament a bracket in play can be completed exactly when no match was cancelled, abandoned or drawn. */
  lemma CompletableIff(d: Draw, start: Store, scorer: Scorer, actions: seq<L.Action>, k0: nat)
    requires Plays(d, start, scorer, actions, k0)
    requires d.tournament in L.Last(L.Trace(start, scorer, actions)).ongoing
    ensures Completable(d, start, scorer, actions, k0) <==> NoneStuck(d, L.Last(L.Trace(start, scorer, actions)).rows)
  {
    var rows := L.Last(L.Trace(start, scorer, actions)).rows;
    WholeRunSound(d, start, scorer, actions, k0);
    if NoneStuck(d, rows) {
      var l := SomebodyIsIn(d, rows);
      var more := EveryEntrantCanWin(d, start, scorer, actions, k0, l);
      assert Completes(d, start, scorer, actions, k0, more);
    } else {
      NotCompletable(d, start, scorer, actions, k0);
    }
  }

  // ---- a drawn match ----

  /** A PATCH without participants does not read the tournament's participant type. */
  ghost const UNREAD := Entry(false, false)

  ghost function StatusOnly(s: Status): Patch {
    Patch(Some(s), None, None, None, None, None, None, None)
  }

  /** A PATCH of the status alone that reads the last state. */
  ghost function StatusCall(h: L.History, id: Uuid, s: Status): L.Action {
    L.PatchMatch(|h| - 1, id, StatusOnly(s), UNREAD)
  }

  ghost predicate SameButRows(a: Store, b: Store) { b == a.(rows := b.rows) }

  lemma MatchStarts(h: L.History, scorer: Scorer, id: Uuid)
    requires var st := L.Last(h);
             && id in st.rows && st.rows[id].status.Scheduled? && st.rows[id].winner == VACANT
             && BothAssigned(st.rows[id].home, st.rows[id].away) && st.rows[id].tournament in st.ongoing
    ensures var a := StatusCall(h, id, Live);
            && L.Outcome(h, scorer, a).Ok? && SameButRows(L.Last(h), L.Next(h, scorer, a))
            && L.Next(h, scorer, a).rows == L.Last(h).rows[id := L.Last(h).rows[id].(status := Live)]
  {
    var row := L.Last(h).rows[id];
    assert L.Seen(h, |h| - 1) == L.Last(h);
    var p := PrepareUpdate(id, row, StatusOnly(Live), UNREAD).value;
    assert Written(row, p, row.homeScore, row.awayScore) == row.(status := Live);
  }

  /** A live match whose events score a draw is completed without a winner. */
  lemma MatchIsDrawn(h: L.History, scorer: Scorer, id: Uuid)
    requires var st := L.Last(h);
             && id in st.rows && st.rows[id].status.Live? && st.rows[id].winner == VACANT
             && BothAssigned(st.rows[id].home, st.rows[id].away) && st.rows[id].tournament in st.ongoing
             && ScoreOf(st, scorer, id).0 == ScoreOf(st, scorer, id).1
    ensures var a := StatusCall(h, id, Completed);
            && L.Outcome(h, scorer, a).Ok? && id in L.Next(h, scorer, a).rows
            && L.Next(h, scorer, a).rows[id].status.Completed? && L.Next(h, scorer, a).rows[id].winner == VACANT
  {
    var row := L.Last(h).rows[id];
    assert L.Seen(h, |h| - 1) == L.Last(h);
    var p := PrepareUpdate(id, row, StatusOnly(Completed), UNREAD).value;
    assert p.winner == VACANT && Passes(L.Last(h), scorer, p);
  }

  lemma FirstMatch(d: Draw, st: Store)
    requires Opens(d, st)
    ensures Shape(d) && |d.keys| > 0 && d.keys[0] in st.rows && Playable(st.rows[d.keys[0]])
    ensures var row := st.rows[d.keys[0]];
            row.status.Scheduled? && row.winner == VACANT && BothAssigned(row.home, row.away) && row.tournament == d.tournament
  {
    DrawHasShape(d);
    StoredRow(d, st, 0);
    FirstMatchIsFilled(d, 1);
    FirstMatchIsFilled(d, 2);
  }

  /** The run of one call that starts the first match. */
  lemma {:induction false} FirstMatchStarts(d: Draw, start: Store, scorer: Scorer, a: L.Action)
    requires Opens(d, start) && d.tournament in start.ongoing && |d.keys| > 0 && a == StatusCall([start], d.keys[0], Live)
    ensures Plays(d, start, scorer, [a], 0) && L.Trace(start, scorer, [a]) == [start, L.Next([start], scorer, a)]
    ensures var st := L.Next([start], scorer, a);
            d.keys[0] in start.rows && SameButRows(start, st) && st.rows == start.rows[d.keys[0] := start.rows[d.keys[0]].(status := Live)]
  {
    FirstMatch(d, start);
    MatchStarts([start], scorer, d.keys[0]);
    OneCall(d, [start], scorer, a);
  }

  lemma {:induction false} OneCall(d: Draw, first: L.History, scorer: Scorer, a: L.Action)
    requires |first| == 1 && Opens(d, first[0]) && Orderly(d, first, scorer, a)
    ensures Plays(d, first[0], scorer, [a], 0) && L.Trace(first[0], scorer, [a]) == first + [L.Next(first, scorer, a)]
  {
    var none: seq<L.Action> := [];
    assert L.Trace(first[0], scorer, none) == first;
    OpeningPlays(d, first[0], scorer, none);
    ExtendRun(d, first[0], scorer, none, 0, a);
    assert none + [a] == [a];
  }

  /** A second call that completes it in a draw leaves it stuck. */
  lemma {:induction false} DrawnSticks(d: Draw, start: Store, scorer: Scorer, a: L.Action, i: nat) returns (b: L.Action)
    requires Plays(d, start, scorer, [a], 0) && i < |d.keys|
    requires var st := L.Last(L.Trace(start, scorer, [a]));
             && d.keys[i] in st.rows && st.rows[d.keys[i]].status.Live? && st.rows[d.keys[i]].winner == VACANT
             && BothAssigned(st.rows[d.keys[i]].home, st.rows[d.keys[i]].away) && st.rows[d.keys[i]].tournament in st.ongoing
             && ScoreOf(st, scorer, d.keys[i]).0 == ScoreOf(st, scorer, d.keys[i]).1
    ensures b == StatusCall(L.Trace(start, scorer, [a]), d.keys[i], Completed)
    ensures Plays(d, start, scorer, [a, b], 0) && !Completable(d, start, scorer, [a, b], 0)
  {
    var h := L.Trace(start, scorer, [a]);
    b := StatusCall(h, d.keys[i], Completed);
    MatchIsDrawn(h, scorer, d.keys[i]);
    ExtendRun(d, start, scorer, [a], 0, b);
    assert [a] + [b] == [a, b];
    WholeRunSound(d, start, scorer, [a, b], 0);
    assert Stuck(L.Last(L.Trace(start, scorer, [a, b])).rows[d.keys[i]]);
    NotCompletable(d, start, scorer, [a, b], 0);
  }

  /** The input: in any stored knockout of an ongoing tournament the first match is started and, with events that
      score a draw, completed.  Both calls commit and keep the bracket in play, and it can never be completed. */
  lemma {:induction false} DrawStopsPlay(d: Draw, start: Store, scorer: Scorer) returns (a: L.Action, b: L.Action)
    requires Opens(d, start) && d.tournament in start.ongoing && |d.keys| > 0 && d.keys[0] in start.rows
    requires ScoreOf(start, scorer, d.keys[0]).0 == ScoreOf(start, scorer, d.keys[0]).1
    ensures a == L.PatchMatch(0, d.keys[0], StatusOnly(Live), UNREAD) && b == L.PatchMatch(1, d.keys[0], StatusOnly(Completed), UNREAD)
    ensures Plays(d, start, scorer, [a, b], 0) && !Completable(d, start, scorer, [a, b], 0)
  {
    FirstMatch(d, start);
    a := StatusCall([start], d.keys[0], Live);
    FirstMatchStarts(d, start, scorer, a);
    b := DrawnSticks(d, start, scorer, a, 0);
  }

  // ---- a stale PATCH ----

  ghost const EMPTY_PATCH := Patch(None, None, None, None, None, None, None, None)

  ghost function FirstWalkover(d: Draw): L.Action
    requires |d.keys| > 0
  {
    L.AwardWalkover(0, d.keys[0], "home", "no show")
  }

  /** Slot s of match t holds the winner of the first match. */
  ghost predicate HoldsFirstWinner(d: Draw, rows: Rows, t: int, s: int) {
    && Present(d, rows) && 0 < t < |d.keys| && (s == 1 || s == 2)
    && SideAt(rows[d.keys[t]], s) == rows[d.keys[0]].winner != VACANT
  }

  /** The first match still has its winner, but slot s of match t is empty again. */
  ghost predicate LostFirstWinner(d: Draw, before: Rows, after: Rows, t: int, s: int) {
    && HoldsFirstWinner(d, before, t, s) && Present(d, after)
    && after[d.keys[0]].winner == before[d.keys[0]].winner && SideAt(after[d.keys[t]], s) == VACANT
  }

  /** An empty PATCH of match t that read the first state of h commits after its last, and takes the winner of the first
      match out of slot s. */
  ghost predicate ErasesWinner(d: Draw, h: L.History, scorer: Scorer, t: nat, s: int) {
    && t < |d.keys| && Sound(d, L.Last(h).rows)
    && var a := L.PatchMatch(0, d.keys[t], EMPTY_PATCH, UNREAD);
       var after := L.Next(h, scorer, a).rows;
       L.Outcome(h, scorer, a).Ok? && LostFirstWinner(d, L.Last(h).rows, after, t, s) && !Sound(d, after)
  }

  /** The input: in any stored knockout with two matches or more, the first match is walked over, and an empty PATCH of its
      successor t that read the stored state commits afterwards. */
  lemma {:induction false} StalePatchErasesWinner(d: Draw, start: Store, scorer: Scorer) returns (h: L.History, t: nat, s: int)
    requires Opens(d, start) && d.tournament in start.ongoing && |d.keys| >= 2
    ensures h == [start] + [L.Next([start], scorer, FirstWalkover(d))] && ErasesWinner(d, h, scorer, t, s)
  {
    h := WalkedOver(d, [start], scorer);
    t, s := SuccessorErased(d, h, scorer);
  }

  lemma SuccessorErased(d: Draw, h: L.History, scorer: Scorer) returns (t: nat, s: int)
    requires |h| == 2 && Opens(d, h[0]) && Consistent(d, h) && |d.keys| >= 2
    requires Waiting(d, h[0].rows) && Waiting(d, h[1].rows) && h[1].rows[d.keys[0]].winner != VACANT
    ensures ErasesWinner(d, h, scorer, t, s)
  {
    t, s := SuccessorOfFirst(d, h[0], h[1]);
    StalePatch(d, h, scorer, t, s);
  }

  ghost predicate Waiting(d: Draw, rows: Rows) {
    Present(d, rows) && forall t | 0 < t < |d.keys| :: rows[d.keys[t]].status.Scheduled?
  }

  lemma WaitsAtFirst(d: Draw, first: L.History)
    requires |first| == 1 && Opens(d, first[0])
    ensures Consistent(d, first) && NoneStuck(d, first[0].rows) && Waiting(d, first[0].rows)
  {
    OpeningIsSound(d, first[0]);
    CardsAtFirst(d, first[0]);
    OneState(d, first);
    StoredWaits(d, first[0]);
  }

  lemma CardsAtFirst(d: Draw, st: Store)
    requires Opens(d, st)
    ensures CardsFit(d, st.cards)
  {
  }

  lemma OneState(d: Draw, first: L.History)
    requires |first| == 1 && Sound(d, first[0].rows) && CardsFit(d, first[0].cards)
    ensures Consistent(d, first)
  {
    SoundIsReadable(d, first[0].rows);
  }

  lemma StoredWaits(d: Draw, st: Store)
    requires Opens(d, st) && Present(d, st.rows)
    ensures NoneStuck(d, st.rows) && Waiting(d, st.rows)
  {
    forall t | 0 <= t < |d.keys| ensures st.rows[d.keys[t]].status.Scheduled? { StoredRow(d, st, t); }
  }

  lemma {:induction false} WalkedOver(d: Draw, first: L.History, scorer: Scorer) returns (h: L.History)
    requires |first| == 1 && Opens(d, first[0]) && d.tournament in first[0].ongoing && |d.keys| > 0
    ensures h == first + [L.Next(first, scorer, FirstWalkover(d))]
    ensures Consistent(d, h) && Waiting(d, h[0].rows) && Waiting(d, h[1].rows) && h[1].rows[d.keys[0]].winner != VACANT
  {
    FirstMatch(d, first[0]);
    WaitsAtFirst(d, first);
    FirstConcludes(d, first, scorer);
    StepStaysConsistent(d, first, scorer, FirstWalkover(d));
    h := first + [L.Next(first, scorer, FirstWalkover(d))];
  }

  lemma FirstConcludes(d: Draw, h: L.History, scorer: Scorer)
    requires Consistent(d, h) && |h| == 1 && d.tournament in h[0].ongoing && NoneStuck(d, h[0].rows) && Waiting(d, h[0].rows)
    requires |d.keys| > 0 && Playable(h[0].rows[d.keys[0]])
    ensures var after := L.Next(h, scorer, FirstWalkover(d)).rows;
            Orderly(d, h, scorer, FirstWalkover(d)) && Waiting(d, after) && after[d.keys[0]].winner != VACANT
  {
    WalkoverCommits(d, h, scorer, 0, "home");
  }

  /** The slot the first match feeds was empty and holds its winner. */
  lemma SuccessorOfFirst(d: Draw, start: Store, st: Store) returns (t: nat, s: int)
    requires Opens(d, start) && Sound(d, st.rows) && |d.keys| >= 2 && st.rows[d.keys[0]].winner != VACANT
    ensures HoldsFirstWinner(d, st.rows, t, s) && d.keys[t] in start.rows && SideAt(start.rows[d.keys[t]], s) == VACANT
  {
    assert HasEdge(d, 0);
    t, s :| EdgeTo(d, 0, t, s);
    StoredRow(d, start, t);
    assert SlotOk(d, Cells(d, st.rows), t, s);
  }

  lemma StalePatch(d: Draw, h: L.History, scorer: Scorer, t: nat, s: int)
    requires Consistent(d, h) && |h| == 2 && HoldsFirstWinner(d, h[1].rows, t, s) && Waiting(d, h[0].rows) && Waiting(d, h[1].rows)
    requires SideAt(h[0].rows[d.keys[t]], s) == VACANT
    ensures ErasesWinner(d, h, scorer, t, s)
  {
    var st, id := h[1], d.keys[t];
    assert Readable(d, h[0].rows, st.rows) && L.Seen(h, 0) == h[0] && L.Last(h) == st;
    var current := h[0].rows[id];
    assert Reading(d, t, current, st.rows[id]);
    var p := PrepareUpdate(id, current, EMPTY_PATCH, UNREAD).value;
    UpdateOutcome(st, scorer, p);
    PatchWrites(d, st, scorer, t, current, EMPTY_PATCH, UNREAD);
    PatchKeepsIff(d, st, scorer, t, current, EMPTY_PATCH, UNREAD);
  }

  // ---- foreign links ----

  /** The match that feeds slot s of match t was cancelled. */
  ghost predicate FeederCancelled(d: Draw, rows: Rows, t: int, s: int)
    requires Present(d, rows)
  {
    exists k :: Feeds(d.matches, k, t, s) && 0 <= k < |d.keys| && rows[d.keys[k]].status.Cancelled?
  }

  /** The check of links admits another feeder for a slot of a bracket exactly when the plan placed a participant there
      or the slot's own feeder was cancelled. */
  lemma FreeSlotIff(d: Draw, rows: Rows, t: nat, s: int)
    requires Sound(d, rows) && t < |d.keys| && (s == 1 || s == 2)
    ensures LinkVerdict(rows, d.tournament, Some(d.keys[t]), Some(s), None).Ok? <==>
              SlotOf(d.matches[t], s).Concrete? || FeederCancelled(d, rows, t, s)
  {
    assert Linked(d, rows[d.keys[t]], t) && SlotShape(d, t, s);
    forall id | id in rows && IsFeeder(rows, id, d.keys[t], s)
      ensures SlotOf(d.matches[t], s) == TBD && !FeederCancelled(d, rows, t, s)
    {
      assert id in d.keys by { assert id in d.keys || NoneLinksIn(d, rows[id]); }
      var k := KeyOf(d, id);
      LinkIsEdge(d, rows[id], k, t, s);
      forall k' | Feeds(d.matches, k', t, s) ensures k' == k { assert Edge(d, k, t, s) && Edge(d, k', t, s); }
    }
    if SlotOf(d.matches[t], s) == TBD && !FeederCancelled(d, rows, t, s) {
      assert HasFeeder(d.matches, t, s);
      var k :| Feeds(d.matches, k, t, s);
      var id := d.keys[k];
      assert id in rows && Linked(d, rows[id], k);
      assert IsFeeder(rows, id, d.keys[t], s);
    }
  }

  lemma LinkIsEdge(d: Draw, c: Row, k: nat, t: nat, s: int)
    requires Shape(d) && Distinct(d.keys) && |d.keys| == |d.matches| && k < |d.keys| && t < |d.keys| && Linked(d, c, k)
    requires c.nextMatch == Some(d.keys[t]) && c.nextSlot == Some(s)
    ensures SlotOf(d.matches[t], s) == TBD && Feeds(d.matches, k, t, s)
  {
    var next := d.matches[k].nextMatchIndex.value;
    assert d.keys[next] == d.keys[t];
    assert next == t;
    assert HasEdge(d, k);
    var t', s' :| EdgeTo(d, k, t', s');
  }

  /** A concluded match outside the bracket that is linked to slot s of bracket match t. */
  ghost predicate FeedsIn(d: Draw, id: Uuid, c: Row, t: int, s: int) {
    && 0 <= t < |d.keys| && (s == 1 || s == 2) && id !in d.keys
    && Decided(c) && c.nextMatch == Some(d.keys[t]) && c.nextSlot == Some(s)
  }

  /** A result of a foreign match that reaches the bracket keeps it exactly when its winner already sits in the slot. */
  lemma ForeignResultKeepsIff(d: Draw, rows: Rows, id: Uuid, c: Row, t: nat, s: int)
    requires Agrees(d, rows) && FeedsIn(d, id, c, t, s) && Propagate(rows[id := c], c).Ok?
    ensures Agrees(d, Propagate(rows[id := c], c).value) <==> SideAt(rows[d.keys[t]], s) == c.winner
  {
    var after := Propagate(rows[id := c], c).value;
    forall k | 0 <= k < |d.keys|
      ensures d.keys[k] in after && after[d.keys[k]] == if k == t then Seated(rows[d.keys[t]], s, c.winner) else rows[d.keys[k]]
    {
      assert d.keys[k] in d.keys;
    }
    if SideAt(rows[d.keys[t]], s) == c.winner {
      assert Cells(d, after) == Cells(d, rows);
    } else {
      ChangedSlotDisagrees(d, rows, after, t, s);
    }
  }
}
