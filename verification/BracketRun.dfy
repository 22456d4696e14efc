// Whole runs over a stored knockout bracket: every interleaving of starts, completions,
// walkovers, cancellations and edits keeps the board consistent with the plan
// (backend/internal/matches/service.go, backend/internal/matches/repository.go).

module BracketRun {
  import opened FixtureModels
  import opened SeedSlots
  import opened BracketTree
  import opened MatchStore
  import P = PlanInsertion
  import Q = Qualification
  import opened BracketBoard
  import L = Lifecycle

  // ---- the rows of a draw ----

  ghost predicate Present(d: Draw, rows: Rows) {
    |d.keys| == |d.matches| && forall i | 0 <= i < |d.keys| :: d.keys[i] in rows
  }

  ghost function Cells(d: Draw, rows: Rows): (cells: Board)
    requires Present(d, rows)
    ensures |cells| == |d.matches|
  {
    seq(|d.keys|, i requires 0 <= i < |d.keys| => rows[d.keys[i]])
  }

  /** The stored link of match i is its edge in the plan. */
  ghost predicate Linked(d: Draw, c: Row, i: int)
    requires 0 <= i < |d.matches| == |d.keys|
  {
    var next := d.matches[i].nextMatchIndex;
    && c.tournament == d.tournament
    && (next.None? ==> c.nextMatch.None? && c.nextSlot.None?)
    && (next.Some? ==> 0 <= next.value < |d.keys| && c.nextMatch == Some(d.keys[next.value]) && c.nextSlot == d.matches[i].nextSlot)
  }

  ghost predicate NoneLinksIn(d: Draw, c: Row) {
    c.nextMatch.Some? ==> c.nextMatch.value !in d.keys
  }

  /** The rows of the bracket agree with the plan and with one another. */
  ghost predicate Agrees(d: Draw, rows: Rows) {
    && Shape(d) && Distinct(d.keys) && Present(d, rows)
    && (forall i | 0 <= i < |d.keys| :: Linked(d, rows[d.keys[i]], i))
    && OnBoard(d, Cells(d, rows))
  }

  /** And no match outside the bracket feeds it. */
  ghost predicate Sound(d: Draw, rows: Rows) {
    Agrees(d, rows) && forall id | id in rows && id !in d.keys :: NoneLinksIn(d, rows[id])
  }

  /** A side once filled stays, and so does a winner. */
  ghost predicate Keeps(a: Row, b: Row) {
    && (a.home != VACANT ==> b.home == a.home) && (a.away != VACANT ==> b.away == a.away)
    && (a.winner != VACANT ==> b.winner == a.winner)
  }

  ghost predicate Grows(d: Draw, before: Rows, after: Rows) {
    forall id | id in d.keys && id in before :: id in after && Keeps(before[id], after[id])
  }

  lemma GrowsAt(d: Draw, before: Rows, after: Rows, i: nat)
    requires Grows(d, before, after) && i < |d.keys| && d.keys[i] in before
    ensures d.keys[i] in after && Keeps(before[d.keys[i]], after[d.keys[i]])
  {
    var id := d.keys[i];
    assert id in d.keys && id in before;
  }

  // ---- moves on rows ----

  lemma CellsUpdate(d: Draw, rows: Rows, i: nat, c: Row)
    requires Present(d, rows) && Distinct(d.keys) && i < |d.keys|
    ensures Present(d, rows[d.keys[i] := c]) && Cells(d, rows[d.keys[i] := c]) == Cells(d, rows)[i := c]
  {
  }

  lemma QuietRow(d: Draw, rows: Rows, i: nat, c: Row)
    requires Sound(d, rows) && i < |d.keys| && Linked(d, c, i)
    requires SamePlaces(rows[d.keys[i]], c) && CellOk(c)
    ensures Sound(d, rows[d.keys[i] := c]) && Grows(d, rows, rows[d.keys[i] := c])
  {
    CellsUpdate(d, rows, i, c);
    QuietMove(d, Cells(d, rows), i, c);
  }

  ghost predicate ConcludesRow(d: Draw, rows: Rows, i: nat, c: Row) {
    && Sound(d, rows) && i < |d.keys| && Linked(d, c, i)
    && Concludes(Cells(d, rows), i, c)
  }

  /** Whatever sides it is written with, a decisive result is refused exactly when the successor was cancelled. */
  lemma RefusedIffCancelled(d: Draw, rows: Rows, i: nat, c: Row)
    requires Sound(d, rows) && i < |d.keys| && Linked(d, c, i) && !Decided(rows[d.keys[i]]) && Decided(c)
    ensures var r := Propagate(rows[d.keys[i] := c], c);
            (r.Err? ==> r.error == DownstreamLocked) && (r.Err? <==> SuccessorCancelled(rows, d.keys[i]))
  {
    assert Linked(d, rows[d.keys[i]], i);
    if i < |d.keys| - 1 {
      assert HasEdge(d, i);
      var t, s :| EdgeTo(d, i, t, s);
      assert Cells(d, rows)[i] == rows[d.keys[i]] && Cells(d, rows)[t] == rows[d.keys[t]];
      FedSlotEmpty(d, Cells(d, rows), i, t, s);
      assert Linked(d, rows[d.keys[t]], t);
      assert c.nextMatch == Some(d.keys[t]) && c.nextSlot == Some(s) && d.keys[t] != d.keys[i];
    }
  }

  /** A decisive result that is not refused reaches the successor's slot. */
  lemma ConcludeRow(d: Draw, rows: Rows, i: nat, c: Row)
    requires ConcludesRow(d, rows, i, c) && i < |d.keys| - 1
    ensures var r := Propagate(rows[d.keys[i] := c], c);
            && (r.Ok? ==> Sound(d, r.value) && Grows(d, rows, r.value) && r.value.Keys == rows.Keys)
            && (r.Err? ==> r.error == DownstreamLocked) && (r.Err? <==> SuccessorCancelled(rows, d.keys[i]))
  {
    var cells := Cells(d, rows);
    assert cells[i] == rows[d.keys[i]];
    RefusedIffCancelled(d, rows, i, c);
    assert HasEdge(d, i);
    var t, s :| EdgeTo(d, i, t, s);
    FedSlotEmpty(d, cells, i, t, s);
    CellsUpdate(d, rows, i, c);
    var tx := rows[d.keys[i] := c];
    assert Cells(d, tx)[t] == cells[t];
    assert Linked(d, tx[d.keys[t]], t);
    assert c.nextMatch == Some(d.keys[t]) && c.nextSlot == Some(s);
    if cells[t].status.Scheduled? {
      var succ := Seated(cells[t], s, c.winner);
      assert Propagate(tx, c) == Ok(tx[d.keys[t] := succ]);
      CellsUpdate(d, tx, t, succ);
      WinnerAdvances(d, cells, i, c, t, s);
      assert Cells(d, tx[d.keys[t] := succ]) == Advanced(cells, i, c, t, s);
    }
  }

  lemma ConcludeFinal(d: Draw, rows: Rows, c: Row)
    requires |d.keys| > 0 && ConcludesRow(d, rows, |d.keys| - 1, c)
    ensures var after := rows[d.keys[|d.keys|-1] := c];
            Propagate(after, c) == Ok(after) && Sound(d, after) && Grows(d, rows, after)
  {
    var i := |d.keys| - 1;
    CellsUpdate(d, rows, i, c);
    FinalConcludes(d, Cells(d, rows), c);
    assert Cells(d, rows)[i] == rows[d.keys[i]];
  }

  ghost predicate SoundAfter(d: Draw, rows: Rows, r: Result<Rows, MatchError>) {
    r.Ok? ==> Sound(d, r.value) && Grows(d, rows, r.value)
  }

  /** A match outside the bracket never writes into it. */
  lemma OutsideRow(d: Draw, rows: Rows, id: Uuid, c: Row)
    requires Sound(d, rows) && id !in d.keys && NoneLinksIn(d, c)
    ensures Sound(d, rows[id := c]) && Grows(d, rows, rows[id := c])
    ensures SoundAfter(d, rows, Propagate(rows[id := c], c))
  {
    var tx := rows[id := c];
    OutsideWrite(d, rows, id, c);
    var r := Propagate(tx, c);
    if r.Ok? && r.value != tx {
      var next := c.nextMatch.value;
      assert NoneLinksIn(d, tx[next]);
      OutsideWrite(d, tx, next, r.value[next]);
      assert r.value == tx[next := r.value[next]];
    }
  }

  lemma OutsideWrite(d: Draw, rows: Rows, id: Uuid, c: Row)
    requires Sound(d, rows) && id !in d.keys && NoneLinksIn(d, c)
    ensures Sound(d, rows[id := c]) && Grows(d, rows, rows[id := c])
  {
    var after := rows[id := c];
    forall k | 0 <= k < |d.keys| ensures d.keys[k] in after && after[d.keys[k]] == rows[d.keys[k]] {
      assert d.keys[k] in d.keys;
    }
    OthersChange(d, rows, after);
  }

  /** Rows outside the bracket may change and be added, as long as none links into it. */
  lemma OthersChange(d: Draw, rows: Rows, after: Rows)
    requires Sound(d, rows) && forall k | 0 <= k < |d.keys| :: d.keys[k] in after && after[d.keys[k]] == rows[d.keys[k]]
    requires forall id | id in after && id !in d.keys :: NoneLinksIn(d, after[id])
    ensures Sound(d, after) && Grows(d, rows, after)
  {
    assert Cells(d, after) == Cells(d, rows);
    forall id | id in d.keys && id in rows ensures id in after && Keeps(rows[id], after[id]) {
      var k := KeyOf(d, id);
    }
  }

  // ---- sides ----

  /** Team columns in a team tournament, player columns otherwise. */
  ghost predicate Proper(d: Draw, x: Side) {
    if d.teams then x.player.None? else x.team.None?
  }

  lemma SidesProper(d: Draw, rows: Rows, i: nat)
    requires Sound(d, rows) && i < |d.keys|
    ensures var c := rows[d.keys[i]];
            CellOk(c) && Proper(d, c.home) && Proper(d, c.away)
  {
    var cells := Cells(d, rows);
    var c := rows[d.keys[i]];
    assert cells[i] == c && CellOk(cells[i]);
    assert Sits(cells, i, c.home) && Sits(cells, i, c.away);
    if c.home != VACANT { assert InField(d, c.home); }
    if c.away != VACANT { assert InField(d, c.away); }
  }

  // ---- the calls ----

  /** What a call may rely on: the row it read and the row it locks, for match i. */
  ghost predicate Read(d: Draw, rows: Rows, i: nat, current: Row) {
    Sound(d, rows) && i < |d.keys| && Reading(d, i, current, rows[d.keys[i]])
  }

  /** Row a of match i, as some call read it, and its row b now. */
  ghost predicate Reading(d: Draw, i: int, a: Row, b: Row)
    requires 0 <= i < |d.matches| == |d.keys|
  {
    Linked(d, a, i) && CellOk(a) && Proper(d, a.home) && Proper(d, a.away) && Keeps(a, b)
  }

  /** The PATCH of a row read as current writes the sides of c. */
  ghost predicate WritesSides(current: Row, q: Patch, c: Row) {
    TakesSides(current, q, c.home, c.away)
  }

  /** A PATCH without a link writes the links of the match, and a winner only on completion. */
  lemma PatchLinked(d: Draw, rows: Rows, i: nat, current: Row, q: Patch, entry: Entry, hs: int, as_: int)
    requires Read(d, rows, i, current) && q.link.None?
    requires PrepareUpdate(d.keys[i], current, q, entry).Ok? && rows[d.keys[i]].status == current.status
    ensures var c := Written(rows[d.keys[i]], PrepareUpdate(d.keys[i], current, q, entry).value, hs, as_);
            && Linked(d, c, i) && TakesSides(current, q, c.home, c.away)
            && !Decided(rows[d.keys[i]]) && (Decided(c) ==> c.status.Completed?)
  {
    SidesProper(d, rows, i);
    assert Linked(d, rows[d.keys[i]], i);
    assert current.winner == VACANT;
  }

  /** If it writes the sides of the match, the new row differs in status, score and winner only. */
  lemma PatchedRow(d: Draw, rows: Rows, i: nat, current: Row, q: Patch, entry: Entry, hs: int, as_: int)
    requires Read(d, rows, i, current) && q.link.None? && WritesSides(current, q, rows[d.keys[i]])
    requires PrepareUpdate(d.keys[i], current, q, entry).Ok? && rows[d.keys[i]].status == current.status
    ensures var c := Written(rows[d.keys[i]], PrepareUpdate(d.keys[i], current, q, entry).value, hs, as_);
            CellOk(c) && c.home == rows[d.keys[i]].home && c.away == rows[d.keys[i]].away
  {
    SidesProper(d, rows, i);
    var p := PrepareUpdate(d.keys[i], current, q, entry).value;
    assert p.home == rows[d.keys[i]].home && p.away == rows[d.keys[i]].away;
    assert current.winner == VACANT;
  }

  /** A transaction either keeps the bracket sound or changes nothing; it is refused downstream only
      when the successor was cancelled. */
  ghost predicate KeepsSound(d: Draw, rows: Rows, id: Uuid, r: Result<Rows, MatchError>) {
    && SoundAfter(d, rows, r)
    && (r.Err? && r.error.DownstreamLocked? ==> SuccessorCancelled(rows, id))
    && (r.Err? ==> !r.error.NextMatchNotFound? && !r.error.BracketInconsistent? && !r.error.InvalidNextSlot?)
  }

  ghost predicate SuccessorCancelled(rows: Rows, id: Uuid) {
    && id in rows && rows[id].nextMatch.Some? && rows[id].nextMatch.value in rows
    && rows[rows[id].nextMatch.value].status.Cancelled?
  }

  /** The write and, for a decisive result, its propagation. */
  lemma WriteResult(d: Draw, rows: Rows, i: nat, c: Row)
    requires Sound(d, rows) && i < |d.keys| && Linked(d, c, i) && CellOk(c) && !Decided(rows[d.keys[i]])
    requires c.home == rows[d.keys[i]].home && c.away == rows[d.keys[i]].away
    ensures KeepsSound(d, rows, d.keys[i], Propagate(rows[d.keys[i] := c], c))
    ensures !Decided(c) ==> KeepsSound(d, rows, d.keys[i], Ok(rows[d.keys[i] := c]))
    ensures Decided(c) ==> (Propagate(rows[d.keys[i] := c], c).Err? <==> SuccessorCancelled(rows, d.keys[i]))
  {
    assert Linked(d, rows[d.keys[i]], i);
    if !Decided(c) {
      QuietRow(d, rows, i, c);
    } else {
      assert Cells(d, rows)[i] == rows[d.keys[i]];
      if i < |d.keys| - 1 {
        ConcludeRow(d, rows, i, c);
      } else {
        ConcludeFinal(d, rows, c);
      }
    }
  }

  ghost predicate Refuses(r: Result<Rows, MatchError>) {
    r.Err? && (r.error.TournamentNotOngoing? || r.error.MatchNotFound? || r.error.MatchNotUpdatable? || r.error.WinnerScoreMismatch?)
  }

  /** The update passes all guards on its own match. */
  ghost predicate Passes(st: Store, scorer: Scorer, p: Update) {
    && (p.lockTournament ==> p.tournament in st.ongoing)
    && p.id in st.rows && st.rows[p.id].status == p.expected
    && (p.status.Completed? ==>
          st.rows[p.id].status.Live? && WinnerFitsScore(p, st.rows[p.id], ScoreOf(st, scorer, p.id).0, ScoreOf(st, scorer, p.id).1))
  }

  ghost function WrittenRow(st: Store, scorer: Scorer, p: Update): Row
    requires p.id in st.rows
  {
    if p.status.Completed? then Written(st.rows[p.id], p, ScoreOf(st, scorer, p.id).0, ScoreOf(st, scorer, p.id).1)
    else Written(st.rows[p.id], p, p.homeScore, p.awayScore)
  }

  /** The update refuses, or writes the row and, on completion, propagates its winner. */
  lemma UpdateOutcome(st: Store, scorer: Scorer, p: Update)
    ensures var r := UpdateTx(st, scorer, p);
            if Passes(st, scorer, p) then
              var c := WrittenRow(st, scorer, p);
              r == if p.status.Completed? then Propagate(st.rows[p.id := c], c) else Ok(st.rows[p.id := c])
            else Refuses(r)
  {
  }

  lemma PatchCall(d: Draw, st: Store, scorer: Scorer, i: nat, current: Row, q: Patch, entry: Entry)
    requires Read(d, st.rows, i, current) && q.link.None?
    requires PrepareUpdate(d.keys[i], current, q, entry).Ok?
    requires UpdateTx(st, scorer, PrepareUpdate(d.keys[i], current, q, entry).value).Ok? ==>
               WritesSides(current, q, st.rows[d.keys[i]])
    ensures KeepsSound(d, st.rows, d.keys[i], UpdateTx(st, scorer, PrepareUpdate(d.keys[i], current, q, entry).value))
  {
    var id := d.keys[i];
    var p := PrepareUpdate(id, current, q, entry).value;
    PreparedFor(id, current, q, entry);
    UpdateOutcome(st, scorer, p);
    if Passes(st, scorer, p) {
      var c := WrittenRow(st, scorer, p);
      PatchLinked(d, st.rows, i, current, q, entry, c.homeScore, c.awayScore);
      if Decided(c) { RefusedIffCancelled(d, st.rows, i, c); }
      if UpdateTx(st, scorer, p).Ok? {
        PatchedRow(d, st.rows, i, current, q, entry, c.homeScore, c.awayScore);
        WriteResult(d, st.rows, i, c);
      }
    }
  }

  // ---- exactly when a PATCH keeps the bracket ----

  /** The slots of a match are determined by the plan and the winners of the other matches. */
  lemma ChangedSlotDisagrees(d: Draw, rows: Rows, after: Rows, i: nat, s: int)
    requires Agrees(d, rows) && i < |d.keys| && (s == 1 || s == 2) && Present(d, after)
    requires forall k | 0 <= k < |d.keys| && k != i :: after[d.keys[k]].winner == rows[d.keys[k]].winner
    requires SideAt(after[d.keys[i]], s) != SideAt(rows[d.keys[i]], s)
    ensures !Agrees(d, after)
  {
    var cells, cells' := Cells(d, rows), Cells(d, after);
    assert SlotOk(d, cells, i, s) && SlotShape(d, i, s);
    if SlotOf(d.matches[i], s) == TBD {
      assert HasFeeder(d.matches, i, s);
      var k :| Feeds(d.matches, k, i, s);
      assert Edge(d, k, i, s);
      FeederIsEarlier(d, k, i, s);
      assert cells'[k].winner == cells[k].winner;
    }
    assert !SlotOk(d, cells', i, s);
  }

  /** The sides of match i after a committing PATCH, and the winners of the others. */
  lemma PatchWrites(d: Draw, st: Store, scorer: Scorer, i: nat, current: Row, q: Patch, entry: Entry)
    requires Read(d, st.rows, i, current) && q.link.None? && PrepareUpdate(d.keys[i], current, q, entry).Ok?
    requires UpdateTx(st, scorer, PrepareUpdate(d.keys[i], current, q, entry).value).Ok?
    ensures var after := UpdateTx(st, scorer, PrepareUpdate(d.keys[i], current, q, entry).value).value;
            && Present(d, after) && WritesSides(current, q, after[d.keys[i]])
            && (forall k | 0 <= k < |d.keys| && k != i :: after[d.keys[k]].winner == st.rows[d.keys[k]].winner)
  {
    var id := d.keys[i];
    var p := PrepareUpdate(id, current, q, entry).value;
    PreparedFor(id, current, q, entry);
    UpdateOutcome(st, scorer, p);
    var c := WrittenRow(st, scorer, p);
    PatchLinked(d, st.rows, i, current, q, entry, c.homeScore, c.awayScore);
    if p.status.Completed? {
      var after := UpdateTx(st, scorer, p).value;
      forall k | 0 <= k < |d.keys| && k != i ensures d.keys[k] in after && after[d.keys[k]].winner == st.rows[d.keys[k]].winner {
        PropagateKeeps(st.rows[id := c], c, d.keys[k]);
      }
      LinksElsewhere(d, c, i);
      PropagateLeaves(st.rows[id := c], c, id);
    }
  }

  /** No match of the bracket feeds itself. */
  lemma LinksElsewhere(d: Draw, c: Row, i: nat)
    requires Shape(d) && Distinct(d.keys) && |d.keys| == |d.matches| && i < |d.keys| && Linked(d, c, i)
    ensures c.nextMatch != Some(d.keys[i])
  {
    if i < |d.keys| - 1 {
      assert HasEdge(d, i);
      var t, s :| EdgeTo(d, i, t, s);
      assert d.keys[t] != d.keys[i];
    }
  }

  lemma PropagateLeaves(rows: Rows, feeder: Row, id: Uuid)
    requires Propagate(rows, feeder).Ok? && id in rows && feeder.nextMatch != Some(id)
    ensures id in Propagate(rows, feeder).value && Propagate(rows, feeder).value[id] == rows[id]
  {
  }

  /** A committing PATCH without a link, with participants or not, keeps the bracket exactly when the sides it writes
      are the sides the match has. */
  lemma PatchKeepsIff(d: Draw, st: Store, scorer: Scorer, i: nat, current: Row, q: Patch, entry: Entry)
    requires Read(d, st.rows, i, current) && q.link.None? && PrepareUpdate(d.keys[i], current, q, entry).Ok?
    requires UpdateTx(st, scorer, PrepareUpdate(d.keys[i], current, q, entry).value).Ok?
    ensures var after := UpdateTx(st, scorer, PrepareUpdate(d.keys[i], current, q, entry).value).value;
            Sound(d, after) <==> WritesSides(current, q, st.rows[d.keys[i]])
  {
    var after := UpdateTx(st, scorer, PrepareUpdate(d.keys[i], current, q, entry).value).value;
    if WritesSides(current, q, st.rows[d.keys[i]]) {
      PatchCall(d, st, scorer, i, current, q, entry);
    } else {
      PatchWrites(d, st, scorer, i, current, q, entry);
      ChangedSlotDisagrees(d, st.rows, after, i, if PatchedHome(current, q) != st.rows[d.keys[i]].home then 1 else 2);
    }
  }

  lemma PreparedFor(id: Uuid, current: Row, q: Patch, entry: Entry)
    requires PrepareUpdate(id, current, q, entry).Ok?
    ensures var p := PrepareUpdate(id, current, q, entry).value;
            p.id == id && p.expected == current.status
  {
  }

  lemma WalkoverCall(d: Draw, st: Store, i: nat, current: Row, winner: string, reason: string)
    requires Read(d, st.rows, i, current)
    requires PrepareWalkover(d.keys[i], current, winner, reason).Ok?
    ensures KeepsSound(d, st.rows, d.keys[i], WalkoverTx(st, PrepareWalkover(d.keys[i], current, winner, reason).value))
  {
    var id := d.keys[i];
    var p := PrepareWalkover(id, current, winner, reason).value;
    if st.rows[id].status == current.status {
      SidesProper(d, st.rows, i);
      assert Linked(d, st.rows[id], i);
      WriteResult(d, st.rows, i, WalkoverRow(st.rows[id], p.winner));
    }
  }

  lemma CancelCall(d: Draw, st: Store, i: nat, current: Row)
    requires Read(d, st.rows, i, current) && PrepareCancel(current).Ok?
    ensures KeepsSound(d, st.rows, d.keys[i], CancelTx(st, d.keys[i], PrepareCancel(current).value))
  {
    var row := st.rows[d.keys[i]];
    if row.status == current.status {
      SidesProper(d, st.rows, i);
      assert Linked(d, row, i);
      QuietRow(d, st.rows, i, row.(status := Cancelled));
    }
  }

  // ---- calls on other matches of the table ----

  /** A link set by the PATCH does not lead to one of these matches. */
  ghost predicate LinksAround(keys: seq<Uuid>, q: Patch) {
    q.link.Some? && q.link.value.Ok? && q.link.value.value.0.Some? ==> q.link.value.value.0.value !in keys
  }

  lemma OutsidePatch(d: Draw, st: Store, scorer: Scorer, id: Uuid, current: Row, q: Patch, entry: Entry)
    requires Sound(d, st.rows) && id !in d.keys && NoneLinksIn(d, current) && LinksAround(d.keys, q)
    requires PrepareUpdate(id, current, q, entry).Ok?
    ensures SoundAfter(d, st.rows, UpdateTx(st, scorer, PrepareUpdate(id, current, q, entry).value))
  {
    var p := PrepareUpdate(id, current, q, entry).value;
    PreparedFor(id, current, q, entry);
    UpdateOutcome(st, scorer, p);
    if Passes(st, scorer, p) {
      OutsideRow(d, st.rows, id, WrittenRow(st, scorer, p));
    }
  }

  lemma OutsideWalkover(d: Draw, st: Store, id: Uuid, current: Row, winner: string, reason: string)
    requires Sound(d, st.rows) && id !in d.keys
    requires PrepareWalkover(id, current, winner, reason).Ok?
    ensures SoundAfter(d, st.rows, WalkoverTx(st, PrepareWalkover(id, current, winner, reason).value))
  {
    var p := PrepareWalkover(id, current, winner, reason).value;
    if id in st.rows {
      assert NoneLinksIn(d, st.rows[id]);
      OutsideRow(d, st.rows, id, WalkoverRow(st.rows[id], p.winner));
    }
  }

  lemma OutsideCancel(d: Draw, st: Store, id: Uuid, current: Row)
    requires Sound(d, st.rows) && id !in d.keys && PrepareCancel(current).Ok?
    ensures SoundAfter(d, st.rows, CancelTx(st, id, PrepareCancel(current).value))
  {
    if id in st.rows {
      assert NoneLinksIn(d, st.rows[id]);
      OutsideWrite(d, st.rows, id, st.rows[id].(status := Cancelled));
    }
  }

  // ---- inserts and resolutions ----

  /** A placeholder on the card of a bracket match is for a slot that already has its participant. */
  ghost predicate CardsFit(d: Draw, cards: Cards) {
    |d.keys| == |d.matches| && forall i | 0 <= i < |d.keys| && d.keys[i] in cards :: CardFits(d, cards[d.keys[i]], i)
  }

  ghost predicate CardFits(d: Draw, c: Card, i: int)
    requires 0 <= i < |d.matches|
  {
    (c.homeQualifier.Some? ==> d.matches[i].home != TBD) && (c.awayQualifier.Some? ==> d.matches[i].away != TBD)
  }

  lemma NothingOpen(d: Draw, rows: Rows, cards: Cards, i: nat)
    requires Sound(d, rows) && CardsFit(d, cards) && i < |d.keys| && d.keys[i] in cards
    ensures !Q.Writes(rows[d.keys[i]], cards[d.keys[i]])
  {
    var cells := Cells(d, rows);
    assert CardFits(d, cards[d.keys[i]], i);
    assert SlotOk(d, cells, i, 1) && SlotOk(d, cells, i, 2) && SlotShape(d, i, 1) && SlotShape(d, i, 2);
  }

  lemma ResolutionLeaves(d: Draw, rows: Rows, cards: Cards, t: Uuid, info: Option<Q.TournamentInfo>, ids: seq<Uuid>,
                         ranked: Q.Ranking, k: nat)
    requires Sound(d, rows) && CardsFit(d, cards) && Distinct(ids) && Q.Resolution(rows, cards, t, info, ids, ranked).Ok?
    requires k < |d.keys|
    ensures var after := Q.Resolution(rows, cards, t, info, ids, ranked).value.0;
            d.keys[k] in rows && d.keys[k] in after && after[d.keys[k]] == rows[d.keys[k]]
  {
    var ms := Q.QualifierMatches(rows, cards, t, ids);
    Q.QueriesSelect(rows, cards, t, ids);
    Q.MatchesArePresent(rows, cards, t, ids);
    Q.FillWrites(rows, cards, ms, |ms|, ranked, info.value.teams);
    var id := d.keys[k];
    assert id in rows;
    if id in ms {
      var i :| 0 <= i < |ms| && ms[i] == id;
      NothingOpen(d, rows, cards, k);
      assert Q.Filled(rows[ms[i]], cards[ms[i]], ranked, info.value.teams) == rows[id];
    }
  }

  /** Qualifier resolution, of whatever tournament, finds nothing to fill in the bracket. */
  lemma ResolutionKeeps(d: Draw, rows: Rows, cards: Cards, t: Uuid, info: Option<Q.TournamentInfo>, ids: seq<Uuid>, ranked: Q.Ranking)
    requires Sound(d, rows) && CardsFit(d, cards) && Distinct(ids) && Q.Resolution(rows, cards, t, info, ids, ranked).Ok?
    ensures var after := Q.Resolution(rows, cards, t, info, ids, ranked).value.0; Sound(d, after) && Grows(d, rows, after)
  {
    var after := Q.Resolution(rows, cards, t, info, ids, ranked).value.0;
    forall k | 0 <= k < |d.keys| ensures d.keys[k] in after && after[d.keys[k]] == rows[d.keys[k]] {
      ResolutionLeaves(d, rows, cards, t, info, ids, ranked, k);
    }
    Q.ResolutionFills(rows, cards, t, info, ids, ranked);
    FillsChange(d, rows, cards, after);
  }

  lemma FillsChange(d: Draw, rows: Rows, cards: Cards, after: Rows)
    requires Sound(d, rows) && Q.OnlyFills(rows, cards, after)
    requires forall k | 0 <= k < |d.keys| :: d.keys[k] in after && after[d.keys[k]] == rows[d.keys[k]]
    ensures Sound(d, after) && Grows(d, rows, after)
  {
    forall id | id in after && id !in d.keys ensures NoneLinksIn(d, after[id]) {
      assert id in rows && Q.FillsRow(rows[id], after[id]) && NoneLinksIn(d, rows[id]);
    }
    OthersChange(d, rows, after);
  }

  /** Generating the fixtures of another tournament adds rows that link among themselves. */
  lemma GenerationKeeps(d: Draw, st: Store, t: Uuid, teams: bool, plan: seq<PlannedMatch>, keys: seq<Uuid>)
    requires Sound(d, st.rows) && L.Generates(st, t, plan, keys)
    ensures var after := P.AddRows(st.rows, plan, t, teams, keys, |plan|); Sound(d, after) && Grows(d, st.rows, after)
  {
    var after := P.AddRows(st.rows, plan, t, teams, keys, |plan|);
    P.RowsAdded(st.rows, plan, t, teams, keys, |plan|);
    assert keys[..|plan|] == keys;
    forall id | id in after && id !in d.keys ensures NoneLinksIn(d, after[id]) {
      if id in keys {
        var i :| 0 <= i < |keys| && keys[i] == id;
        NewLinkIsFresh(d, st.rows, plan, t, teams, keys, i);
      } else {
        assert id in st.rows && NoneLinksIn(d, st.rows[id]);
      }
    }
    forall k | 0 <= k < |d.keys| ensures d.keys[k] in after && after[d.keys[k]] == st.rows[d.keys[k]] {
      var id := d.keys[k];
      assert id in st.rows;
    }
    OthersChange(d, st.rows, after);
  }

  lemma NewLinkIsFresh(d: Draw, rows: Rows, plan: seq<PlannedMatch>, t: Uuid, teams: bool, keys: seq<Uuid>, i: nat)
    requires Present(d, rows) && i < |keys| == |plan| && forall k | 0 <= k < |keys| :: keys[k] !in rows
    ensures NoneLinksIn(d, P.PlanRow(plan, t, teams, keys, i))
  {
    forall k | 0 <= k < |keys| ensures keys[k] !in d.keys {
      if keys[k] in d.keys {
        var j := KeyOf(d, keys[k]);
      }
    }
  }

  /** Cards of stored matches never change. */
  lemma CardsStay(st: Store, a: L.Action, id: Uuid)
    requires id in st.rows && id in L.CardsAfter(st, a)
    ensures id in st.cards && L.CardsAfter(st, a)[id] == st.cards[id]
  {
    if a.GenerateFixtures? && L.Generates(st, a.tournament, a.plan, a.keys) {
      P.CardsAdded(st.cards, a.plan, a.keys, |a.plan|);
      assert a.keys[..|a.plan|] == a.keys;
    }
  }

  lemma CardsStayFit(d: Draw, st: Store, a: L.Action)
    requires Present(d, st.rows) && CardsFit(d, st.cards)
    ensures CardsFit(d, L.CardsAfter(st, a))
  {
    forall i | 0 <= i < |d.keys| && d.keys[i] in L.CardsAfter(st, a) ensures CardFits(d, L.CardsAfter(st, a)[d.keys[i]], i) {
      CardsStay(st, a, d.keys[i]);
    }
  }

  // ---- runs ----

  /** The requests of a played bracket: links of its matches are not edited by hand, a PATCH of one of them commits
      only if it writes the sides the match has, and no other match is linked into it. */
  ghost predicate Orderly(d: Draw, h: L.History, scorer: Scorer, a: L.Action) {
    match a
    case PatchMatch(seen, id, patch, entry) =>
      if id in d.keys then patch.link.None? && (L.Outcome(h, scorer, a).Ok? ==> KeepsSides(h, seen, id, patch))
      else LinksAround(d.keys, patch)
    case CreateMatch(_, row, _) => NoneLinksIn(d, row)
    case _ => true
  }

  /** The PATCH, which read state seen, writes the sides that match id has now. */
  ghost predicate KeepsSides(h: L.History, seen: nat, id: Uuid, patch: Patch) {
    id in L.Seen(h, seen).rows && id in L.Last(h).rows && WritesSides(L.Seen(h, seen).rows[id], patch, L.Last(h).rows[id])
  }

  /** What a call that read the rows seen may rely on now. */
  ghost predicate Readable(d: Draw, seen: Rows, now: Rows) {
    && Present(d, seen) && Present(d, now)
    && (forall i | 0 <= i < |d.keys| :: Reading(d, i, seen[d.keys[i]], now[d.keys[i]]))
    && (forall id | id in seen && id !in d.keys :: NoneLinksIn(d, seen[id]))
  }

  /** The present state is sound, and every state so far can have been read. */
  ghost predicate Consistent(d: Draw, h: L.History) {
    Sound(d, L.Last(h).rows) && CardsFit(d, L.Last(h).cards) && forall k | 0 <= k < |h| :: Readable(d, h[k].rows, L.Last(h).rows)
  }

  lemma SoundIsReadable(d: Draw, rows: Rows)
    requires Sound(d, rows)
    ensures Readable(d, rows, rows)
  {
    forall i | 0 <= i < |d.keys| ensures Reading(d, i, rows[d.keys[i]], rows[d.keys[i]]) {
      SidesProper(d, rows, i);
    }
  }

  lemma ReadableLater(d: Draw, seen: Rows, now: Rows, later: Rows)
    requires Readable(d, seen, now) && Grows(d, now, later) && Present(d, later)
    ensures Readable(d, seen, later)
  {
    forall i | 0 <= i < |d.keys| ensures Reading(d, i, seen[d.keys[i]], later[d.keys[i]]) {
      GrowsAt(d, now, later, i);
      assert Reading(d, i, seen[d.keys[i]], now[d.keys[i]]);
    }
  }

  lemma SeenIsReadable(d: Draw, h: L.History, seen: nat)
    requires Consistent(d, h)
    ensures Readable(d, L.Seen(h, seen).rows, L.Last(h).rows)
  {
    assert Readable(d, h[|h|-1].rows, L.Last(h).rows);
    if seen < |h| { assert Readable(d, h[seen].rows, L.Last(h).rows); }
  }

  lemma KeyOf(d: Draw, id: Uuid) returns (i: nat)
    requires id in d.keys
    ensures i < |d.keys| && d.keys[i] == id
  {
    i :| 0 <= i < |d.keys| && d.keys[i] == id;
  }

  /** An orderly call keeps the bracket sound whatever earlier state it read. */
  lemma OrderlyCall(d: Draw, h: L.History, scorer: Scorer, a: L.Action)
    requires Consistent(d, h) && Orderly(d, h, scorer, a)
    ensures SoundAfter(d, L.Last(h).rows, L.Outcome(h, scorer, a))
    ensures L.IsCall(a) && a.id in d.keys ==> KeepsSound(d, L.Last(h).rows, a.id, L.Outcome(h, scorer, a))
  {
    if L.IsCall(a) {
      SeenIsReadable(d, h, a.seen);
      if a.id !in L.Seen(h, a.seen).rows {
      } else if a.id in d.keys {
        BracketCall(d, h, scorer, a);
      } else {
        OutsideCall(d, h, scorer, a);
      }
    } else {
      TableCall(d, h, scorer, a);
    }
  }

  lemma TableCall(d: Draw, h: L.History, scorer: Scorer, a: L.Action)
    requires Consistent(d, h) && Orderly(d, h, scorer, a) && !L.IsCall(a)
    ensures SoundAfter(d, L.Last(h).rows, L.Outcome(h, scorer, a))
  {
    var st := L.Last(h);
    assert Grows(d, st.rows, st.rows);
    match a {
      case CreateMatch(id, row, card) =>
        if L.Creates(st, id, row, card) {
          if id in d.keys { var i := KeyOf(d, id); }
          OutsideWrite(d, st.rows, id, row);
        }
      case GenerateFixtures(t, teams, plan, keys) =>
        if L.Generates(st, t, plan, keys) { GenerationKeeps(d, st, t, teams, plan, keys); }
      case ResolveQualifiers(t, info, ids, ranked) =>
        if Distinct(ids) && Q.Resolution(st.rows, st.cards, t, info, ids, ranked).Ok? {
          ResolutionKeeps(d, st.rows, st.cards, t, info, ids, ranked);
        }
      case _ =>
    }
  }

  lemma BracketCall(d: Draw, h: L.History, scorer: Scorer, a: L.Action)
    requires Orderly(d, h, scorer, a) && L.IsCall(a)
    requires Sound(d, L.Last(h).rows) && Readable(d, L.Seen(h, a.seen).rows, L.Last(h).rows)
    requires a.id in d.keys && a.id in L.Seen(h, a.seen).rows
    ensures KeepsSound(d, L.Last(h).rows, a.id, L.Outcome(h, scorer, a))
  {
    var st, current := L.Last(h), L.Seen(h, a.seen).rows[a.id];
    var i := KeyOf(d, a.id);
    assert Reading(d, i, current, st.rows[d.keys[i]]);
    match a {
      case PatchMatch(seen, id, patch, entry) =>
        if PrepareUpdate(id, current, patch, entry).Ok? { PatchCall(d, st, scorer, i, current, patch, entry); }
      case AwardWalkover(seen, id, winner, reason) =>
        if PrepareWalkover(id, current, winner, reason).Ok? { WalkoverCall(d, st, i, current, winner, reason); }
      case DeleteMatch(seen, id) =>
        if PrepareCancel(current).Ok? { CancelCall(d, st, i, current); }
    }
  }

  lemma OutsideCall(d: Draw, h: L.History, scorer: Scorer, a: L.Action)
    requires Orderly(d, h, scorer, a) && L.IsCall(a)
    requires Sound(d, L.Last(h).rows) && Readable(d, L.Seen(h, a.seen).rows, L.Last(h).rows)
    requires a.id !in d.keys && a.id in L.Seen(h, a.seen).rows
    ensures SoundAfter(d, L.Last(h).rows, L.Outcome(h, scorer, a))
  {
    var st, current := L.Last(h), L.Seen(h, a.seen).rows[a.id];
    match a {
      case PatchMatch(seen, id, patch, entry) =>
        if PrepareUpdate(id, current, patch, entry).Ok? { OutsidePatch(d, st, scorer, id, current, patch, entry); }
      case AwardWalkover(seen, id, winner, reason) =>
        if PrepareWalkover(id, current, winner, reason).Ok? { OutsideWalkover(d, st, id, current, winner, reason); }
      case DeleteMatch(seen, id) =>
        if PrepareCancel(current).Ok? { OutsideCancel(d, st, id, current); }
    }
  }

  /** The plan as InsertPlan stored it, into a table no other match of which links to it. */
  ghost predicate Opens(d: Draw, st: Store) {
    && IsDraw(d) && P.IsStored(d.matches, d.tournament, d.teams, d.keys, st.rows) && CardsFit(d, st.cards)
    && forall id | id in st.rows && id !in d.keys :: NoneLinksIn(d, st.rows[id])
  }

  lemma OpeningIsSound(d: Draw, st: Store)
    requires Opens(d, st)
    ensures Sound(d, st.rows) && Opening(d, Cells(d, st.rows))
  {
    forall i | 0 <= i < |d.keys|
      ensures d.keys[i] in st.rows && Linked(d, st.rows[d.keys[i]], i) && OpeningRow(d, st.rows[d.keys[i]], i)
    {
      StoredRow(d, st, i);
    }
    UnplayedIsSound(d, st.rows);
  }

  lemma StoredRow(d: Draw, st: Store, i: nat)
    requires Opens(d, st) && i < |d.keys|
    ensures |d.keys| == |d.matches| && d.keys[i] in st.rows && st.rows[d.keys[i]].status.Scheduled?
    ensures Linked(d, st.rows[d.keys[i]], i) && OpeningRow(d, st.rows[d.keys[i]], i)
  {
    assert P.RowOfMatch(d.matches, d.tournament, d.teams, d.keys, st.rows, i);
  }

  /** A bracket that is linked as planned and in which nothing was played is sound, with some matches cancelled or not. */
  lemma UnplayedIsSound(d: Draw, rows: Rows)
    requires IsDraw(d) && forall id | id in rows && id !in d.keys :: NoneLinksIn(d, rows[id])
    requires forall i | 0 <= i < |d.keys| ::
               d.keys[i] in rows && Linked(d, rows[d.keys[i]], i) && OpeningRow(d, rows[d.keys[i]], i)
    ensures Sound(d, rows) && Opening(d, Cells(d, rows))
  {
    DrawHasShape(d);
    var cells := Cells(d, rows);
    forall t | 0 <= t < |cells| ensures OpeningRow(d, cells[t], t) { assert cells[t] == rows[d.keys[t]]; }
    OpeningBoard(d, cells);
  }

  /** The bracket as stored, with nothing played in it; matches may have been cancelled. */
  ghost predicate Unplayed(d: Draw, rows: Rows, cards: Cards) {
    IsDraw(d) && Sound(d, rows) && Opening(d, Cells(d, rows)) && CardsFit(d, cards)
  }

  ghost predicate OrderlyFrom(d: Draw, start: Store, scorer: Scorer, actions: seq<L.Action>, k0: nat) {
    forall k | k0 <= k < |actions| :: Orderly(d, L.Trace(start, scorer, actions)[..k+1], scorer, actions[k])
  }

  /** The bracket is in play from state k0 of the run on: sound there, whatever was read before, and orderly since. */
  ghost predicate Plays(d: Draw, start: Store, scorer: Scorer, actions: seq<L.Action>, k0: nat) {
    && k0 <= |actions| && Consistent(d, L.Trace(start, scorer, actions)[..k0+1])
    && OrderlyFrom(d, start, scorer, actions, k0)
  }

  /** A stored plan is in play from the start. */
  lemma OpeningPlays(d: Draw, start: Store, scorer: Scorer, actions: seq<L.Action>)
    requires Opens(d, start) && OrderlyFrom(d, start, scorer, actions, 0)
    ensures Plays(d, start, scorer, actions, 0)
  {
    OpeningIsSound(d, start);
    SoundIsReadable(d, start.rows);
    assert L.Trace(start, scorer, actions)[..1] == [start];
  }

  lemma {:induction false} HistoriesStaySound(d: Draw, start: Store, scorer: Scorer, actions: seq<L.Action>, k0: nat, k: nat, h: L.History)
    requires Plays(d, start, scorer, actions, k0) && k0 <= k <= |actions| && h == L.Trace(start, scorer, actions)[..k+1]
    ensures Consistent(d, h)
    decreases k
  {
    if k > k0 {
      var j := k - 1;
      var before := L.Trace(start, scorer, actions)[..j+1];
      HistoriesStaySound(d, start, scorer, actions, k0, j, before);
      NextIsSound(d, start, scorer, actions, k0, j, before, h);
    } else {
      SameHistory(d, L.Trace(start, scorer, actions)[..k0+1], h);
    }
  }

  lemma SameHistory(d: Draw, a: L.History, b: L.History)
    requires Consistent(d, a) && a == b
    ensures Consistent(d, b)
  {
  }

  lemma NextIsSound(d: Draw, start: Store, scorer: Scorer, actions: seq<L.Action>, k0: nat, j: nat, before: L.History, h: L.History)
    requires OrderlyFrom(d, start, scorer, actions, k0) && k0 <= j < |actions|
    requires before == L.Trace(start, scorer, actions)[..j+1] && h == L.Trace(start, scorer, actions)[..j+2]
    requires Consistent(d, before)
    ensures Consistent(d, h)
  {
    L.HistoryStep(start, scorer, actions, j);
    StepStaysConsistent(d, before, scorer, actions[j]);
  }

  /** In every run from there, every state is sound, and filled sides and winners stay. */
  lemma RunsStaySound(d: Draw, start: Store, scorer: Scorer, actions: seq<L.Action>, k0: nat, k: nat)
    requires Plays(d, start, scorer, actions, k0) && k0 <= k <= |actions|
    ensures Consistent(d, L.Trace(start, scorer, actions)[..k+1])
  {
    HistoriesStaySound(d, start, scorer, actions, k0, k, L.Trace(start, scorer, actions)[..k+1]);
  }

  lemma StepStaysConsistent(d: Draw, h: L.History, scorer: Scorer, a: L.Action)
    requires Consistent(d, h) && Orderly(d, h, scorer, a)
    ensures Consistent(d, h + [L.Next(h, scorer, a)])
  {
    var next := L.Next(h, scorer, a);
    var after := h + [next];
    OrderlyCall(d, h, scorer, a);
    assert Sound(d, next.rows) && Grows(d, L.Last(h).rows, next.rows);
    CardsStayFit(d, L.Last(h), a);
    SoundIsReadable(d, next.rows);
    forall k | 0 <= k < |after| ensures Readable(d, after[k].rows, next.rows) {
      if k < |h| { ReadableLater(d, h[k].rows, L.Last(h).rows, next.rows); }
    }
  }

  // ---- what every run guarantees ----

  /** No match is live, completed or walked over with an empty side, in any state of any run;
      and a slot waiting for a winner holds exactly its one feeder's winner. */
  lemma SlotsFollowFeeders(d: Draw, start: Store, scorer: Scorer, actions: seq<L.Action>, k0: nat, k: nat, t: nat, s: int)
    requires Plays(d, start, scorer, actions, k0) && k0 <= k <= |actions|
    requires t < |d.matches| && (s == 1 || s == 2)
    ensures Present(d, L.Trace(start, scorer, actions)[k].rows)
    ensures SlotFollows(d, L.Trace(start, scorer, actions)[k].rows, t, s)
  {
    StateIsSound(d, start, scorer, actions, k0, k);
    SoundSlots(d, L.Trace(start, scorer, actions)[k].rows, t, s);
  }

  lemma StateIsSound(d: Draw, start: Store, scorer: Scorer, actions: seq<L.Action>, k0: nat, k: nat)
    requires Plays(d, start, scorer, actions, k0) && k0 <= k <= |actions|
    ensures Sound(d, L.Trace(start, scorer, actions)[k].rows)
  {
    RunsStaySound(d, start, scorer, actions, k0, k);
    LastIsSound(d, L.Trace(start, scorer, actions), k);
  }

  lemma LastIsSound(d: Draw, h: L.History, k: nat)
    requires k < |h| && Consistent(d, h[..k+1])
    ensures Sound(d, h[k].rows)
  {
  }

  ghost predicate SlotFollows(d: Draw, rows: Rows, t: nat, s: int)
    requires Present(d, rows) && t < |d.matches|
  {
    var row := rows[d.keys[t]];
    && (!row.status.Scheduled? && !row.status.Cancelled? ==> BothFilled(row))
    && (SlotOf(d.matches[t], s).Concrete? ==> SideAt(row, s) == P.SideFor(d.teams, SlotOf(d.matches[t], s).id))
    && (forall i | 0 <= i < |d.matches| && Feeds(d.matches, i, t, s) && SlotOf(d.matches[t], s) == TBD ::
          SideAt(row, s) == rows[d.keys[i]].winner)
  }

  lemma SoundSlots(d: Draw, rows: Rows, t: nat, s: int)
    requires Sound(d, rows) && t < |d.matches| && (s == 1 || s == 2)
    ensures SlotFollows(d, rows, t, s)
  {
    var cells := Cells(d, rows);
    assert CellOk(cells[t]) && SlotOk(d, cells, t, s);
    forall i | 0 <= i < |d.matches| && Feeds(d.matches, i, t, s) && SlotOf(d.matches[t], s) == TBD
      ensures SideAt(cells[t], s) == cells[i].winner
    {
      assert Edge(d, i, t, s);
    }
  }

  // ---- exactly when a result is refused downstream ----

  /** The update of a completing PATCH carries a winner and passes all guards on its own match. */
  ghost predicate UpdateDecides(st: Store, scorer: Scorer, p: Update) {
    p.status.Completed? && p.winner != VACANT && Passes(st, scorer, p)
  }

  ghost predicate WalkoverPasses(st: Store, p: WalkoverParams) {
    p.tournament in st.ongoing && p.id in st.rows && st.rows[p.id].status == p.expected
  }

  /** The call has a winner to write, and nothing on its own match refuses it. */
  ghost predicate Decides(h: L.History, scorer: Scorer, a: L.Action) {
    match a
    case PatchMatch(seen, id, q, entry) =>
      && id in L.Seen(h, seen).rows && PrepareUpdate(id, L.Seen(h, seen).rows[id], q, entry).Ok?
      && UpdateDecides(L.Last(h), scorer, PrepareUpdate(id, L.Seen(h, seen).rows[id], q, entry).value)
    case AwardWalkover(seen, id, winner, reason) =>
      && id in L.Seen(h, seen).rows && PrepareWalkover(id, L.Seen(h, seen).rows[id], winner, reason).Ok?
      && WalkoverPasses(L.Last(h), PrepareWalkover(id, L.Seen(h, seen).rows[id], winner, reason).value)
    case _ => false
  }

  lemma PatchLockedIff(d: Draw, st: Store, scorer: Scorer, i: nat, current: Row, q: Patch, entry: Entry)
    requires Read(d, st.rows, i, current) && q.link.None? && PrepareUpdate(d.keys[i], current, q, entry).Ok?
    ensures var p := PrepareUpdate(d.keys[i], current, q, entry).value;
            UpdateTx(st, scorer, p) == Err(DownstreamLocked) <==>
              UpdateDecides(st, scorer, p) && SuccessorCancelled(st.rows, d.keys[i])
  {
    var id := d.keys[i];
    var p := PrepareUpdate(id, current, q, entry).value;
    PreparedFor(id, current, q, entry);
    UpdateOutcome(st, scorer, p);
    if Passes(st, scorer, p) && p.status.Completed? {
      var c := WrittenRow(st, scorer, p);
      PatchLinked(d, st.rows, i, current, q, entry, c.homeScore, c.awayScore);
      if Decided(c) { RefusedIffCancelled(d, st.rows, i, c); }
    }
  }

  lemma WalkoverLockedIff(d: Draw, st: Store, i: nat, current: Row, winner: string, reason: string)
    requires Read(d, st.rows, i, current) && PrepareWalkover(d.keys[i], current, winner, reason).Ok?
    ensures var p := PrepareWalkover(d.keys[i], current, winner, reason).value;
            WalkoverTx(st, p) == Err(DownstreamLocked) <==> WalkoverPasses(st, p) && SuccessorCancelled(st.rows, d.keys[i])
  {
    var id := d.keys[i];
    var p := PrepareWalkover(id, current, winner, reason).value;
    if WalkoverPasses(st, p) {
      SidesProper(d, st.rows, i);
      assert Linked(d, st.rows[id], i);
      WriteResult(d, st.rows, i, WalkoverRow(st.rows[id], p.winner));
      PropagateErrors(st.rows[id := WalkoverRow(st.rows[id], p.winner)], WalkoverRow(st.rows[id], p.winner));
    }
  }

  /** A call is refused downstream exactly when it has a winner to write and the successor was cancelled; the other
      bracket errors never occur. */
  lemma BlockedOnlyByCancellation(d: Draw, start: Store, scorer: Scorer, actions: seq<L.Action>, k0: nat, a: L.Action)
    requires Plays(d, start, scorer, actions, k0) && Orderly(d, L.Trace(start, scorer, actions), scorer, a)
    requires L.IsCall(a) && a.id in d.keys
    ensures var h := L.Trace(start, scorer, actions);
            var r := L.Outcome(h, scorer, a);
            && (r == Err(DownstreamLocked) <==> Decides(h, scorer, a) && SuccessorCancelled(L.Last(h).rows, a.id))
            && r != Err(NextMatchNotFound) && r != Err(BracketInconsistent) && r != Err(InvalidNextSlot)
  {
    WholeRunSound(d, start, scorer, actions, k0);
    OrderlyCall(d, L.Trace(start, scorer, actions), scorer, a);
    CallLockedIff(d, L.Trace(start, scorer, actions), scorer, a);
  }

  lemma CallLockedIff(d: Draw, h: L.History, scorer: Scorer, a: L.Action)
    requires Consistent(d, h) && Orderly(d, h, scorer, a) && L.IsCall(a) && a.id in d.keys
    ensures L.Outcome(h, scorer, a) == Err(DownstreamLocked) <==> Decides(h, scorer, a) && SuccessorCancelled(L.Last(h).rows, a.id)
  {
    SeenIsReadable(d, h, a.seen);
    if a.id in L.Seen(h, a.seen).rows {
      var st, current := L.Last(h), L.Seen(h, a.seen).rows[a.id];
      var i := KeyOf(d, a.id);
      assert Reading(d, i, current, st.rows[d.keys[i]]);
      match a {
        case PatchMatch(seen, id, q, entry) =>
          if PrepareUpdate(id, current, q, entry).Ok? { PatchLockedIff(d, st, scorer, i, current, q, entry); }
        case AwardWalkover(seen, id, winner, reason) =>
          if PrepareWalkover(id, current, winner, reason).Ok? { WalkoverLockedIff(d, st, i, current, winner, reason); }
        case DeleteMatch(seen, id) =>
      }
    }
  }

  ghost predicate NoneCancelled(d: Draw, rows: Rows) {
    Present(d, rows) && forall i | 0 <= i < |d.keys| :: !rows[d.keys[i]].status.Cancelled?
  }

  /** No call from k0 on asks for the cancellation of a bracket match. */
  ghost predicate NobodyCancels(d: Draw, actions: seq<L.Action>, k0: nat) {
    forall k, i | k0 <= k < |actions| && 0 <= i < |d.keys| :: !L.Cancels(actions[k], d.keys[i])
  }

  lemma {:induction false} StaysUncancelled(d: Draw, start: Store, scorer: Scorer, actions: seq<L.Action>, k0: nat, k: nat)
    requires k0 <= k <= |actions| && NobodyCancels(d, actions, k0) && NoneCancelled(d, L.Trace(start, scorer, actions)[k0].rows)
    ensures NoneCancelled(d, L.Trace(start, scorer, actions)[k].rows)
    decreases k
  {
    if k > k0 {
      var j := k - 1;
      StaysUncancelled(d, start, scorer, actions, k0, j);
      L.HistoryStep(start, scorer, actions, j);
      var h := L.Trace(start, scorer, actions);
      forall i | 0 <= i < |d.keys| ensures d.keys[i] in h[k].rows && !h[k].rows[d.keys[i]].status.Cancelled? {
        assert !h[j].rows[d.keys[i]].status.Cancelled? && !L.Cancels(actions[j], d.keys[i]);
        L.OnlyCancelsCancel(h[..j+1], scorer, actions[j], d.keys[i]);
      }
    }
  }

  /** So in a run without cancellations no result is ever refused downstream. */
  lemma NeverBlocked(d: Draw, start: Store, scorer: Scorer, actions: seq<L.Action>, k0: nat, a: L.Action)
    requires Plays(d, start, scorer, actions, k0) && Orderly(d, L.Trace(start, scorer, actions), scorer, a)
    requires NoneCancelled(d, L.Trace(start, scorer, actions)[k0].rows) && NobodyCancels(d, actions, k0)
    requires L.IsCall(a) && a.id in d.keys
    ensures L.Outcome(L.Trace(start, scorer, actions), scorer, a) != Err(DownstreamLocked)
  {
    BlockedOnlyByCancellation(d, start, scorer, actions, k0, a);
    StaysUncancelled(d, start, scorer, actions, k0, |actions|);
    WholeRunSound(d, start, scorer, actions, k0);
    NoSuccessorCancelled(d, L.Last(L.Trace(start, scorer, actions)).rows, a.id);
  }

  lemma NoSuccessorCancelled(d: Draw, rows: Rows, id: Uuid)
    requires Sound(d, rows) && NoneCancelled(d, rows) && id in d.keys
    ensures !SuccessorCancelled(rows, id)
  {
    var i := KeyOf(d, id);
    assert Linked(d, rows[d.keys[i]], i);
  }

  lemma WholeRunSound(d: Draw, start: Store, scorer: Scorer, actions: seq<L.Action>, k0: nat)
    requires Plays(d, start, scorer, actions, k0)
    ensures Consistent(d, L.Trace(start, scorer, actions))
  {
    RunsStaySound(d, start, scorer, actions, k0, |actions|);
    assert L.Trace(start, scorer, actions)[..|actions|+1] == L.Trace(start, scorer, actions);
  }

  ghost predicate AllDecided(d: Draw, rows: Rows) {
    Present(d, rows) && forall i | 0 <= i < |d.keys| :: Decided(rows[d.keys[i]])
  }

  /** Once all n - 1 matches have a winner there is one champion; everybody else has lost exactly once. */
  lemma RunCrownsOneChampion(d: Draw, start: Store, scorer: Scorer, actions: seq<L.Action>, k0: nat, k: nat) returns (champion: int)
    requires Plays(d, start, scorer, actions, k0) && k0 <= k <= |actions|
    requires AllDecided(d, L.Trace(start, scorer, actions)[k].rows)
    ensures Crowned(d, Cells(d, L.Trace(start, scorer, actions)[k].rows), champion)
    ensures |d.keys| == |d.entrants| - 1
  {
    StateIsSound(d, start, scorer, actions, k0, k);
    champion := SoundCrownsOne(d, L.Trace(start, scorer, actions)[k].rows);
  }

  lemma SoundCrownsOne(d: Draw, rows: Rows) returns (champion: int)
    requires Sound(d, rows) && AllDecided(d, rows)
    ensures Crowned(d, Cells(d, rows), champion) && |d.keys| == |d.entrants| - 1
  {
    var cells := Cells(d, rows);
    forall t | 0 <= t < |cells| ensures Decided(cells[t]) {
      assert cells[t] == rows[d.keys[t]];
    }
    champion := OneChampion(d, cells);
  }

  /** Seed protection over runs: two of the top 2^k seeds never meet before the last k rounds, whoever wins. */
  lemma RunsProtectSeeds(d: Draw, start: Store, scorer: Scorer, actions: seq<L.Action>, k0: nat, j: nat, k: nat, t: nat, l: int, l': int)
    requires IsDraw(d) && Plays(d, start, scorer, actions, k0) && k0 <= j <= |actions| && t < |d.matches| && k <= d.m
    requires Entrant(d, l) && Entrant(d, l') && l != l' && l <= Pow2(k) && l' <= Pow2(k)
    requires var rows := L.Trace(start, scorer, actions)[j].rows;
             && d.keys[t] in rows
             && (rows[d.keys[t]].home == SideOf(d, l) || rows[d.keys[t]].away == SideOf(d, l))
             && (rows[d.keys[t]].home == SideOf(d, l') || rows[d.keys[t]].away == SideOf(d, l'))
    ensures d.matches[t].roundNumber - d.offset > d.m - k
  {
    StateIsSound(d, start, scorer, actions, k0, j);
    SeedsMeetLate(d, L.Trace(start, scorer, actions)[j].rows, k, t, l, l');
  }

  lemma SeedsMeetLate(d: Draw, rows: Rows, k: nat, t: nat, l: int, l': int)
    requires IsDraw(d) && Sound(d, rows) && t < |d.matches| && k <= d.m
    requires Entrant(d, l) && Entrant(d, l') && l != l' && l <= Pow2(k) && l' <= Pow2(k)
    requires rows[d.keys[t]].home == SideOf(d, l) || rows[d.keys[t]].away == SideOf(d, l)
    requires rows[d.keys[t]].home == SideOf(d, l') || rows[d.keys[t]].away == SideOf(d, l')
    ensures d.matches[t].roundNumber - d.offset > d.m - k
  {
    var cells := Cells(d, rows);
    assert cells[t] == rows[d.keys[t]];
    TopSeedsMeetLateInPlay(d, cells, k, t, l, l');
  }

  /** No match of the bracket was cancelled, abandoned or drawn. */
  ghost predicate NoneStuck(d: Draw, rows: Rows) {
    Present(d, rows) && forall t | 0 <= t < |d.keys| :: !Stuck(rows[d.keys[t]])
  }

  /** No deadlock: while the tournament is ongoing and no match was cancelled, abandoned or drawn, an undecided
      bracket always has a match whose walkover commits, whichever side it goes to, and afterwards again no match
      is stuck. */
  lemma PlayCanContinue(d: Draw, h: L.History, scorer: Scorer) returns (i: nat)
    requires Consistent(d, h) && d.tournament in L.Last(h).ongoing && NoneStuck(d, L.Last(h).rows)
    requires exists t :: 0 <= t < |d.keys| && !Decided(L.Last(h).rows[d.keys[t]])
    ensures i < |d.keys| && Playable(L.Last(h).rows[d.keys[i]])
    ensures WalkoverDecides(d, h, scorer, i, "home") && WalkoverDecides(d, h, scorer, i, "away")
  {
    var st := L.Last(h);
    var cells := Cells(d, st.rows);
    forall t | 0 <= t < |cells| ensures cells[t] == st.rows[d.keys[t]] {}
    var t0 :| 0 <= t0 < |d.keys| && !Decided(st.rows[d.keys[t0]]);
    assert !Decided(cells[t0]);
    i := SomeMatchIsPlayable(d, cells);
    WalkoverCommits(d, h, scorer, i, "home");
    WalkoverCommits(d, h, scorer, i, "away");
  }

  ghost predicate Playable(c: Row) { !Decided(c) && BothFilled(c) && (c.status.Scheduled? || c.status.Live?) }

  ghost function WalkoverFor(d: Draw, h: L.History, i: nat, side: string): L.Action
    requires i < |d.keys|
  {
    L.AwardWalkover(|h| - 1, d.keys[i], side, "no show")
  }

  /** The walkover commits, the named side wins, and nothing else is decided or stuck by it. */
  ghost predicate WalkoverDecides(d: Draw, h: L.History, scorer: Scorer, i: nat, side: string) {
    && i < |d.keys| && Present(d, L.Last(h).rows) && (side == "home" || side == "away")
    && var a := WalkoverFor(d, h, i, side);
       var after := L.Next(h, scorer, a).rows;
       && Orderly(d, h, scorer, a) && L.Outcome(h, scorer, a).Ok? && Present(d, after) && NoneStuck(d, after)
       && after[d.keys[i]].winner == (if side == "home" then L.Last(h).rows[d.keys[i]].home else L.Last(h).rows[d.keys[i]].away)
       && Decided(after[d.keys[i]])
       && (forall t | 0 <= t < |d.keys| && t != i ::
             after[d.keys[t]].winner == L.Last(h).rows[d.keys[t]].winner && after[d.keys[t]].status == L.Last(h).rows[d.keys[t]].status)
  }

  lemma WalkoverCommits(d: Draw, h: L.History, scorer: Scorer, i: nat, side: string)
    requires Consistent(d, h) && d.tournament in L.Last(h).ongoing && NoneStuck(d, L.Last(h).rows) && i < |d.keys|
    requires Playable(L.Last(h).rows[d.keys[i]]) && (side == "home" || side == "away")
    ensures WalkoverDecides(d, h, scorer, i, side)
  {
    var st, id := L.Last(h), d.keys[i];
    var p, r := WalkoverOutcome(d, st, i, side);
    assert L.Seen(h, |h| - 1) == st;
    assert L.Outcome(h, scorer, WalkoverFor(d, h, i, side)) == Ok(r);
    assert L.Next(h, scorer, WalkoverFor(d, h, i, side)).rows == r;
  }

  lemma WalkoverOutcome(d: Draw, st: Store, i: nat, side: string) returns (p: WalkoverParams, r: Rows)
    requires Sound(d, st.rows) && d.tournament in st.ongoing && NoneStuck(d, st.rows) && i < |d.keys|
    requires Playable(st.rows[d.keys[i]]) && (side == "home" || side == "away")
    ensures PrepareWalkover(d.keys[i], st.rows[d.keys[i]], side, "no show") == Ok(p) && WalkoverTx(st, p) == Ok(r)
    ensures NoneStuck(d, r)
    ensures r[d.keys[i]].winner == (if side == "home" then st.rows[d.keys[i]].home else st.rows[d.keys[i]].away) != VACANT
    ensures forall t | 0 <= t < |d.keys| && t != i ::
              r[d.keys[t]].winner == st.rows[d.keys[t]].winner && r[d.keys[t]].status == st.rows[d.keys[t]].status
  {
    var id := d.keys[i];
    var current := st.rows[id];
    SidesProper(d, st.rows, i);
    assert Linked(d, current, i);
    p := PrepareWalkover(id, current, side, "no show").value;
    var row := WalkoverRow(current, p.winner);
    WriteResult(d, st.rows, i, row);
    PropagateErrors(st.rows[id := row], row);
    SuccessorOpen(d, st.rows, i);
    r := WalkoverTx(st, p).value;
    forall t | 0 <= t < |d.keys|
      ensures d.keys[t] in r && r[d.keys[t]].winner == (if t == i then p.winner else st.rows[d.keys[t]].winner)
      ensures !Stuck(r[d.keys[t]]) && (t != i ==> r[d.keys[t]].status == st.rows[d.keys[t]].status)
    {
      PropagateKeeps(st.rows[id := row], row, d.keys[t]);
    }
  }

  lemma SuccessorOpen(d: Draw, rows: Rows, i: nat)
    requires Sound(d, rows) && i < |d.keys| && NoneStuck(d, rows)
    ensures !SuccessorCancelled(rows, d.keys[i])
  {
    assert Linked(d, rows[d.keys[i]], i);
    if d.matches[i].nextMatchIndex.Some? {
      var next := d.matches[i].nextMatchIndex.value;
      SidesProper(d, rows, next);
      assert !Stuck(rows[d.keys[next]]);
    }
  }

  lemma PropagateErrors(rows: Rows, feeder: Row)
    ensures var r := Propagate(rows, feeder);
            r.Err? ==> r.error.DownstreamLocked? || r.error.NextMatchNotFound? || r.error.BracketInconsistent? || r.error.InvalidNextSlot?
  {
  }

  lemma PropagateKeeps(rows: Rows, feeder: Row, id: Uuid)
    requires Propagate(rows, feeder).Ok? && id in rows
    ensures id in Propagate(rows, feeder).value && Propagate(rows, feeder).value[id].winner == rows[id].winner
    ensures Propagate(rows, feeder).value[id].status == rows[id].status
  {
  }

  // ---- every entrant can win ----

  ghost function Undecided(d: Draw, rows: Rows): set<int>
    requires Present(d, rows)
  {
    set t | 0 <= t < |d.keys| && !Decided(rows[d.keys[t]])
  }

  /** Seed l has not lost yet. */
  ghost predicate StillIn(d: Draw, rows: Rows, l: int)
    requires Present(d, rows) && Entrant(d, l)
  {
    forall t :: !Lost(Cells(d, rows), t, SideOf(d, l))
  }

  /** A walkover that seed l wins if he plays in the match. */
  ghost function Favouring(d: Draw, row: Row, l: int): string
    requires Entrant(d, l)
  {
    if row.away == SideOf(d, l) then "away" else "home"
  }

  lemma FavouredStaysIn(d: Draw, h: L.History, scorer: Scorer, i: nat, l: int)
    requires Consistent(d, h) && Entrant(d, l) && Present(d, L.Last(h).rows) && StillIn(d, L.Last(h).rows, l) && i < |d.keys|
    requires WalkoverDecides(d, h, scorer, i, Favouring(d, L.Last(h).rows[d.keys[i]], l)) && Playable(L.Last(h).rows[d.keys[i]])
    ensures Present(d, L.Next(h, scorer, WalkoverFor(d, h, i, Favouring(d, L.Last(h).rows[d.keys[i]], l))).rows)
    ensures StillIn(d, L.Next(h, scorer, WalkoverFor(d, h, i, Favouring(d, L.Last(h).rows[d.keys[i]], l))).rows, l)
  {
    var a := WalkoverFor(d, h, i, Favouring(d, L.Last(h).rows[d.keys[i]], l));
    var rows, after := L.Last(h).rows, L.Next(h, scorer, a).rows;
    OrderlyCall(d, h, scorer, a);
    StaysIn(d, rows, after, i, l);
  }

  lemma StaysIn(d: Draw, rows: Rows, after: Rows, i: nat, l: int)
    requires Sound(d, rows) && Sound(d, after) && Grows(d, rows, after) && Entrant(d, l) && StillIn(d, rows, l) && i < |d.keys|
    requires after[d.keys[i]].winner == if rows[d.keys[i]].away == SideOf(d, l) then rows[d.keys[i]].away else rows[d.keys[i]].home
    requires BothFilled(rows[d.keys[i]])
    requires forall t | 0 <= t < |d.keys| && t != i :: after[d.keys[t]].winner == rows[d.keys[t]].winner
    ensures StillIn(d, after, l)
  {
    var cells, cells' := Cells(d, rows), Cells(d, after);
    forall t ensures !Lost(cells', t, SideOf(d, l)) {
      if 0 <= t < |cells'| {
        GrowsAt(d, rows, after, t);
        assert cells[t] == rows[d.keys[t]] && cells'[t] == after[d.keys[t]];
        assert !Lost(cells, t, SideOf(d, l)) && CellOk(cells[t]);
      }
    }
  }

  /** From every state in play, with the tournament ongoing and no match stuck, play can be completed, and every
      entrant who has not lost yet can become the champion. */
  lemma {:induction false} EveryEntrantCanWin(d: Draw, start: Store, scorer: Scorer, actions: seq<L.Action>, k0: nat, l: int)
    returns (more: seq<L.Action>)
    requires Plays(d, start, scorer, actions, k0) && Entrant(d, l)
    requires CanWin(d, L.Last(L.Trace(start, scorer, actions)), l)
    ensures Plays(d, start, scorer, actions + more, k0)
    ensures WonBy(d, L.Last(L.Trace(start, scorer, actions + more)).rows, l)
    decreases |Undecided(d, L.Last(L.Trace(start, scorer, actions)).rows)|
  {
    var h := L.Trace(start, scorer, actions);
    WholeRunSound(d, start, scorer, actions, k0);
    if AllDecided(d, L.Last(h).rows) {
      more := [];
      assert actions + more == actions;
      ChampionIs(d, L.Last(h).rows, l);
    } else {
      var a := NextWalkover(d, h, scorer, l);
      ExtendRun(d, start, scorer, actions, k0, a);
      assert L.Last(L.Trace(start, scorer, actions + [a])) == L.Next(h, scorer, a);
      var rest := EveryEntrantCanWin(d, start, scorer, actions + [a], k0, l);
      more := [a] + rest;
      OneThenMore(actions, a, rest);
    }
  }

  lemma OneThenMore(actions: seq<L.Action>, a: L.Action, rest: seq<L.Action>)
    ensures actions + ([a] + rest) == actions + [a] + rest
  {
  }

  /** The tournament is ongoing, no match is stuck, and seed l has not lost. */
  ghost predicate CanWin(d: Draw, st: Store, l: int)
    requires Entrant(d, l)
  {
    d.tournament in st.ongoing && NoneStuck(d, st.rows) && StillIn(d, st.rows, l)
  }

  ghost predicate WonBy(d: Draw, rows: Rows, l: int) {
    AllDecided(d, rows) && Crowned(d, Cells(d, rows), l)
  }

  lemma NextWalkover(d: Draw, h: L.History, scorer: Scorer, l: int) returns (a: L.Action)
    requires Consistent(d, h) && Entrant(d, l) && CanWin(d, L.Last(h), l) && !AllDecided(d, L.Last(h).rows)
    ensures Orderly(d, h, scorer, a) && CanWin(d, L.Next(h, scorer, a), l)
    ensures |Undecided(d, L.Next(h, scorer, a).rows)| < |Undecided(d, L.Last(h).rows)|
  {
    var rows := L.Last(h).rows;
    var i := PlayCanContinue(d, h, scorer);
    a := WalkoverFor(d, h, i, Favouring(d, rows[d.keys[i]], l));
    FavouredStaysIn(d, h, scorer, i, l);
    OneDecided(d, rows, L.Next(h, scorer, a).rows, i);
  }

  lemma OneDecided(d: Draw, rows: Rows, after: Rows, i: nat)
    requires Present(d, rows) && Present(d, after) && i < |d.keys| && !Decided(rows[d.keys[i]]) && Decided(after[d.keys[i]])
    requires forall t | 0 <= t < |d.keys| && t != i :: after[d.keys[t]].winner == rows[d.keys[t]].winner
    ensures |Undecided(d, after)| < |Undecided(d, rows)|
  {
    var k: int := i;
    assert k in Undecided(d, rows);
    assert Undecided(d, after) == Undecided(d, rows) - {k};
  }

  lemma ChampionIs(d: Draw, rows: Rows, l: int)
    requires Sound(d, rows) && AllDecided(d, rows) && Entrant(d, l) && StillIn(d, rows, l)
    ensures WonBy(d, rows, l)
  {
    var champion := SoundCrownsOne(d, rows);
    assert champion != l ==> LosesOnce(Cells(d, rows), SideOf(d, l));
  }

  lemma ExtendRun(d: Draw, start: Store, scorer: Scorer, actions: seq<L.Action>, k0: nat, a: L.Action)
    requires Plays(d, start, scorer, actions, k0) && Orderly(d, L.Trace(start, scorer, actions), scorer, a)
    ensures Plays(d, start, scorer, actions + [a], k0)
    ensures L.Trace(start, scorer, actions + [a]) == L.Trace(start, scorer, actions) + [L.Next(L.Trace(start, scorer, actions), scorer, a)]
  {
    var h, more := L.Trace(start, scorer, actions), actions + [a];
    assert more[..|more|-1] == actions;
    var h' := L.Trace(start, scorer, more);
    assert h' == h + [L.Next(h, scorer, a)];
    assert h'[..k0+1] == h[..k0+1];
    forall k | k0 <= k < |more| ensures Orderly(d, h'[..k+1], scorer, more[k]) {
      assert h'[..k+1] == h[..k+1];
      if k < |actions| { assert Orderly(d, h[..k+1], scorer, actions[k]); } else { assert h[..k+1] == h; }
    }
  }

  /** At the opening nobody has lost and nothing is stuck. */
  lemma OpeningIsOpen(d: Draw, st: Store, l: int)
    requires Opens(d, st) && Entrant(d, l)
    ensures NoneStuck(d, st.rows) && StillIn(d, st.rows, l)
  {
    OpeningIsSound(d, st);
    var cells := Cells(d, st.rows);
    forall t | 0 <= t < |cells| ensures !Decided(cells[t]) && st.rows[d.keys[t]].status.Scheduled? {
      StoredRow(d, st, t);
    }
  }

  /** So a stored knockout of an ongoing tournament can be played to the end, with any entrant as champion. */
  lemma AnyoneCanWin(d: Draw, start: Store, scorer: Scorer, l: int) returns (actions: seq<L.Action>)
    requires Opens(d, start) && d.tournament in start.ongoing && Entrant(d, l)
    ensures Plays(d, start, scorer, actions, 0) && WonBy(d, L.Last(L.Trace(start, scorer, actions)).rows, l)
  {
    OpeningPlays(d, start, scorer, []);
    OpeningIsOpen(d, start, l);
    var more := EveryEntrantCanWin(d, start, scorer, [], 0, l);
    actions := [] + more;
  }
}
