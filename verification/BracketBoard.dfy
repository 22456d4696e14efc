// A stored knockout bracket as a board of matches by plan index, and what every
// result played on it keeps (backend/internal/fixtures/knockout.go, lines 31-129;
// backend/internal/matches/repository.go, lines 590-668).

module BracketBoard {
  import opened FixtureModels
  import opened SeedSlots
  import B = Bracket
  import opened BracketTree
  import K = Knockout
  import opened MatchStore
  import P = PlanInsertion

  /** A knockout plan over entrants in seed order, its rounds numbered after offset, with the node of each
      match, as stored for one tournament. */
  datatype Draw = Draw(
    entrants: seq<string>, m: nat, offset: int, matches: seq<PlannedMatch>, nodes: seq<B.Node>, teams: bool, tournament: Uuid, keys: seq<Uuid>)

  ghost predicate IsDraw(d: Draw) {
    && Distinct(d.entrants) && Distinct(d.keys) && |d.keys| == |d.matches|
    && K.IsKnockout(K.Entries(d.entrants), d.m, d.offset, d.matches, d.nodes)
  }

  // ---- the shape of the draw ----

  ghost predicate Edge(d: Draw, i: int, t: int, s: int) {
    Feeds(d.matches, i, t, s)
  }

  /** Match i feeds a TBD slot of a later match, its parent in the tree. */
  ghost predicate EdgeTo(d: Draw, i: int, t: int, s: int) {
    && Edge(d, i, t, s) && 0 <= i < t < |d.nodes| && SlotOf(d.matches[t], s) == TBD
    && d.nodes[t] == (d.nodes[i].0 + 1, d.nodes[i].1 / 2)
  }

  ghost predicate HasEdge(d: Draw, i: int) {
    exists t, s :: EdgeTo(d, i, t, s)
  }

  ghost predicate Entrant(d: Draw, l: int) { 1 <= l <= |d.entrants| }

  ghost function RefOf(d: Draw, l: int): SlotRef
    requires Entrant(d, l)
  {
    Concrete(d.entrants[l - 1])
  }

  /** The participant columns of seed l. */
  ghost function SideOf(d: Draw, l: int): Side
    requires Entrant(d, l)
  {
    P.SideFor(d.teams, d.entrants[l - 1])
  }

  /** The leaf of seed l lies below the node of match t. */
  ghost predicate Below(d: Draw, t: int, l: int)
    requires 0 <= t < |d.nodes|
  {
    d.nodes[t].0 >= 0 && InBlock(LabelPosition(d.m, l), d.nodes[t].0, d.nodes[t].1)
  }

  ghost predicate SlotFilled(d: Draw, t: int, s: int, l: int)
    requires Entrant(d, l)
  {
    Holds(d.matches, t, s, RefOf(d, l))
  }

  ghost predicate SlotShape(d: Draw, t: int, s: int) {
    0 <= t < |d.matches| && (SlotOf(d.matches[t], s) == TBD || exists l :: Entrant(d, l) && SlotFilled(d, t, s, l))
  }

  ghost predicate Fed(d: Draw) {
    forall t, s | 0 <= t < |d.matches| && (s == 1 || s == 2) :: SlotOf(d.matches[t], s) == TBD ==> HasFeeder(d.matches, t, s)
  }

  ghost predicate Shape(d: Draw) {
    && Fed(d)
    && |d.matches| == |d.nodes| > 0 && |d.entrants| == |d.matches| + 1
    && (forall i | 0 <= i < |d.matches| - 1 :: HasEdge(d, i))
    && d.matches[|d.matches|-1].nextMatchIndex == None
    && (forall i, k, t, s | Edge(d, i, t, s) && Edge(d, k, t, s) :: i == k)
    && (forall t, s | 0 <= t < |d.matches| && (s == 1 || s == 2) :: SlotShape(d, t, s))
    && (forall l | Entrant(d, l) :: PlacedOnce(d.matches, RefOf(d, l)))
    && (forall l, t, s | Entrant(d, l) && SlotFilled(d, t, s, l) :: Below(d, t, l))
    && Distinct(d.entrants)
  }

  lemma DrawEdge(d: Draw, i: nat) returns (t: int, s: int)
    requires IsDraw(d) && i < |d.matches| - 1
    ensures EdgeTo(d, i, t, s)
  {
    var leaves := K.FieldLeaves(K.Entries(d.entrants), d.m);
    EdgeGoesForward(leaves, d.m, d.offset, d.matches, d.nodes, i);
    t, s := d.matches[i].nextMatchIndex.value, d.matches[i].nextSlot.value;
    assert Edge(d, i, t, s);
  }

  lemma DrawPlace(d: Draw, l: int, t: int, s: int)
    requires IsDraw(d) && Entrant(d, l) && SlotFilled(d, t, s, l)
    ensures |d.nodes| == |d.matches| && Below(d, t, l)
  {
    var refs := K.Entries(d.entrants);
    var p := LabelPosition(d.m, l);
    EntriesDiffer(d);
    K.FieldDistinct(refs, d.m);
    K.SeedLeaf(refs, d.m, l);
    HolderIsPlace(K.FieldLeaves(refs, d.m), d.m, d.offset, d.matches, d.nodes, p, t, s);
    PlaceAbove(p);
  }

  /** A place is above its leaf, one or two rounds up. */
  lemma PlaceAbove(p: nat)
    ensures InBlock(p, 1, p / 2) && InBlock(p, 2, p / 2 / 2)
  {
  }

  lemma EntriesDiffer(d: Draw)
    requires Distinct(d.entrants)
    ensures Distinct(K.Entries(d.entrants)) && K.NoTBD(K.Entries(d.entrants))
  {
  }

  lemma DrawSlot(d: Draw, t: nat, s: int)
    requires IsDraw(d) && t < |d.matches| && (s == 1 || s == 2)
    ensures SlotShape(d, t, s)
  {
    if SlotOf(d.matches[t], s) != TBD {
      var refs := K.Entries(d.entrants);
      K.SlotsHoldParticipants(refs, d.m, d.offset, d.matches, d.nodes, t, s);
      var k :| 0 <= k < |refs| && refs[k] == SlotOf(d.matches[t], s);
      assert SlotFilled(d, t, s, k + 1);
    }
  }

  lemma DrawHasShape(d: Draw)
    requires IsDraw(d)
    ensures Shape(d)
  {
    forall i | 0 <= i < |d.matches| - 1 ensures HasEdge(d, i) {
      var t, s := DrawEdge(d, i);
    }
    forall i, k, t, s | Edge(d, i, t, s) && Edge(d, k, t, s) ensures i == k {
      assert Feeds(d.matches, i, t, s) && Feeds(d.matches, k, t, s);
    }
    forall t, s | 0 <= t < |d.matches| && (s == 1 || s == 2) ensures SlotShape(d, t, s) {
      DrawSlot(d, t, s);
    }
    EntriesDiffer(d);
    forall l | Entrant(d, l) ensures PlacedOnce(d.matches, RefOf(d, l)) {
      K.ParticipantsPlacedOnce(K.Entries(d.entrants), d.m, d.offset, d.matches, d.nodes, l);
    }
    forall l, t, s | Entrant(d, l) && SlotFilled(d, t, s, l) ensures Below(d, t, l) {
      DrawPlace(d, l, t, s);
    }
  }

  // ---- the board ----

  type Board = seq<Row>

  ghost function SideAt(c: Row, s: int): Side {
    if s == 1 then c.home else c.away
  }

  ghost predicate Decided(c: Row) { c.winner != VACANT }

  ghost predicate BothFilled(c: Row) { c.home != VACANT && c.away != VACANT }

  ghost predicate Sits(cells: Board, t: int, x: Side) {
    0 <= t < |cells| && (cells[t].home == x || cells[t].away == x)
  }

  /** Match t is where x last is: it has not moved on from there. */
  ghost predicate Stands(cells: Board, t: int, x: Side) {
    Sits(cells, t, x) && (cells[t].winner == x ==> t == |cells| - 1)
  }

  ghost predicate CellOk(c: Row) {
    && (!c.status.Scheduled? && !c.status.Cancelled? ==> BothFilled(c))
    && (Decided(c) ==> BothFilled(c) && (c.status.Completed? || c.status.Walkover?) && (c.winner == c.home || c.winner == c.away))
    && (c.home == c.away ==> c.home == VACANT)
  }

  /** A concrete slot keeps its participant; a TBD slot holds its feeder's winner, nobody before that. */
  ghost predicate SlotOk(d: Draw, cells: Board, t: int, s: int)
    requires 0 <= t < |d.matches| == |cells|
  {
    match SlotOf(d.matches[t], s)
    case Concrete(x) => SideAt(cells[t], s) == P.SideFor(d.teams, x)
    case TBD => forall k | Edge(d, k, t, s) :: SideAt(cells[t], s) == cells[k].winner
    case Qualifier(_, _) => true
  }

  ghost predicate InField(d: Draw, x: Side) {
    exists l :: Entrant(d, l) && x == SideOf(d, l)
  }

  ghost predicate Standing(cells: Board, x: Side) {
    exists t :: Stands(cells, t, x)
  }

  ghost predicate OnBoard(d: Draw, cells: Board) {
    && |cells| == |d.matches|
    && (forall t | 0 <= t < |cells| :: CellOk(cells[t]))
    && (forall t, s | 0 <= t < |cells| && (s == 1 || s == 2) :: SlotOk(d, cells, t, s))
    && (forall t, x | Sits(cells, t, x) && x != VACANT :: InField(d, x))
    && (forall x, t, t' | x != VACANT && Stands(cells, t, x) && Stands(cells, t', x) :: t == t')
    && (forall l | Entrant(d, l) :: Standing(cells, SideOf(d, l)))
    && (forall l, t | Entrant(d, l) && Sits(cells, t, SideOf(d, l)) && t < |d.nodes| :: Below(d, t, l))
  }

  // ---- the moves ----

  ghost predicate SamePlaces(a: Row, b: Row) {
    a.home == b.home && a.away == b.away && a.winner == b.winner
  }

  /** A call that changes no place: start, cancel, abandon, a drawn completion, an edit. */
  lemma QuietMove(d: Draw, cells: Board, i: nat, c: Row)
    requires Shape(d) && OnBoard(d, cells) && i < |cells| && SamePlaces(cells[i], c) && CellOk(c)
    ensures OnBoard(d, cells[i := c])
  {
    var after := cells[i := c];
    forall t, x ensures Sits(after, t, x) <==> Sits(cells, t, x) {}
    forall t, x ensures Stands(after, t, x) <==> Stands(cells, t, x) {}
    forall l | Entrant(d, l) ensures Standing(after, SideOf(d, l)) {
      var t :| Stands(cells, t, SideOf(d, l));
      assert Stands(after, t, SideOf(d, l));
    }
    forall t, s | 0 <= t < |after| && (s == 1 || s == 2) ensures SlotOk(d, after, t, s) {
      assert SlotOk(d, cells, t, s);
    }
  }

  ghost function Seated(c: Row, s: int, x: Side): Row {
    if s == 1 then c.(home := x) else c.(away := x)
  }

  /** c concludes cells[i] with a winner. */
  ghost predicate Concludes(cells: Board, i: int, c: Row) {
    && 0 <= i < |cells| && !Decided(cells[i]) && Decided(c) && CellOk(c)
    && c.home == cells[i].home && c.away == cells[i].away
  }

  ghost function Advanced(cells: Board, i: int, c: Row, t: int, s: int): Board
    requires 0 <= i < |cells| && 0 <= t < |cells|
  {
    cells[i := c][t := Seated(cells[t], s, c.winner)]
  }

  ghost predicate Advances(d: Draw, cells: Board, i: int, c: Row, t: int, s: int) {
    && Shape(d) && OnBoard(d, cells) && Concludes(cells, i, c) && EdgeTo(d, i, t, s) && t < |cells|
    && (cells[t].status.Scheduled? || cells[t].status.Cancelled?)
  }

  /** The slot that will receive the winner is empty, and so the successor has not been played. */
  lemma FedSlotEmpty(d: Draw, cells: Board, i: nat, t: int, s: int)
    requires Shape(d) && OnBoard(d, cells) && i < |cells| && !Decided(cells[i]) && EdgeTo(d, i, t, s)
    ensures 0 <= t < |cells| && SideAt(cells[t], s) == VACANT && !Decided(cells[t])
    ensures cells[t].status.Scheduled? || cells[t].status.Cancelled?
  {
    assert SlotOk(d, cells, t, s);
    assert CellOk(cells[t]);
  }

  lemma AdvancedSits(d: Draw, cells: Board, i: nat, c: Row, t: int, s: int, u: int, x: Side)
    requires Advances(d, cells, i, c, t, s) && x != VACANT
    ensures Sits(Advanced(cells, i, c, t, s), u, x) <==> Sits(cells, u, x) || (u == t && x == c.winner)
  {
    FedSlotEmpty(d, cells, i, t, s);
  }

  /** The winner now stands in t; everybody else stands where he did. */
  lemma AdvancedStands(d: Draw, cells: Board, i: nat, c: Row, t: int, s: int, u: int, x: Side)
    requires Advances(d, cells, i, c, t, s) && x != VACANT
    ensures Stands(Advanced(cells, i, c, t, s), u, x) <==>
              if x == c.winner then u == t else Stands(cells, u, x)
  {
    FedSlotEmpty(d, cells, i, t, s);
    AdvancedSits(d, cells, i, c, t, s, u, x);
    if x == c.winner {
      assert Stands(cells, i, x);
      assert Stands(cells, u, x) ==> u == i;
    }
  }

  lemma AdvancedCells(d: Draw, cells: Board, i: nat, c: Row, t: int, s: int, u: int)
    requires Advances(d, cells, i, c, t, s) && 0 <= u < |cells|
    ensures CellOk(Advanced(cells, i, c, t, s)[u])
  {
    FedSlotEmpty(d, cells, i, t, s);
    assert CellOk(cells[u]);
    if u == t && Sits(cells, t, c.winner) {
      assert Stands(cells, t, c.winner) && Stands(cells, i, c.winner);
      assert false;
    }
  }

  lemma AdvancedSlots(d: Draw, cells: Board, i: nat, c: Row, t: int, s: int, u: int, v: int)
    requires Advances(d, cells, i, c, t, s) && 0 <= u < |cells| && (v == 1 || v == 2)
    ensures SlotOk(d, Advanced(cells, i, c, t, s), u, v)
  {
    var after := Advanced(cells, i, c, t, s);
    assert SlotOk(d, cells, u, v);
    forall k | Edge(d, k, u, v) && SlotOf(d.matches[u], v) == TBD ensures SideAt(after[u], v) == after[k].winner {
      if k == i {
      }
    }
  }

  lemma BelowParent(d: Draw, i: int, t: int, s: int, l: int)
    requires 0 <= i < |d.nodes| == |d.matches| && EdgeTo(d, i, t, s) && Below(d, i, l)
    ensures Below(d, t, l)
  {
    var (p, r, j) := (LabelPosition(d.m, l), d.nodes[i].0, d.nodes[i].1);
    assert j == 2 * (j / 2) || j == 2 * (j / 2) + 1;
    DoubleBlock(p, r, j, j / 2);
  }

  lemma DoubleBlock(p: int, r: nat, j: int, q: int)
    requires InBlock(p, r, j) && (j == 2 * q || j == 2 * q + 1)
    ensures InBlock(p, r + 1, q)
  {
  }

  /** A decisive result that moves its winner up the tree. */
  lemma WinnerAdvances(d: Draw, cells: Board, i: nat, c: Row, t: int, s: int)
    requires Advances(d, cells, i, c, t, s)
    ensures OnBoard(d, Advanced(cells, i, c, t, s))
  {
    var after, w := Advanced(cells, i, c, t, s), c.winner;
    assert Sits(cells, i, w) by { assert CellOk(c); }
    forall u | 0 <= u < |after| ensures CellOk(after[u]) { AdvancedCells(d, cells, i, c, t, s, u); }
    forall u, v | 0 <= u < |after| && (v == 1 || v == 2) ensures SlotOk(d, after, u, v) {
      AdvancedSlots(d, cells, i, c, t, s, u, v);
    }
    forall u, x | Sits(after, u, x) && x != VACANT ensures InField(d, x) {
      AdvancedSits(d, cells, i, c, t, s, u, x);
    }
    forall x, u, u' | x != VACANT && Stands(after, u, x) && Stands(after, u', x) ensures u == u' {
      AdvancedStands(d, cells, i, c, t, s, u, x);
      AdvancedStands(d, cells, i, c, t, s, u', x);
    }
    forall l | Entrant(d, l) ensures Standing(after, SideOf(d, l)) {
      var u :| Stands(cells, u, SideOf(d, l));
      AdvancedStands(d, cells, i, c, t, s, u, SideOf(d, l));
      AdvancedStands(d, cells, i, c, t, s, t, SideOf(d, l));
    }
    forall l, u | Entrant(d, l) && Sits(after, u, SideOf(d, l)) && u < |d.nodes| ensures Below(d, u, l) {
      AdvancedSits(d, cells, i, c, t, s, u, SideOf(d, l));
      if !Sits(cells, u, SideOf(d, l)) { BelowParent(d, i, t, s, l); }
    }
  }

  /** The final produces the champion, who stays there. */
  lemma FinalConcludes(d: Draw, cells: Board, c: Row)
    requires Shape(d) && OnBoard(d, cells) && Concludes(cells, |cells| - 1, c)
    ensures OnBoard(d, cells[|cells|-1 := c])
  {
    var i := |cells| - 1;
    var after := cells[i := c];
    forall t, x | x != VACANT ensures Sits(after, t, x) <==> Sits(cells, t, x) {}
    forall t, x | x != VACANT ensures Stands(after, t, x) <==> Stands(cells, t, x) {}
    forall l | Entrant(d, l) ensures Standing(after, SideOf(d, l)) {
      var t :| Stands(cells, t, SideOf(d, l));
      assert Stands(after, t, SideOf(d, l));
    }
    forall t, s | 0 <= t < |after| && (s == 1 || s == 2) ensures SlotOk(d, after, t, s) {
      assert SlotOk(d, cells, t, s);
    }
  }

  // ---- the opening board ----

  /** Match t before play: not started, with the participants the plan wrote. */
  ghost predicate OpeningRow(d: Draw, c: Row, t: int)
    requires 0 <= t < |d.matches|
  {
    && (c.status.Scheduled? || c.status.Cancelled?) && c.winner == VACANT
    && c.home == P.SlotColumns(d.teams, d.matches[t].home) && c.away == P.SlotColumns(d.teams, d.matches[t].away)
  }

  ghost predicate Opening(d: Draw, cells: Board) {
    |cells| == |d.matches| && forall t | 0 <= t < |cells| :: OpeningRow(d, cells[t], t)
  }

  /** On the opening board an entrant sits exactly where the plan wrote him. */
  lemma OpeningSits(d: Draw, cells: Board, t: int, x: Side)
    requires Shape(d) && Opening(d, cells) && Sits(cells, t, x) && x != VACANT
    ensures exists l, s :: Entrant(d, l) && x == SideOf(d, l) && SlotFilled(d, t, s, l)
  {
    assert OpeningRow(d, cells[t], t);
    var s := if cells[t].home == x then 1 else 2;
    assert SlotShape(d, t, s);
    var l :| Entrant(d, l) && SlotFilled(d, t, s, l);
    assert x == SideOf(d, l);
  }

  lemma OpeningSeat(d: Draw, cells: Board, t: int, l: int)
    requires Shape(d) && Opening(d, cells) && Entrant(d, l)
    ensures Sits(cells, t, SideOf(d, l)) <==> SlotFilled(d, t, 1, l) || SlotFilled(d, t, 2, l)
  {
  }

  /** No match of the plan holds one entrant twice. */
  lemma OpeningSidesDiffer(d: Draw, t: nat)
    requires Shape(d) && t < |d.matches|
    ensures var (x, y) := (P.SlotColumns(d.teams, d.matches[t].home), P.SlotColumns(d.teams, d.matches[t].away));
            x == y ==> x == VACANT
  {
    assert SlotShape(d, t, 1) && SlotShape(d, t, 2);
    if SlotOf(d.matches[t], 1) != TBD && SlotOf(d.matches[t], 2) != TBD {
      var l :| Entrant(d, l) && SlotFilled(d, t, 1, l);
      var l' :| Entrant(d, l') && SlotFilled(d, t, 2, l');
      if SideOf(d, l) == SideOf(d, l') {
      }
    }
  }

  lemma OpeningCell(d: Draw, cells: Board, t: nat)
    requires Shape(d) && Opening(d, cells) && t < |cells|
    ensures CellOk(cells[t])
  {
    assert OpeningRow(d, cells[t], t);
    OpeningSidesDiffer(d, t);
  }

  lemma OpeningStanding(d: Draw, cells: Board, l: int)
    requires Shape(d) && Opening(d, cells) && Entrant(d, l)
    ensures Standing(cells, SideOf(d, l))
  {
    assert PlacedOnce(d.matches, RefOf(d, l));
    var t, s :| Holds(d.matches, t, s, RefOf(d, l));
    assert SlotFilled(d, t, s, l);
    OpeningSeat(d, cells, t, l);
    assert OpeningRow(d, cells[t], t);
    assert Stands(cells, t, SideOf(d, l));
  }

  lemma OpeningOnce(d: Draw, cells: Board, x: Side, t: int, t': int)
    requires Shape(d) && Opening(d, cells) && x != VACANT && Sits(cells, t, x) && Sits(cells, t', x)
    ensures t == t'
  {
    OpeningSits(d, cells, t, x);
    OpeningSits(d, cells, t', x);
    var l, s :| Entrant(d, l) && x == SideOf(d, l) && SlotFilled(d, t, s, l);
    var l', s' :| Entrant(d, l') && x == SideOf(d, l') && SlotFilled(d, t', s', l');
  }

  lemma OpeningBoard(d: Draw, cells: Board)
    requires Shape(d) && Opening(d, cells)
    ensures OnBoard(d, cells)
  {
    forall t | 0 <= t < |cells| ensures CellOk(cells[t]) { OpeningCell(d, cells, t); }
    forall t, s | 0 <= t < |cells| && (s == 1 || s == 2) ensures SlotOk(d, cells, t, s) {}
    forall t, x | Sits(cells, t, x) && x != VACANT ensures InField(d, x) { OpeningSits(d, cells, t, x); }
    forall x, t, t' | x != VACANT && Stands(cells, t, x) && Stands(cells, t', x) ensures t == t' {
      OpeningOnce(d, cells, x, t, t');
    }
    forall l | Entrant(d, l) ensures Standing(cells, SideOf(d, l)) { OpeningStanding(d, cells, l); }
    forall l, t | Entrant(d, l) && Sits(cells, t, SideOf(d, l)) && t < |d.nodes| ensures Below(d, t, l) {
      OpeningSeat(d, cells, t, l);
    }
  }

  // ---- what the board means ----

  ghost predicate Lost(cells: Board, t: int, x: Side) {
    Sits(cells, t, x) && Decided(cells[t]) && cells[t].winner != x
  }

  /** Nobody loses twice, in any state. */
  lemma LosesAtMostOnce(d: Draw, cells: Board, x: Side, t: int, t': int)
    requires Shape(d) && OnBoard(d, cells) && x != VACANT && Lost(cells, t, x) && Lost(cells, t', x)
    ensures t == t'
  {
    assert Stands(cells, t, x) && Stands(cells, t', x);
  }

  ghost predicate LosesOnce(cells: Board, x: Side) {
    (exists t :: Lost(cells, t, x)) && forall t, t' | Lost(cells, t, x) && Lost(cells, t', x) :: t == t'
  }

  /** champion won the final and never lost; every other entrant lost exactly once. */
  ghost predicate Crowned(d: Draw, cells: Board, champion: int) {
    && Entrant(d, champion) && cells != [] && cells[|cells|-1].winner == SideOf(d, champion)
    && (forall t :: !Lost(cells, t, SideOf(d, champion)))
    && (forall l | Entrant(d, l) && l != champion :: LosesOnce(cells, SideOf(d, l)))
  }

  lemma OneChampion(d: Draw, cells: Board) returns (champion: int)
    requires Shape(d) && OnBoard(d, cells) && forall t | 0 <= t < |cells| :: Decided(cells[t])
    ensures Crowned(d, cells, champion)
  {
    var last := |cells| - 1;
    var w := cells[last].winner;
    assert CellOk(cells[last]) && Sits(cells, last, w) && InField(d, w);
    champion :| Entrant(d, champion) && w == SideOf(d, champion);
    assert Stands(cells, last, w);
    forall t ensures !Lost(cells, t, w) {
      if Lost(cells, t, w) { assert Stands(cells, t, w); }
    }
    forall l | Entrant(d, l) && l != champion ensures LosesOnce(cells, SideOf(d, l)) {
      var t :| Stands(cells, t, SideOf(d, l));
      assert Lost(cells, t, SideOf(d, l));
      forall t, t' | Lost(cells, t, SideOf(d, l)) && Lost(cells, t', SideOf(d, l)) ensures t == t' {
        LosesAtMostOnce(d, cells, SideOf(d, l), t, t');
      }
    }
  }

  ghost predicate Stuck(c: Row) { IsTerminal(c.status) && !Decided(c) }

  /** Play never gets stuck on the bracket itself: unless some match was cancelled, abandoned or drawn,
      an undecided match with both sides known exists as long as any match is undecided. */
  lemma SomeMatchIsPlayable(d: Draw, cells: Board) returns (t: int)
    requires Shape(d) && OnBoard(d, cells)
    requires exists t :: 0 <= t < |cells| && !Decided(cells[t])
    requires forall t | 0 <= t < |cells| :: !Stuck(cells[t])
    ensures 0 <= t < |cells| && !Decided(cells[t]) && BothFilled(cells[t])
    ensures cells[t].status.Scheduled? || cells[t].status.Live?
  {
    t := FirstUndecided(cells, 0);
    forall s | s == 1 || s == 2 ensures SideAt(cells[t], s) != VACANT {
      assert SlotOk(d, cells, t, s) && SlotShape(d, t, s);
      if SlotOf(d.matches[t], s) == TBD {
        assert HasFeeder(d.matches, t, s);
        var k :| Feeds(d.matches, k, t, s);
        assert Edge(d, k, t, s);
        FeederIsEarlier(d, k, t, s);
      }
    }
    assert SideAt(cells[t], 1) != VACANT && SideAt(cells[t], 2) != VACANT;
  }

  lemma FeederIsEarlier(d: Draw, k: int, t: int, s: int)
    requires Shape(d) && Edge(d, k, t, s)
    ensures 0 <= k < t
  {
    if k < |d.matches| - 1 {
      assert HasEdge(d, k);
      var t', s' :| EdgeTo(d, k, t', s');
    } else {
    }
  }

  /** Nobody feeds the first match: it starts with both sides known. */
  lemma FirstMatchIsFilled(d: Draw, s: int)
    requires Shape(d) && (s == 1 || s == 2)
    ensures SlotOf(d.matches[0], s).Concrete?
  {
    assert SlotShape(d, 0, s);
    if SlotOf(d.matches[0], s) == TBD {
      assert HasFeeder(d.matches, 0, s);
      var k :| Feeds(d.matches, k, 0, s);
      assert Edge(d, k, 0, s);
      FeederIsEarlier(d, k, 0, s);
    }
  }

  /** Whoever sits in an undecided match has not lost. */
  lemma SittingIsIn(d: Draw, cells: Board, t: nat, x: Side)
    requires Shape(d) && OnBoard(d, cells) && x != VACANT && Sits(cells, t, x) && !Decided(cells[t])
    ensures forall u :: !Lost(cells, u, x)
  {
    assert Stands(cells, t, x);
    forall u ensures !Lost(cells, u, x) {
      if Lost(cells, u, x) { assert Stands(cells, u, x); }
    }
  }

  lemma FirstUndecided(cells: Board, from: nat) returns (t: int)
    requires exists u :: from <= u < |cells| && !Decided(cells[u])
    ensures from <= t < |cells| && !Decided(cells[t]) && forall u | from <= u < t :: Decided(cells[u])
    decreases |cells| - from
  {
    if Decided(cells[from]) {
      t := FirstUndecided(cells, from + 1);
    } else {
      t := from;
    }
  }

  ghost predicate InRange(d: Draw, t: nat) {
    t < |d.nodes| && 1 <= d.nodes[t].0 <= d.m && 0 <= d.nodes[t].1 < Pow2(d.m - d.nodes[t].0)
  }

  lemma NodeInRange(d: Draw, t: nat)
    requires IsDraw(d) && t < |d.matches|
    ensures |d.nodes| == |d.matches| && d.matches[t].roundNumber == d.offset + d.nodes[t].0
    ensures InRange(d, t)
  {
    K.KnockoutRound(K.Entries(d.entrants), d.m, d.offset, d.matches, d.nodes, t);
  }

  lemma EntrantsFit(d: Draw, l: int)
    requires IsDraw(d) && Entrant(d, l)
    ensures 1 <= l <= Pow2(d.m)
  {
  }

  lemma BelowTogether(d: Draw, t: nat, k: nat, l: int, l': int)
    requires k <= d.m && InRange(d, t) && Below(d, t, l) && Below(d, t, l')
    requires 1 <= l <= Pow2(d.m) && 1 <= l' <= Pow2(d.m) && l != l' && l <= Pow2(k) && l' <= Pow2(k)
    ensures d.nodes[t].0 > d.m - k
  {
    var (m, r, j) := (d.m, d.nodes[t].0, d.nodes[t].1);
    EveryLabelOccurs(m, l);
    EveryLabelOccurs(m, l');
    if r <= m - k {
      TopSeedsMeetLate(m, k, r, LabelPosition(m, l), LabelPosition(m, l'), j);
    }
  }

  /** Seed protection in play: whoever wins, two of the top 2^k seeds who meet do so in one of the last k rounds. */
  lemma TopSeedsMeetLateInPlay(d: Draw, cells: Board, k: nat, t: nat, l: int, l': int)
    requires IsDraw(d) && OnBoard(d, cells) && t < |cells| && k <= d.m
    requires Entrant(d, l) && Entrant(d, l') && l != l' && l <= Pow2(k) && l' <= Pow2(k)
    requires Sits(cells, t, SideOf(d, l)) && Sits(cells, t, SideOf(d, l'))
    ensures d.matches[t].roundNumber - d.offset > d.m - k
  {
    NodeInRange(d, t);
    EntrantsFit(d, l);
    EntrantsFit(d, l');
    assert Below(d, t, l) && Below(d, t, l');
    BelowTogether(d, t, k, l, l');
  }
}
