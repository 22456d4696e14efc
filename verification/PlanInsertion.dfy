// Storing a generated plan (backend/internal/fixturegen/repository.go, lines 94-220).

module PlanInsertion {
  import opened FixtureModels
  import opened BracketTree
  import opened MatchStore

  // ---- the insertion order ----

  /** sort.SliceStable by descending round: equal rounds keep index order. */
  predicate Precedes(ms: seq<PlannedMatch>, a: int, b: int)
    requires 0 <= a < |ms| && 0 <= b < |ms|
  {
    ms[a].roundNumber > ms[b].roundNumber || (ms[a].roundNumber == ms[b].roundNumber && a < b)
  }

  ghost predicate IndicesBelow(order: seq<int>, k: int) {
    forall p | 0 <= p < |order| :: 0 <= order[p] < k
  }

  ghost predicate DescendingRounds(ms: seq<PlannedMatch>, order: seq<int>) {
    IndicesBelow(order, |ms|) && forall p, q | 0 <= p < q < |order| :: Precedes(ms, order[p], order[q])
  }

  ghost predicate Covers(order: seq<int>, k: int) {
    forall i | 0 <= i < k :: InPrefix(order, |order|, i)
  }

  ghost predicate InPrefix(order: seq<int>, p: int, i: int) {
    exists q :: 0 <= q < p && q < |order| && order[q] == i
  }

  function InsertByRound(ms: seq<PlannedMatch>, x: int, order: seq<int>): (r: seq<int>)
    requires 0 <= x < |ms| && forall p | 0 <= p < |order| :: 0 <= order[p] < |ms|
    ensures |r| == |order| + 1
  {
    if order != [] && ms[order[|order|-1]].roundNumber < ms[x].roundNumber
      then InsertByRound(ms, x, order[..|order|-1]) + [order[|order|-1]]
    else order + [x]
  }

  lemma {:induction false} InsertMembers(ms: seq<PlannedMatch>, x: int, order: seq<int>, i: int)
    requires 0 <= x < |ms| && IndicesBelow(order, |ms|)
    ensures i in InsertByRound(ms, x, order) <==> i == x || i in order
  {
    if order != [] && ms[order[|order|-1]].roundNumber < ms[x].roundNumber {
      InsertMembers(ms, x, order[..|order|-1], i);
      assert order == order[..|order|-1] + [order[|order|-1]];
    }
  }

  lemma {:induction false} InsertKeepsOrder(ms: seq<PlannedMatch>, x: int, order: seq<int>)
    requires 0 <= x < |ms| && DescendingRounds(ms, order) && IndicesBelow(order, x)
    ensures DescendingRounds(ms, InsertByRound(ms, x, order))
  {
    if order != [] && ms[order[|order|-1]].roundNumber < ms[x].roundNumber {
      var rest, last := order[..|order|-1], order[|order|-1];
      InsertKeepsOrder(ms, x, rest);
      var r := InsertByRound(ms, x, rest);
      forall p | 0 <= p < |r| ensures Precedes(ms, r[p], last) {
        InsertMembers(ms, x, rest, r[p]);
        if r[p] != x {
          var q :| 0 <= q < |rest| && rest[q] == r[p];
          assert order[q] == rest[q];
        }
      }
    } else if order != [] {
      var last := |order| - 1;
      forall p | 0 <= p < |order| ensures Precedes(ms, order[p], x) {
        assert p < last ==> Precedes(ms, order[p], order[last]);
      }
    }
  }

  lemma InsertNext(ms: seq<PlannedMatch>, order: seq<int>, i: int)
    requires 0 <= i < |ms| && DescendingRounds(ms, order) && IndicesBelow(order, i) && Covers(order, i)
    ensures var r := InsertByRound(ms, i, order);
            DescendingRounds(ms, r) && IndicesBelow(r, i + 1) && Covers(r, i + 1)
  {
    InsertKeepsOrder(ms, i, order);
    var r := InsertByRound(ms, i, order);
    forall p | 0 <= p < |r| ensures 0 <= r[p] < i + 1 {
      InsertMembers(ms, i, order, r[p]);
      assert r[p] in r;
    }
    forall k | 0 <= k < i + 1 ensures InPrefix(r, |r|, k) {
      InsertMembers(ms, i, order, k);
      assert k < i ==> InPrefix(order, |order|, k);
      assert k in r;
    }
  }

  method InsertionOrder(ms: seq<PlannedMatch>) returns (order: seq<int>)
    ensures DescendingRounds(ms, order) && Covers(order, |ms|) && |order| == |ms|
  {
    order := [];
    for i := 0 to |ms|
      invariant DescendingRounds(ms, order) && IndicesBelow(order, i) && Covers(order, i) && |order| == i
    {
      InsertNext(ms, order, i);
      order := InsertByRound(ms, i, order);
    }
  }

  // ---- the stored rows ----

  /** The side columns of a participant: player columns in an individual tournament, else team columns. */
  function SideFor(teams: bool, id: string): Side {
    if teams then Side(Some(id), None) else Side(None, Some(id))
  }

  function SlotColumns(teams: bool, r: SlotRef): Side {
    if r.Concrete? then SideFor(teams, r.id) else VACANT
  }

  function QualifierOf(r: SlotRef): Option<(string, int)> {
    if r.Qualifier? then Some((r.group, r.rank)) else None
  }

  function CardFor(m: PlannedMatch): Card {
    Card(m.roundNumber, m.matchNumber, m.groupLabel, QualifierOf(m.home), QualifierOf(m.away))
  }

  function GeneratedRow(m: PlannedMatch, tournament: Uuid, teams: bool, next: Option<Uuid>): Row {
    Row(tournament, Scheduled, SlotColumns(teams, m.home), SlotColumns(teams, m.away), VACANT, false, 0, 0,
        next, if m.nextMatchIndex.Some? then m.nextSlot else None)
  }

  /** The uuid recorded for the successor; a missing entry would silently store no link. */
  function Link(byIndex: map<int, Uuid>, m: PlannedMatch): Option<Uuid> {
    if m.nextMatchIndex.Some? && m.nextMatchIndex.value in byIndex then Some(byIndex[m.nextMatchIndex.value]) else None
  }

  // ---- what the stored plan is ----

  /** Row keys[i] is match i, and its link is the edge of match i carried over by keys. */
  ghost predicate IsStored(ms: seq<PlannedMatch>, tournament: Uuid, teams: bool, keys: seq<Uuid>, rows: Rows) {
    |keys| == |ms| && Distinct(keys) && forall i | 0 <= i < |ms| :: RowOfMatch(ms, tournament, teams, keys, rows, i)
  }

  ghost predicate RowOfMatch(ms: seq<PlannedMatch>, tournament: Uuid, teams: bool, keys: seq<Uuid>, rows: Rows, i: int)
    requires |keys| == |ms| && 0 <= i < |ms|
  {
    var next := ms[i].nextMatchIndex;
    && keys[i] in rows
    && (next.Some? ==> 0 <= next.value < |ms|)
    && rows[keys[i]] == GeneratedRow(ms[i], tournament, teams, if next.Some? then Some(keys[next.value]) else None)
  }

  /** The cards of the plan's matches. */
  ghost predicate HasCards(ms: seq<PlannedMatch>, keys: seq<Uuid>, cards: Cards) {
    |keys| == |ms| && forall i | 0 <= i < |ms| :: keys[i] in cards && cards[keys[i]] == CardFor(ms[i])
  }

  /** The columns and the placeholder that stand for a slot of the plan. */
  ghost predicate StandsForSlot(r: SlotRef, teams: bool, side: Side, placeholder: Option<(string, int)>) {
    match r
    case Concrete(id) =>
      placeholder == None && if teams then side.team == Some(id) && side.player == None else side.team == None && side.player == Some(id)
    case TBD => placeholder == None && side.team == None && side.player == None
    case Qualifier(group, rank) => placeholder == Some((group, rank)) && side.team == None && side.player == None
  }

  /** Column by column, what is stored of match i: scheduled, 0-0 and without a winner, each slot as its participant or its
      placeholder, the edge as a link to the stored successor, and round, number and group as planned. */
  lemma StoredColumns(ms: seq<PlannedMatch>, tournament: Uuid, teams: bool, keys: seq<Uuid>, rows: Rows, cards: Cards, i: nat)
    requires IsStored(ms, tournament, teams, keys, rows) && HasCards(ms, keys, cards) && i < |ms|
    ensures keys[i] in rows && keys[i] in cards
    ensures var (m, row, card) := (ms[i], rows[keys[i]], cards[keys[i]]);
            && row.tournament == tournament && row.status == Scheduled && !row.isWalkover && row.homeScore == 0 && row.awayScore == 0
            && row.winner.team == None && row.winner.player == None
            && StandsForSlot(m.home, teams, row.home, card.homeQualifier) && StandsForSlot(m.away, teams, row.away, card.awayQualifier)
            && card.roundNumber == m.roundNumber && card.matchNumber == m.matchNumber && card.groupLabel == m.groupLabel
            && (m.nextMatchIndex == None ==> row.nextMatch == None && row.nextSlot == None)
            && (m.nextMatchIndex != None ==>
                  0 <= m.nextMatchIndex.value < |keys| && row.nextMatch == Some(keys[m.nextMatchIndex.value]) && row.nextSlot == m.nextSlot)
  {
    assert RowOfMatch(ms, tournament, teams, keys, rows, i);
  }

  /** after is before with entries for the fresh keys. */
  ghost predicate Adds<T(!new)>(before: map<Uuid, T>, after: map<Uuid, T>, keys: seq<Uuid>) {
    && (forall id :: id in after <==> id in before || id in keys)
    && (forall id | id in keys :: id !in before)
    && (forall id | id in before :: after[id] == before[id])
  }

  /** The table after is the table before plus the rows of one whole plan. */
  ghost predicate StoresPlan(rows: Rows, cards: Cards, rows': Rows, cards': Cards, ms: seq<PlannedMatch>,
                             tournament: Uuid, teams: bool, keys: seq<Uuid>)
  {
    && IsStored(ms, tournament, teams, keys, rows') && HasCards(ms, keys, cards')
    && Adds(rows, rows', keys) && Adds(cards, cards', keys)
  }

  ghost predicate Recorded(ms: seq<PlannedMatch>, tournament: Uuid, teams: bool, byIndex: map<int, Uuid>,
                           rows: Rows, cards: Cards, i: int)
    requires 0 <= i < |ms|
  {
    && i in byIndex && byIndex[i] in rows && byIndex[i] in cards
    && (ms[i].nextMatchIndex.Some? ==> ms[i].nextMatchIndex.value in byIndex)
    && rows[byIndex[i]] == GeneratedRow(ms[i], tournament, teams, Link(byIndex, ms[i]))
    && cards[byIndex[i]] == CardFor(ms[i])
  }

  /** When match order[p] is inserted, its successor already has been. */
  lemma SuccessorFirst(ms: seq<PlannedMatch>, order: seq<int>, p: nat)
    requires Progression(ms) && DescendingRounds(ms, order) && Covers(order, |ms|) && p < |order|
    ensures var next := ms[order[p]].nextMatchIndex;
            next.Some? ==> InPrefix(order, p, next.value)
  {
    var i := order[p];
    assert GoesForward(ms, i);
    if ms[i].nextMatchIndex.Some? {
      var t, s :| Feeds(ms, i, t, s) && ms[i].roundNumber < ms[t].roundNumber;
      assert InPrefix(order, |order|, t);
      var q :| 0 <= q < |order| && order[q] == t;
      assert order[p] == i;
    }
  }

  /** After p inserts: the first p matches of the order are recorded, the q-th under the q-th id. */
  ghost predicate InsertedSoFar(ms: seq<PlannedMatch>, tournament: Uuid, teams: bool, order: seq<int>, fresh_: seq<Uuid>,
                                p: nat, byIndex: map<int, Uuid>, rows: Rows, cards: Cards)
  {
    && p <= |order| && |fresh_| == |order| && IndicesBelow(order, |ms|)
    && (forall i :: i in byIndex <==> InPrefix(order, p, i))
    && (forall q | 0 <= q < p :: order[q] in byIndex && byIndex[order[q]] == fresh_[q])
    && (forall i | 0 <= i < |ms| && i in byIndex :: Recorded(ms, tournament, teams, byIndex, rows, cards, i))
  }

  /** The next insert records one more match and disturbs none. */
  lemma RecordNext(ms: seq<PlannedMatch>, tournament: Uuid, teams: bool, order: seq<int>, fresh_: seq<Uuid>,
                   p: nat, byIndex: map<int, Uuid>, rows: Rows, cards: Cards,
                   byIndex': map<int, Uuid>, rows': Rows, cards': Cards)
    requires Progression(ms) && DescendingRounds(ms, order) && Covers(order, |ms|) && p < |order|
    requires InsertedSoFar(ms, tournament, teams, order, fresh_, p, byIndex, rows, cards)
    requires fresh_[p] !in rows
    requires byIndex' == byIndex[order[p] := fresh_[p]]
    requires rows' == rows[fresh_[p] := GeneratedRow(ms[order[p]], tournament, teams, Link(byIndex, ms[order[p]]))]
    requires cards' == cards[fresh_[p] := CardFor(ms[order[p]])]
    ensures InsertedSoFar(ms, tournament, teams, order, fresh_, p + 1, byIndex', rows', cards')
  {
    SuccessorFirst(ms, order, p);
    NotYetRecorded(ms, order, p);
    assert GoesForward(ms, order[p]);
    forall i ensures i in byIndex' <==> InPrefix(order, p + 1, i) {
      assert i in byIndex' <==> InPrefix(order, p, i) || i == order[p];
    }
    RecordNow(ms, tournament, teams, order[p], fresh_[p], byIndex, rows, cards, byIndex', rows', cards');
  }

  lemma RecordNow(ms: seq<PlannedMatch>, tournament: Uuid, teams: bool, k: int, id: Uuid, byIndex: map<int, Uuid>, rows: Rows,
                  cards: Cards, byIndex': map<int, Uuid>, rows': Rows, cards': Cards)
    requires 0 <= k < |ms| && k !in byIndex && id !in rows
    requires ms[k].nextMatchIndex.Some? ==> ms[k].nextMatchIndex.value in byIndex
    requires forall i | 0 <= i < |ms| && i in byIndex :: Recorded(ms, tournament, teams, byIndex, rows, cards, i)
    requires byIndex' == byIndex[k := id] && cards' == cards[id := CardFor(ms[k])]
    requires rows' == rows[id := GeneratedRow(ms[k], tournament, teams, Link(byIndex, ms[k]))]
    ensures forall i | 0 <= i < |ms| && i in byIndex' :: Recorded(ms, tournament, teams, byIndex', rows', cards', i)
  {
    forall i | 0 <= i < |ms| && i in byIndex' ensures Recorded(ms, tournament, teams, byIndex', rows', cards', i) {
      if i != k {
        RecordStays(ms, tournament, teams, byIndex, rows, cards, i, k, id, byIndex', rows', cards');
      }
    }
  }

  lemma RecordStays(ms: seq<PlannedMatch>, tournament: Uuid, teams: bool, byIndex: map<int, Uuid>, rows: Rows,
                    cards: Cards, i: int, k: int, id: Uuid,
                    byIndex': map<int, Uuid>, rows': Rows, cards': Cards)
    requires 0 <= i < |ms| && Recorded(ms, tournament, teams, byIndex, rows, cards, i)
    requires k !in byIndex && id !in rows && byIndex' == byIndex[k := id]
    requires forall u | u in rows :: u in rows' && rows'[u] == rows[u]
    requires forall u | u in cards && u != id :: u in cards' && cards'[u] == cards[u]
    ensures Recorded(ms, tournament, teams, byIndex', rows', cards', i)
  {
    var u := byIndex[i];
    assert u in rows && u in rows' && u in cards && u in cards' && byIndex'[i] == u;
  }

  lemma NotYetRecorded(ms: seq<PlannedMatch>, order: seq<int>, p: nat)
    requires DescendingRounds(ms, order) && p < |order|
    ensures !InPrefix(order, p, order[p])
  {
  }

  ghost predicate AreKeys(ms: seq<PlannedMatch>, byIndex: map<int, Uuid>, keys: seq<Uuid>) {
    |keys| == |ms| && forall i | 0 <= i < |ms| :: i in byIndex && keys[i] == byIndex[i]
  }

  lemma AllStored(ms: seq<PlannedMatch>, tournament: Uuid, teams: bool, order: seq<int>, fresh_: seq<Uuid>,
                  byIndex: map<int, Uuid>, rows: Rows, cards: Cards, keys: seq<Uuid>)
    requires Progression(ms) && Covers(order, |ms|) && Distinct(fresh_)
    requires InsertedSoFar(ms, tournament, teams, order, fresh_, |order|, byIndex, rows, cards)
    requires AreKeys(ms, byIndex, keys)
    ensures IsStored(ms, tournament, teams, keys, rows)
    ensures HasCards(ms, keys, cards)
  {
  }

  lemma KeysAreFresh(ms: seq<PlannedMatch>, tournament: Uuid, teams: bool, order: seq<int>, fresh_: seq<Uuid>,
                     byIndex: map<int, Uuid>, rows: Rows, cards: Cards, keys: seq<Uuid>, id: Uuid)
    requires InsertedSoFar(ms, tournament, teams, order, fresh_, |order|, byIndex, rows, cards)
    requires AreKeys(ms, byIndex, keys)
    ensures id in keys <==> id in fresh_
  {
  }

  // ---- the stored plan as a function ----

  /** The row that storing writes for match i. */
  function PlanRow(ms: seq<PlannedMatch>, tournament: Uuid, teams: bool, keys: seq<Uuid>, i: nat): Row
    requires i < |ms| == |keys|
  {
    var next := ms[i].nextMatchIndex;
    GeneratedRow(ms[i], tournament, teams, if next.Some? && 0 <= next.value < |keys| then Some(keys[next.value]) else None)
  }

  /** The table with the first k matches of a plan. */
  function AddRows(rows: Rows, ms: seq<PlannedMatch>, tournament: Uuid, teams: bool, keys: seq<Uuid>, k: nat): Rows
    requires k <= |ms| == |keys|
  {
    if k == 0 then rows
    else AddRows(rows, ms, tournament, teams, keys, k - 1)[keys[k - 1] := PlanRow(ms, tournament, teams, keys, k - 1)]
  }

  function AddCards(cards: Cards, ms: seq<PlannedMatch>, keys: seq<Uuid>, k: nat): Cards
    requires k <= |ms| == |keys|
  {
    if k == 0 then cards else AddCards(cards, ms, keys, k - 1)[keys[k - 1] := CardFor(ms[k - 1])]
  }

  ghost predicate FreshKeys(rows: Rows, cards: Cards, keys: seq<Uuid>) {
    Distinct(keys) && forall i | 0 <= i < |keys| :: keys[i] !in rows && keys[i] !in cards
  }

  lemma AddNext<T(!new)>(before: map<Uuid, T>, after: map<Uuid, T>, keys: seq<Uuid>, k: nat, x: T)
    requires k < |keys| && Distinct(keys) && keys[k] !in before && Adds(before, after, keys[..k])
    ensures Adds(before, after[keys[k] := x], keys[..k+1])
    ensures forall i | 0 <= i < k && keys[i] in after :: after[keys[k] := x][keys[i]] == after[keys[i]]
  {
    assert keys[..k+1] == keys[..k] + [keys[k]];
  }

  lemma {:induction false} RowsAdded(rows: Rows, ms: seq<PlannedMatch>, tournament: Uuid, teams: bool, keys: seq<Uuid>, k: nat)
    requires k <= |ms| == |keys| && Distinct(keys) && forall i | 0 <= i < |keys| :: keys[i] !in rows
    ensures var after := AddRows(rows, ms, tournament, teams, keys, k);
            && Adds(rows, after, keys[..k])
            && forall i | 0 <= i < k :: keys[i] in after && after[keys[i]] == PlanRow(ms, tournament, teams, keys, i)
  {
    if k > 0 {
      var j := k - 1;
      RowsAdded(rows, ms, tournament, teams, keys, j);
      AddNext(rows, AddRows(rows, ms, tournament, teams, keys, j), keys, j, PlanRow(ms, tournament, teams, keys, j));
    }
  }

  lemma {:induction false} CardsAdded(cards: Cards, ms: seq<PlannedMatch>, keys: seq<Uuid>, k: nat)
    requires k <= |ms| == |keys| && Distinct(keys) && forall i | 0 <= i < |keys| :: keys[i] !in cards
    ensures var after := AddCards(cards, ms, keys, k);
            && Adds(cards, after, keys[..k])
            && forall i | 0 <= i < k :: keys[i] in after && after[keys[i]] == CardFor(ms[i])
  {
    if k > 0 {
      var j := k - 1;
      CardsAdded(cards, ms, keys, j);
      AddNext(cards, AddCards(cards, ms, keys, j), keys, j, CardFor(ms[j]));
    }
  }

  lemma EdgeInside(ms: seq<PlannedMatch>, i: nat)
    requires Progression(ms) && i < |ms|
    ensures var next := ms[i].nextMatchIndex; next.Some? ==> 0 <= next.value < |ms|
  {
    assert GoesForward(ms, i);
  }

  /** Storing a plan is a function of the table and the ids assigned. */
  lemma StoredIsAdded(rows: Rows, cards: Cards, rows': Rows, cards': Cards, ms: seq<PlannedMatch>,
                      tournament: Uuid, teams: bool, keys: seq<Uuid>)
    requires Progression(ms) && |keys| == |ms|
    ensures StoresPlan(rows, cards, rows', cards', ms, tournament, teams, keys)
            <==> FreshKeys(rows, cards, keys) && rows' == AddRows(rows, ms, tournament, teams, keys, |ms|)
                 && cards' == AddCards(cards, ms, keys, |ms|)
  {
    if FreshKeys(rows, cards, keys) {
      RowsAdded(rows, ms, tournament, teams, keys, |ms|);
      CardsAdded(cards, ms, keys, |ms|);
      var (after, after') := (AddRows(rows, ms, tournament, teams, keys, |ms|), AddCards(cards, ms, keys, |ms|));
      assert keys[..|ms|] == keys;
      forall i | 0 <= i < |ms| ensures RowOfMatch(ms, tournament, teams, keys, after, i) { EdgeInside(ms, i); }
      if StoresPlan(rows, cards, rows', cards', ms, tournament, teams, keys) {
        SameRows(rows, rows', after, ms, tournament, teams, keys);
        SameCards(cards, cards', after', ms, keys);
      }
    } else if StoresPlan(rows, cards, rows', cards', ms, tournament, teams, keys) {
      AddedAreFresh(rows, rows', keys);
      AddedAreFresh(cards, cards', keys);
    }
  }

  lemma AddedAreFresh<T(!new)>(before: map<Uuid, T>, after: map<Uuid, T>, keys: seq<Uuid>)
    requires Adds(before, after, keys)
    ensures forall i | 0 <= i < |keys| :: keys[i] !in before
  {
    forall i | 0 <= i < |keys| ensures keys[i] !in before {
      var id := keys[i];
      assert id in keys;
    }
  }

  lemma SameRows(before: Rows, a: Rows, b: Rows, ms: seq<PlannedMatch>, tournament: Uuid, teams: bool, keys: seq<Uuid>)
    requires Adds(before, a, keys) && Adds(before, b, keys)
    requires IsStored(ms, tournament, teams, keys, a) && IsStored(ms, tournament, teams, keys, b)
    ensures a == b
  {
    assert forall id :: id in a <==> id in b;
    forall id | id in a ensures a[id] == b[id] {
      if id in keys {
        var i :| 0 <= i < |keys| && keys[i] == id;
        assert RowOfMatch(ms, tournament, teams, keys, a, i) && RowOfMatch(ms, tournament, teams, keys, b, i);
      }
    }
  }

  lemma SameCards(before: Cards, a: Cards, b: Cards, ms: seq<PlannedMatch>, keys: seq<Uuid>)
    requires Adds(before, a, keys) && Adds(before, b, keys) && HasCards(ms, keys, a) && HasCards(ms, keys, b)
    ensures a == b
  {
    assert forall id :: id in a <==> id in b;
    forall id | id in a ensures a[id] == b[id] {
      if id in keys { var i :| 0 <= i < |keys| && keys[i] == id; }
    }
  }

  datatype InsertError = ForeignKeyViolation

  class FixtureTable {
    var rows: Rows
    var cards: Cards

    constructor ()
      ensures rows == map[] && cards == map[]
    {
      rows, cards := map[], map[];
    }

    /** The INSERT; the self-referential foreign key wants the successor to exist already. */
    method InsertGeneratedMatch(id: Uuid, row: Row, card: Card) returns (e: Option<InsertError>)
      modifies this
      ensures row.nextMatch.Some? && row.nextMatch.value !in old(rows) ==>
                e == Some(ForeignKeyViolation) && rows == old(rows) && cards == old(cards)
      ensures !(row.nextMatch.Some? && row.nextMatch.value !in old(rows)) ==>
                e == None && rows == old(rows)[id := row] && cards == old(cards)[id := card]
    {
      if row.nextMatch.Some? && row.nextMatch.value !in rows {
        return Some(ForeignKeyViolation);
      }
      rows, cards := rows[id := row], cards[id := card];
      e := None;
    }

    /** One pass of the insertion loop. */
    method InsertNextMatch(ms: seq<PlannedMatch>, tournament: Uuid, teams: bool, order: seq<int>, fresh_: seq<Uuid>,
                           p: nat, byIndex: map<int, Uuid>)
      returns (e: Option<InsertError>, byIndex': map<int, Uuid>)
      requires Progression(ms) && DescendingRounds(ms, order) && Covers(order, |ms|) && p < |order|
      requires InsertedSoFar(ms, tournament, teams, order, fresh_, p, byIndex, rows, cards)
      requires fresh_[p] !in rows
      modifies this
      ensures e == None && InsertedSoFar(ms, tournament, teams, order, fresh_, p + 1, byIndex', rows, cards)
      ensures rows.Keys == old(rows.Keys) + {fresh_[p]} && cards.Keys == old(cards.Keys) + {fresh_[p]}
      ensures forall id | id in old(rows) :: rows[id] == old(rows)[id]
      ensures forall id | id in old(cards) && id != fresh_[p] :: cards[id] == old(cards)[id]
    {
      SuccessorFirst(ms, order, p);
      var pm := ms[order[p]];
      var row := GeneratedRow(pm, tournament, teams, Link(byIndex, pm));
      assert pm.nextMatchIndex.Some? ==> Recorded(ms, tournament, teams, byIndex, rows, cards, pm.nextMatchIndex.value);
      ghost var rows0, cards0 := rows, cards;
      e := InsertGeneratedMatch(fresh_[p], row, CardFor(pm));
      if e.Some? {
        return e, byIndex;
      }
      byIndex' := byIndex[pm.index := fresh_[p]];
      RecordNext(ms, tournament, teams, order, fresh_, p, byIndex, rows0, cards0, byIndex', rows, cards);
    }

    /** fresh_ supplies the ids the database will assign.  No insert fails, and keys carries the
        plan's graph onto the stored rows. */
    method InsertPlan(ms: seq<PlannedMatch>, tournament: Uuid, teams: bool, fresh_: seq<Uuid>)
      returns (e: Option<InsertError>, ghost keys: seq<Uuid>)
      requires Progression(ms)
      requires |fresh_| == |ms| && Distinct(fresh_) && forall i | 0 <= i < |fresh_| :: fresh_[i] !in rows && fresh_[i] !in cards
      modifies this
      ensures e == None && StoresPlan(old(rows), old(cards), rows, cards, ms, tournament, teams, keys)
    {
      var order := InsertionOrder(ms);
      var uuidByIndex: map<int, Uuid> := map[];
      e := None;
      for p := 0 to |order|
        invariant e == None && InsertedSoFar(ms, tournament, teams, order, fresh_, p, uuidByIndex, rows, cards)
        invariant rows.Keys == old(rows.Keys) + (set q | 0 <= q < p :: fresh_[q])
        invariant cards.Keys == old(cards.Keys) + (set q | 0 <= q < p :: fresh_[q])
        invariant forall id | id in old(rows) :: rows[id] == old(rows)[id]
        invariant forall id | id in old(cards) :: cards[id] == old(cards)[id]
      {
        e, uuidByIndex := InsertNextMatch(ms, tournament, teams, order, fresh_, p, uuidByIndex);
        if e.Some? {
          return e, [];
        }
      }
      forall i | 0 <= i < |ms| ensures i in uuidByIndex {
        assert InPrefix(order, |order|, i);
      }
      keys := seq(|ms|, i requires 0 <= i < |ms| => uuidByIndex[i]);
      AllStored(ms, tournament, teams, order, fresh_, uuidByIndex, rows, cards, keys);
      forall id ensures id in keys <==> id in fresh_ {
        KeysAreFresh(ms, tournament, teams, order, fresh_, uuidByIndex, rows, cards, keys, id);
      }
    }
  }
}
