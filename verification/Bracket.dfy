// The single-elimination bracket builder (backend/internal/fixtures/knockout.go, lines 5-129).
//
// A bracket over 2^R leaves has nodes (r, j): node j of round r covers the
// leaves j*2^r .. (j+1)*2^r - 1.  Round-one nodes with a bye emit no match.

module Bracket {
  import opened FixtureModels
  import opened Counting
  import opened SeedSlots

  /** One round-one position: an entrant or a bye. */
  datatype Leaf = Entrant(ref: SlotRef) | ByeLeaf

  /** What a bracket node hands up to its parent slot. */
  datatype Contrib = Placed(ref: SlotRef) | Feeder(matchIdx: int)

  type Node = (int, int)

  // ---- what the bracket is ----

  ghost predicate IsBracket(leaves: seq<Leaf>, rounds: nat) {
    && rounds >= 1 && |leaves| == 2 * Pow2(rounds - 1)
    && forall j | 0 <= j < Pow2(rounds - 1) :: !DoubleBye(leaves, j)
  }

  ghost predicate PairAt(leaves: seq<Leaf>, j: int) {
    0 <= j && 2 * j + 1 < |leaves|
  }

  ghost predicate DoubleBye(leaves: seq<Leaf>, j: int) {
    PairAt(leaves, j) && leaves[2 * j].ByeLeaf? && leaves[2 * j + 1].ByeLeaf?
  }

  /** Round-one pair j is a match. */
  ghost predicate RealPair(leaves: seq<Leaf>, j: int) {
    PairAt(leaves, j) && leaves[2 * j].Entrant? && leaves[2 * j + 1].Entrant?
  }

  /** The entrant of a pair with a bye. */
  ghost function Survivor(leaves: seq<Leaf>, j: int): SlotRef
    requires PairAt(leaves, j) && !RealPair(leaves, j) && !DoubleBye(leaves, j)
  {
    if leaves[2 * j].Entrant? then leaves[2 * j].ref else leaves[2 * j + 1].ref
  }

  ghost predicate IsNode(leaves: seq<Leaf>, rounds: nat, nd: Node) {
    if nd.0 == 1 then RealPair(leaves, nd.1)
    else 2 <= nd.0 <= rounds && 0 <= nd.1 < Pow2(rounds - nd.0)
  }

  ghost predicate Before(a: Node, b: Node) {
    a.0 < b.0 || (a.0 == b.0 && a.1 < b.1)
  }

  /** The node that (r, j) feeds, and through which slot (1 home, 2 away). */
  ghost function ParentNode(nd: Node): Node { (nd.0 + 1, nd.1 / 2) }

  ghost function ParentSlot(nd: Node): int { 1 + nd.1 % 2 }

  /** What the builder writes in slot s of a node. */
  ghost function SlotRefAt(leaves: seq<Leaf>, nd: Node, s: int): SlotRef {
    var child := 2 * nd.1 + s - 1;
    if nd.0 == 1 && 0 <= child < |leaves| && leaves[child].Entrant? then leaves[child].ref
    else if nd.0 == 2 && PairAt(leaves, child) && !RealPair(leaves, child) && !DoubleBye(leaves, child)
      then Survivor(leaves, child)
    else TBD
  }

  ghost predicate Describes(m: PlannedMatch, index: int, offset: int, leaves: seq<Leaf>, nd: Node) {
    && m.index == index && m.roundNumber == offset + nd.0 && m.groupLabel == "" && m.matchNumber == 0
    && m.home == SlotRefAt(leaves, nd, 1) && m.away == SlotRefAt(leaves, nd, 2)
  }

  ghost predicate Unwired(m: PlannedMatch) {
    m.nextMatchIndex == None && m.nextSlot == None
  }

  /** m's winner goes to its parent node's match, into the slot of its side. */
  ghost predicate WiredTo(m: PlannedMatch, nodes: seq<Node>, nd: Node) {
    && m.nextMatchIndex.Some? && 0 <= m.nextMatchIndex.value < |nodes|
    && nodes[m.nextMatchIndex.value] == ParentNode(nd)
    && m.nextSlot == Some(ParentSlot(nd))
  }

  /** nodes lists, in order, exactly the nodes before `next`. */
  ghost predicate Listed(leaves: seq<Leaf>, rounds: nat, nodes: seq<Node>, next: Node) {
    && (forall i | 0 <= i < |nodes| :: IsNode(leaves, rounds, nodes[i]) && Before(nodes[i], next))
    && (forall i, k | 0 <= i < k < |nodes| :: Before(nodes[i], nodes[k]))
    && (forall nd | IsNode(leaves, rounds, nd) && Before(nd, next) :: nd in nodes)
  }

  ghost predicate Described(leaves: seq<Leaf>, offset: int, matches: seq<PlannedMatch>, nodes: seq<Node>) {
    |matches| == |nodes| && forall i | 0 <= i < |nodes| :: Describes(matches[i], i, offset, leaves, nodes[i])
  }

  /** Match i is wired to its parent if the parent is before `next`. */
  ghost predicate EdgeUpTo(matches: seq<PlannedMatch>, nodes: seq<Node>, next: Node, i: int)
    requires 0 <= i < |nodes| <= |matches|
  {
    if Before(ParentNode(nodes[i]), next) then WiredTo(matches[i], nodes, nodes[i]) else Unwired(matches[i])
  }

  /** matches holds the nodes before `next`, wired to those parents that are before `next` too. */
  ghost predicate Built(leaves: seq<Leaf>, rounds: nat, offset: int, matches: seq<PlannedMatch>, nodes: seq<Node>, next: Node) {
    && Listed(leaves, rounds, nodes, next)
    && Described(leaves, offset, matches, nodes)
    && forall i | 0 <= i < |nodes| :: EdgeUpTo(matches, nodes, next, i)
  }

  /** c is what node nd hands up. */
  ghost predicate HandsUp(c: Contrib, leaves: seq<Leaf>, rounds: nat, nodes: seq<Node>, nd: Node) {
    if IsNode(leaves, rounds, nd) then c.Feeder? && 0 <= c.matchIdx < |nodes| && nodes[c.matchIdx] == nd
    else
      nd.0 == 1 && PairAt(leaves, nd.1) && !RealPair(leaves, nd.1) && !DoubleBye(leaves, nd.1)
      && c == Placed(Survivor(leaves, nd.1))
  }

  ghost predicate Row(cs: seq<Contrib>, leaves: seq<Leaf>, rounds: nat, nodes: seq<Node>, r: int) {
    forall j | 0 <= j < |cs| :: HandsUp(cs[j], leaves, rounds, nodes, (r, j))
  }

  lemma ListNode(leaves: seq<Leaf>, rounds: nat, nodes: seq<Node>, r: int, j: int)
    requires Listed(leaves, rounds, nodes, (r, j)) && IsNode(leaves, rounds, (r, j))
    ensures Listed(leaves, rounds, nodes + [(r, j)], (r, j + 1))
  {
    var nodes' := nodes + [(r, j)];
    forall nd | IsNode(leaves, rounds, nd) && Before(nd, (r, j + 1)) ensures nd in nodes' {
      if nd != (r, j) { assert nd in nodes; } else { assert nodes'[|nodes|] == nd; }
    }
  }

  // ---- round one ----

  lemma BuildPair(leaves: seq<Leaf>, rounds: nat, offset: int, matches: seq<PlannedMatch>, nodes: seq<Node>, j: nat, m: PlannedMatch)
    requires Built(leaves, rounds, offset, matches, nodes, (1, j)) && RealPair(leaves, j)
    requires Describes(m, |matches|, offset, leaves, (1, j)) && Unwired(m)
    ensures Built(leaves, rounds, offset, matches + [m], nodes + [(1, j)], (1, j + 1))
  {
    ListNode(leaves, rounds, nodes, 1, j);
    var (matches', nodes', next) := (matches + [m], nodes + [(1, j)], (1, j + 1));
    forall i | 0 <= i < |nodes'| ensures EdgeUpTo(matches', nodes', next, i) {
      if i < |nodes| { assert EdgeUpTo(matches, nodes, (1, j), i); }
    }
  }

  lemma SkipPair(leaves: seq<Leaf>, rounds: nat, offset: int, matches: seq<PlannedMatch>, nodes: seq<Node>, j: nat)
    requires Built(leaves, rounds, offset, matches, nodes, (1, j)) && !RealPair(leaves, j)
    ensures Built(leaves, rounds, offset, matches, nodes, (1, j + 1))
  {
    var next := (1, j + 1);
    forall i | 0 <= i < |nodes| ensures EdgeUpTo(matches, nodes, next, i) {
      assert EdgeUpTo(matches, nodes, (1, j), i);
    }
  }

  lemma EndRound(leaves: seq<Leaf>, rounds: nat, offset: int, matches: seq<PlannedMatch>, nodes: seq<Node>, r: nat)
    requires IsBracket(leaves, rounds) && 1 <= r <= rounds
    requires Built(leaves, rounds, offset, matches, nodes, (r, Pow2(rounds - r)))
    ensures Built(leaves, rounds, offset, matches, nodes, (r + 1, 0))
  {
    var next := (r + 1, 0);
    forall i | 0 <= i < |nodes| ensures EdgeUpTo(matches, nodes, next, i) {
      assert EdgeUpTo(matches, nodes, (r, Pow2(rounds - r)), i);
      assert IsNode(leaves, rounds, nodes[i]);
    }
  }

  // ---- later rounds ----

  /** wireChild: a placed child fills the slot; a feeding child leaves it TBD and points at the parent. */
  function Wired(matches: seq<PlannedMatch>, c: Contrib, parent: int, slot: int): seq<PlannedMatch>
    requires CanWire(matches, c)
  {
    if c.Placed? then matches
    else matches[c.matchIdx := matches[c.matchIdx].(nextMatchIndex := Some(parent), nextSlot := Some(slot))]
  }

  function SlotFrom(c: Contrib): SlotRef {
    if c.Placed? then c.ref else TBD
  }

  method WireChild(matches: seq<PlannedMatch>, c: Contrib, parent: int, slot: int)
    returns (matches': seq<PlannedMatch>, ref: SlotRef)
    requires CanWire(matches, c)
    ensures matches' == Wired(matches, c, parent, slot) && ref == SlotFrom(c)
  {
    match c
    case Placed(r) =>
      return matches, r;
    case Feeder(i) =>
      ref := TBD;
      matches' := matches[i := matches[i].(nextMatchIndex := Some(parent), nextSlot := Some(slot))];
  }

  lemma SlotIsHandedUp(c: Contrib, leaves: seq<Leaf>, rounds: nat, nodes: seq<Node>, r: int, j: int, s: int)
    requires 2 <= r <= rounds && 0 <= j < Pow2(rounds - r) && (s == 1 || s == 2)
    requires IsBracket(leaves, rounds)
    requires HandsUp(c, leaves, rounds, nodes, (r - 1, 2 * j + s - 1))
    ensures SlotFrom(c) == SlotRefAt(leaves, (r, j), s)
  {
  }

  /** matches after a node of round r with the given children has been emitted. */
  function Emit(matches: seq<PlannedMatch>, home: Contrib, away: Contrib, round: int): seq<PlannedMatch>
    requires CanWire(matches, home) && CanWire(matches, away)
  {
    var idx := |matches|;
    Wired(Wired(matches, home, idx, 1), away, idx, 2) + [NewMatch(idx, round, "", SlotFrom(home), SlotFrom(away))]
  }

  predicate CanWire(matches: seq<PlannedMatch>, c: Contrib) {
    c.Feeder? ==> 0 <= c.matchIdx < |matches|
  }

  /** Emitting node (r, j): its two children are pointed at it, and it is appended. */
  lemma BuildNode(leaves: seq<Leaf>, rounds: nat, offset: int, matches: seq<PlannedMatch>, nodes: seq<Node>,
                  r: nat, j: nat, home: Contrib, away: Contrib)
    requires Built(leaves, rounds, offset, matches, nodes, (r, j)) && IsNode(leaves, rounds, (r, j)) && r >= 2
    requires HandsUp(home, leaves, rounds, nodes, (r - 1, 2 * j))
    requires HandsUp(away, leaves, rounds, nodes, (r - 1, 2 * j + 1))
    requires SlotFrom(home) == SlotRefAt(leaves, (r, j), 1) && SlotFrom(away) == SlotRefAt(leaves, (r, j), 2)
    ensures CanWire(matches, home) && CanWire(matches, away)
    ensures Built(leaves, rounds, offset, Emit(matches, home, away, offset + r), nodes + [(r, j)], (r, j + 1))
  {
    var idx := |matches|;
    var wired := Wired(Wired(matches, home, idx, 1), away, idx, 2);
    ListNode(leaves, rounds, nodes, r, j);
    WiringKeepsDescription(leaves, offset, matches, nodes, home, idx, 1);
    WiringKeepsDescription(leaves, offset, Wired(matches, home, idx, 1), nodes, away, idx, 2);
    DescribeNext(leaves, offset, wired, nodes, NewMatch(idx, offset + r, "", SlotFrom(home), SlotFrom(away)), (r, j));
    var (after, nodes', next) := (Emit(matches, home, away, offset + r), nodes + [(r, j)], (r, j + 1));
    forall i | 0 <= i < |nodes'| ensures EdgeUpTo(after, nodes', next, i) {
      if i < idx { WiringOf(leaves, rounds, offset, matches, nodes, r, j, home, away, i); }
    }
  }

  lemma WiringKeepsDescription(leaves: seq<Leaf>, offset: int, matches: seq<PlannedMatch>, nodes: seq<Node>, c: Contrib, parent: int, slot: int)
    requires Described(leaves, offset, matches, nodes) && CanWire(matches, c)
    ensures Described(leaves, offset, Wired(matches, c, parent, slot), nodes)
  {
  }

  lemma DescribeNext(leaves: seq<Leaf>, offset: int, matches: seq<PlannedMatch>, nodes: seq<Node>, m: PlannedMatch, nd: Node)
    requires Described(leaves, offset, matches, nodes) && Describes(m, |matches|, offset, leaves, nd)
    ensures Described(leaves, offset, matches + [m], nodes + [nd])
  {
  }

  /** Match i is rewired exactly when its node is one of the two children of (r, j). */
  lemma WiringOf(leaves: seq<Leaf>, rounds: nat, offset: int, matches: seq<PlannedMatch>, nodes: seq<Node>,
                 r: nat, j: nat, home: Contrib, away: Contrib, i: nat)
    requires Built(leaves, rounds, offset, matches, nodes, (r, j)) && r >= 2
    requires IsNode(leaves, rounds, (r, j)) && i < |matches|
    requires HandsUp(home, leaves, rounds, nodes, (r - 1, 2 * j))
    requires HandsUp(away, leaves, rounds, nodes, (r - 1, 2 * j + 1))
    ensures CanWire(matches, home) && CanWire(matches, away)
    ensures EdgeUpTo(Emit(matches, home, away, offset + r), nodes + [(r, j)], (r, j + 1), i)
  {
    assert EdgeUpTo(matches, nodes, (r, j), i);
    FeederOf(leaves, rounds, nodes, (r, j), home, (r - 1, 2 * j), i);
    FeederOf(leaves, rounds, nodes, (r, j), away, (r - 1, 2 * j + 1), i);
    assert ParentNode(nodes[i]) == (r, j) <==> nodes[i] == (r - 1, 2 * j) || nodes[i] == (r - 1, 2 * j + 1);
  }

  lemma FeederOf(leaves: seq<Leaf>, rounds: nat, nodes: seq<Node>, next: Node, c: Contrib, nd: Node, i: nat)
    requires Listed(leaves, rounds, nodes, next) && HandsUp(c, leaves, rounds, nodes, nd) && i < |nodes|
    ensures c == Feeder(i) <==> nodes[i] == nd
  {
    if nodes[i] == nd {
      assert IsNode(leaves, rounds, nd);
      assert nodes[c.matchIdx] == nodes[i];
    }
  }

  // ---- the builder ----

  ghost function HoldsEntrant(): Leaf -> bool { (l: Leaf) => l.Entrant? }

  ghost function EntrantCount(leaves: seq<Leaf>): nat {
    Count(leaves, HoldsEntrant())
  }

  lemma EntrantsOfPair(leaves: seq<Leaf>, j: nat)
    requires PairAt(leaves, j)
    ensures EntrantCount(leaves[..2 * j + 2]) ==
              EntrantCount(leaves[..2 * j]) + (if leaves[2 * j].Entrant? then 1 else 0) + (if leaves[2 * j + 1].Entrant? then 1 else 0)
  {
    var before := leaves[..2 * j];
    CountSnoc(before, leaves[2 * j], HoldsEntrant());
    CountSnoc(before + [leaves[2 * j]], leaves[2 * j + 1], HoldsEntrant());
    assert leaves[..2 * j + 2] == before + [leaves[2 * j]] + [leaves[2 * j + 1]];
  }

  /** The bye report over the first `pairs` pairs: concrete survivors, who enter in round two. */
  ghost function ByesOf(leaves: seq<Leaf>, offset: int, pairs: nat): seq<Bye> {
    if pairs == 0 then []
    else
      var j := pairs - 1;
      ByesOf(leaves, offset, j)
      + if PairAt(leaves, j) && !RealPair(leaves, j) && !DoubleBye(leaves, j) && Survivor(leaves, j).Concrete?
        then [Bye(Survivor(leaves, j).id, offset + 2)] else []
  }

  /** Before pair j of round one. */
  ghost predicate InRoundOne(leaves: seq<Leaf>, rounds: nat, offset: int, matches: seq<PlannedMatch>, nodes: seq<Node>,
                             prev: seq<Contrib>, byes: seq<Bye>, j: nat)
  {
    && Built(leaves, rounds, offset, matches, nodes, (1, j))
    && |prev| == j && Row(prev, leaves, rounds, nodes, 1)
    && 2 * j <= |leaves| && |matches| + j == EntrantCount(leaves[..2 * j])
    && byes == ByesOf(leaves, offset, j)
  }

  lemma NextMatch(leaves: seq<Leaf>, rounds: nat, offset: int, matches: seq<PlannedMatch>, nodes: seq<Node>,
                  prev: seq<Contrib>, byes: seq<Bye>, j: nat)
    requires InRoundOne(leaves, rounds, offset, matches, nodes, prev, byes, j) && RealPair(leaves, j)
    ensures var m := NewMatch(|matches|, offset + 1, "", leaves[2 * j].ref, leaves[2 * j + 1].ref);
            InRoundOne(leaves, rounds, offset, matches + [m], nodes + [(1, j)], prev + [Feeder(|matches|)], byes, j + 1)
  {
    var m := NewMatch(|matches|, offset + 1, "", leaves[2 * j].ref, leaves[2 * j + 1].ref);
    BuildPair(leaves, rounds, offset, matches, nodes, j, m);
    RowAppends(prev, leaves, rounds, nodes, 1, j);
    EntrantsOfPair(leaves, j);
  }

  lemma NextBye(leaves: seq<Leaf>, rounds: nat, offset: int, matches: seq<PlannedMatch>, nodes: seq<Node>,
                prev: seq<Contrib>, byes: seq<Bye>, j: nat)
    requires InRoundOne(leaves, rounds, offset, matches, nodes, prev, byes, j)
    requires PairAt(leaves, j) && !RealPair(leaves, j) && !DoubleBye(leaves, j)
    ensures var ref := Survivor(leaves, j);
            InRoundOne(leaves, rounds, offset, matches, nodes, prev + [Placed(ref)],
                       byes + if ref.Concrete? then [Bye(ref.id, offset + 2)] else [], j + 1)
  {
    SkipPair(leaves, rounds, offset, matches, nodes, j);
    EntrantsOfPair(leaves, j);
  }

  method BuildRoundOne(leaves: seq<Leaf>, roundOffset: int, ghost rounds: nat)
    returns (matches: seq<PlannedMatch>, byes: seq<Bye>, prev: seq<Contrib>, ghost nodes: seq<Node>)
    requires IsBracket(leaves, rounds)
    ensures InRoundOne(leaves, rounds, roundOffset, matches, nodes, prev, byes, Pow2(rounds - 1))
    ensures |prev| == |leaves| / 2 && byes == ByesOf(leaves, roundOffset, |prev|)
  {
    matches, byes, prev, nodes := [], [], [], [];
    var r1nodes := |leaves| / 2;
    for j := 0 to r1nodes
      invariant InRoundOne(leaves, rounds, roundOffset, matches, nodes, prev, byes, j)
    {
      assert !DoubleBye(leaves, j);
      var la, lb := leaves[2 * j], leaves[2 * j + 1];
      match (la, lb) {
        case (Entrant(a), Entrant(b)) =>
          NextMatch(leaves, rounds, roundOffset, matches, nodes, prev, byes, j);
          var idx := |matches|;
          matches := matches + [NewMatch(idx, roundOffset + 1, "", a, b)];
          nodes := nodes + [(1, j)];
          prev := prev + [Feeder(idx)];
        case (ByeLeaf, Entrant(b)) =>
          NextBye(leaves, rounds, roundOffset, matches, nodes, prev, byes, j);
          prev := prev + [Placed(b)];
          byes := byes + if b.Concrete? then [Bye(b.id, roundOffset + 2)] else [];
        case (Entrant(a), ByeLeaf) =>
          NextBye(leaves, rounds, roundOffset, matches, nodes, prev, byes, j);
          prev := prev + [Placed(a)];
          byes := byes + if a.Concrete? then [Bye(a.id, roundOffset + 2)] else [];
        case (ByeLeaf, ByeLeaf) =>
          // the seed order never pairs two phantom labels
          assert false;
      }
    }
  }

  lemma RowGrows(cs: seq<Contrib>, leaves: seq<Leaf>, rounds: nat, nodes: seq<Node>, r: int, nd: Node)
    requires Row(cs, leaves, rounds, nodes, r)
    ensures Row(cs, leaves, rounds, nodes + [nd], r)
  {
  }

  /** Before node j of round r: prev is the finished row below, cur the part of this row done so far. */
  ghost predicate InRow(leaves: seq<Leaf>, rounds: nat, offset: int, matches: seq<PlannedMatch>, nodes: seq<Node>,
                        prev: seq<Contrib>, cur: seq<Contrib>, r: nat, j: nat)
  {
    && Built(leaves, rounds, offset, matches, nodes, (r, j))
    && Row(prev, leaves, rounds, nodes, r - 1)
    && |cur| == j && Row(cur, leaves, rounds, nodes, r)
  }

  lemma ChildrenOf(leaves: seq<Leaf>, rounds: nat, nodes: seq<Node>, prev: seq<Contrib>, r: nat, j: nat)
    requires IsBracket(leaves, rounds) && 2 <= r <= rounds && j < Pow2(rounds - r) && 2 * j + 1 < |prev|
    requires Row(prev, leaves, rounds, nodes, r - 1)
    ensures HandsUp(prev[2 * j], leaves, rounds, nodes, (r - 1, 2 * j))
    ensures HandsUp(prev[2 * j + 1], leaves, rounds, nodes, (r - 1, 2 * j + 1))
    ensures SlotFrom(prev[2 * j]) == SlotRefAt(leaves, (r, j), 1)
    ensures SlotFrom(prev[2 * j + 1]) == SlotRefAt(leaves, (r, j), 2)
  {
    assert HandsUp(prev[2 * j], leaves, rounds, nodes, (r - 1, 2 * j));
    assert HandsUp(prev[2 * j + 1], leaves, rounds, nodes, (r - 1, 2 * j + 1));
    SlotIsHandedUp(prev[2 * j], leaves, rounds, nodes, r, j, 1);
    SlotIsHandedUp(prev[2 * j + 1], leaves, rounds, nodes, r, j, 2);
  }

  lemma BuildNext(leaves: seq<Leaf>, rounds: nat, offset: int, matches: seq<PlannedMatch>, nodes: seq<Node>,
                  prev: seq<Contrib>, r: nat, j: nat)
    requires IsBracket(leaves, rounds) && 2 <= r <= rounds && j < Pow2(rounds - r) && 2 * j + 1 < |prev|
    requires Built(leaves, rounds, offset, matches, nodes, (r, j)) && Row(prev, leaves, rounds, nodes, r - 1)
    ensures CanWire(matches, prev[2 * j]) && CanWire(matches, prev[2 * j + 1])
    ensures Built(leaves, rounds, offset, Emit(matches, prev[2 * j], prev[2 * j + 1], offset + r), nodes + [(r, j)], (r, j + 1))
  {
    ChildrenOf(leaves, rounds, nodes, prev, r, j);
    BuildNode(leaves, rounds, offset, matches, nodes, r, j, prev[2 * j], prev[2 * j + 1]);
  }

  lemma NextInRow(leaves: seq<Leaf>, rounds: nat, offset: int, matches: seq<PlannedMatch>, nodes: seq<Node>,
                  prev: seq<Contrib>, cur: seq<Contrib>, r: nat, j: nat,
                  matches': seq<PlannedMatch>, nodes': seq<Node>, cur': seq<Contrib>)
    requires IsBracket(leaves, rounds) && 2 <= r <= rounds && j < Pow2(rounds - r) && 2 * j + 1 < |prev|
    requires InRow(leaves, rounds, offset, matches, nodes, prev, cur, r, j)
    requires CanWire(matches, prev[2 * j]) && CanWire(matches, prev[2 * j + 1])
    requires matches' == Emit(matches, prev[2 * j], prev[2 * j + 1], offset + r)
    requires nodes' == nodes + [(r, j)] && cur' == cur + [Feeder(|matches|)]
    ensures InRow(leaves, rounds, offset, matches', nodes', prev, cur', r, j + 1)
  {
    BuildNext(leaves, rounds, offset, matches, nodes, prev, r, j);
    RowGrows(prev, leaves, rounds, nodes, r - 1, (r, j));
    RowAppends(cur, leaves, rounds, nodes, r, j);
  }

  lemma CanWireRow(leaves: seq<Leaf>, rounds: nat, offset: int, matches: seq<PlannedMatch>, nodes: seq<Node>,
                   prev: seq<Contrib>, cur: seq<Contrib>, r: nat, j: nat, k: nat)
    requires InRow(leaves, rounds, offset, matches, nodes, prev, cur, r, j) && k < |prev|
    ensures CanWire(matches, prev[k])
  {
    assert HandsUp(prev[k], leaves, rounds, nodes, (r - 1, k));
  }

  lemma RowAppends(cur: seq<Contrib>, leaves: seq<Leaf>, rounds: nat, nodes: seq<Node>, r: int, j: int)
    requires Row(cur, leaves, rounds, nodes, r) && |cur| == j && IsNode(leaves, rounds, (r, j))
    ensures Row(cur + [Feeder(|nodes|)], leaves, rounds, nodes + [(r, j)], r)
  {
    RowGrows(cur, leaves, rounds, nodes, r, (r, j));
  }

  /** One later round: every node is a real match fed by its two children. */
  method BuildLaterRound(leaves: seq<Leaf>, roundOffset: int, r: nat, nodeCount: nat, matches0: seq<PlannedMatch>,
                         prev: seq<Contrib>, ghost nodes0: seq<Node>, ghost rounds: nat)
    returns (matches: seq<PlannedMatch>, cur: seq<Contrib>, ghost nodes: seq<Node>)
    requires IsBracket(leaves, rounds) && 2 <= r <= rounds
    requires nodeCount == Pow2(rounds - r) && |prev| == 2 * nodeCount
    requires InRow(leaves, rounds, roundOffset, matches0, nodes0, prev, [], r, 0)
    ensures InRow(leaves, rounds, roundOffset, matches, nodes, prev, cur, r, nodeCount)
    ensures |matches| == |matches0| + nodeCount
  {
    matches, cur, nodes := matches0, [], nodes0;
    for j := 0 to nodeCount
      invariant InRow(leaves, rounds, roundOffset, matches, nodes, prev, cur, r, j)
      invariant |matches| == |matches0| + j
    {
      CanWireRow(leaves, rounds, roundOffset, matches, nodes, prev, cur, r, j, 2 * j);
      CanWireRow(leaves, rounds, roundOffset, matches, nodes, prev, cur, r, j, 2 * j + 1);
      ghost var matches1, nodes1, cur1 := matches, nodes, cur;
      cur := cur + [Feeder(|matches|)];
      matches := EmitNode(matches, prev[2 * j], prev[2 * j + 1], roundOffset + r);
      nodes := nodes + [(r, j)];
      NextInRow(leaves, rounds, roundOffset, matches1, nodes1, prev, cur1, r, j, matches, nodes, cur);
    }
  }

  /** The loop body: wire child 2j to the home slot, child 2j+1 to the away slot, then append. */
  method EmitNode(matches0: seq<PlannedMatch>, left: Contrib, right: Contrib, round: int) returns (matches: seq<PlannedMatch>)
    requires CanWire(matches0, left) && CanWire(matches0, right)
    ensures matches == Emit(matches0, left, right, round)
  {
    var idx := |matches0|;
    var home, away;
    matches, home := WireChild(matches0, left, idx, 1);
    matches, away := WireChild(matches, right, idx, 2);
    matches := matches + [NewMatch(idx, round, "", home, away)];
  }

  lemma NextRow(leaves: seq<Leaf>, rounds: nat, offset: int, matches: seq<PlannedMatch>, nodes: seq<Node>,
                prev: seq<Contrib>, r: nat)
    requires IsBracket(leaves, rounds) && 1 <= r <= rounds
    requires Built(leaves, rounds, offset, matches, nodes, (r, Pow2(rounds - r))) && Row(prev, leaves, rounds, nodes, r)
    ensures InRow(leaves, rounds, offset, matches, nodes, prev, [], r + 1, 0)
  {
    EndRound(leaves, rounds, offset, matches, nodes, r);
  }

  lemma DividePow2(a: nat, b: nat)
    requires b <= a
    ensures Pow2(a) / Pow2(b) == Pow2(a - b)
  {
    SplitPow2(a, b);
    DivideProduct(Pow2(a - b), Pow2(b));
  }

  lemma {:induction false} SplitPow2(a: nat, b: nat)
    requires b <= a
    ensures Pow2(a) == Pow2(a - b) * Pow2(b)
  {
    if b > 0 { SplitPow2(a - 1, b - 1); }
  }

  lemma DivideProduct(q: nat, d: nat)
    requires d > 0
    ensures (q * d) / d == q
  {
    var k, r := (q * d) / d, (q * d) % d;
    assert q * d == d * k + r;
    if q > k { AtLeast(d, q - k); }
    if q < k { AtLeast(d, k - q); }
  }

  lemma AtLeast(d: nat, t: int)
    requires t >= 1
    ensures d * t >= d
  {
  }

  /** Matches with local indices, and the byes; nodes names the node of each match. */
  method BuildBracket(leaves: seq<Leaf>, roundOffset: int, ghost rounds: nat)
    returns (matches: seq<PlannedMatch>, byes: seq<Bye>, ghost nodes: seq<Node>)
    requires IsBracket(leaves, rounds)
    ensures Built(leaves, rounds, roundOffset, matches, nodes, (rounds + 1, 0))
    ensures |matches| == EntrantCount(leaves) - 1
    ensures byes == ByesOf(leaves, roundOffset, Pow2(rounds - 1))
  {
    var size := |leaves|;
    LeafCount(size, rounds);
    var last := Log2(size);
    var prev;
    matches, byes, prev, nodes := BuildRoundOne(leaves, roundOffset, rounds);
    assert leaves[..2 * Pow2(rounds - 1)] == leaves;
    NextRow(leaves, rounds, roundOffset, matches, nodes, prev, 1);
    for r := 2 to last + 1
      invariant |prev| == Pow2(rounds - r + 1)
      invariant InRow(leaves, rounds, roundOffset, matches, nodes, prev, [], r, 0)
      invariant |matches| + |prev| == EntrantCount(leaves)
    {
      DividePow2(rounds, r);
      var count := size / Pow2(r);
      matches, prev, nodes := BuildLaterRound(leaves, roundOffset, r, count, matches, prev, nodes, rounds);
      NextRow(leaves, rounds, roundOffset, matches, nodes, prev, r);
    }
  }

  lemma LeafCount(size: nat, rounds: nat)
    requires rounds >= 1 && size == 2 * Pow2(rounds - 1)
    ensures size == Pow2(rounds) && CeilLog(size) == rounds
  {
    CeilLogUnique(size, rounds);
  }
}
