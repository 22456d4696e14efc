// What a built bracket promises: one tree, fed slot by slot, with every
// entrant placed once (backend/internal/fixtures/knockout.go, lines 31-129;
// the integrity checks of backend/internal/fixtures/fixtures_test.go, lines 50-98).

module BracketTree {
  import opened FixtureModels
  import opened Counting
  import opened Bracket

  ghost function SlotOf(m: PlannedMatch, s: int): SlotRef {
    if s == 1 then m.home else m.away
  }

  ghost predicate Feeds(matches: seq<PlannedMatch>, i: int, t: int, s: int) {
    && 0 <= i < |matches| && 0 <= t < |matches| && (s == 1 || s == 2)
    && matches[i].nextMatchIndex == Some(t) && matches[i].nextSlot == Some(s)
  }

  /** A match has no outgoing edge, or one, forward to a TBD slot of a later round. */
  ghost predicate GoesForward(matches: seq<PlannedMatch>, i: int)
    requires 0 <= i < |matches|
  {
    || (matches[i].nextMatchIndex == None && matches[i].nextSlot == None)
    || exists t, s :: Feeds(matches, i, t, s) && i < t && SlotOf(matches[t], s) == TBD
                      && matches[i].roundNumber < matches[t].roundNumber
  }

  ghost predicate HasFeeder(matches: seq<PlannedMatch>, t: int, s: int) {
    exists i :: Feeds(matches, i, t, s)
  }

  /** Progression integrity: edges go forward, and the TBD slots are exactly the fed slots, each fed once. */
  ghost predicate Progression(matches: seq<PlannedMatch>) {
    && (forall i | 0 <= i < |matches| :: matches[i].index == i && GoesForward(matches, i))
    && (forall i, k, t, s | i != k && Feeds(matches, i, t, s) :: !Feeds(matches, k, t, s))
    && (forall t, s | 0 <= t < |matches| && (s == 1 || s == 2) ::
          SlotOf(matches[t], s) == TBD ==> HasFeeder(matches, t, s))
  }

  /** All but the last match feed a match of exactly the next round: a tree rooted at the last match. */
  ghost predicate Rooted(matches: seq<PlannedMatch>) {
    && |matches| > 0
    && matches[|matches|-1].nextMatchIndex == None
    && forall i | 0 <= i < |matches| - 1 :: FeedsNextRound(matches, i)
  }

  ghost predicate FeedsNextRound(matches: seq<PlannedMatch>, i: int)
    requires 0 <= i < |matches|
  {
    var next := matches[i].nextMatchIndex;
    next.Some? && i < next.value < |matches| && matches[next.value].roundNumber == matches[i].roundNumber + 1
  }

  /** A finished bracket whose leaves hold real references. */
  ghost predicate Complete(leaves: seq<Leaf>, rounds: nat, offset: int, matches: seq<PlannedMatch>, nodes: seq<Node>) {
    && IsBracket(leaves, rounds)
    && Built(leaves, rounds, offset, matches, nodes, (rounds + 1, 0))
    && (forall p | 0 <= p < |leaves| && leaves[p].Entrant? :: leaves[p].ref != TBD)
    && |matches| > 0
  }

  /** The root node comes last. */
  lemma RootIsLast(leaves: seq<Leaf>, rounds: nat, offset: int, matches: seq<PlannedMatch>, nodes: seq<Node>)
    requires Complete(leaves, rounds, offset, matches, nodes)
    ensures nodes[|nodes|-1] == (rounds, 0)
  {
    var last := |nodes| - 1;
    if rounds >= 2 {
      assert (rounds, 0) in nodes;
    }
  }

  /** A node below the root is wired to the node above it. */
  lemma EdgeOf(leaves: seq<Leaf>, rounds: nat, offset: int, matches: seq<PlannedMatch>, nodes: seq<Node>, i: nat)
    requires Complete(leaves, rounds, offset, matches, nodes) && i < |matches|
    ensures nodes[i].0 < rounds ==> WiredTo(matches[i], nodes, nodes[i])
    ensures nodes[i].0 == rounds ==> i == |matches| - 1 && Unwired(matches[i])
  {
    assert EdgeUpTo(matches, nodes, (rounds + 1, 0), i);
    if nodes[i].0 == rounds {
      RootIsLast(leaves, rounds, offset, matches, nodes);
      assert nodes[i] == (rounds, 0);
    }
  }

  lemma EdgeGoesForward(leaves: seq<Leaf>, rounds: nat, offset: int, matches: seq<PlannedMatch>, nodes: seq<Node>, i: nat)
    requires Complete(leaves, rounds, offset, matches, nodes) && i < |matches| - 1
    ensures WiredTo(matches[i], nodes, nodes[i])
    ensures var (t, s) := (matches[i].nextMatchIndex.value, matches[i].nextSlot.value);
            i < t && Feeds(matches, i, t, s) && SlotOf(matches[t], s) == TBD
    ensures FeedsNextRound(matches, i)
  {
    EdgeOf(leaves, rounds, offset, matches, nodes, i);
    var t, s := matches[i].nextMatchIndex.value, matches[i].nextSlot.value;
    assert Describes(matches[t], t, offset, leaves, nodes[t]);
    assert 2 * nodes[t].1 + s - 1 == nodes[i].1;
  }

  /** A TBD slot of node (r, j) is fed by its child on that side. */
  lemma SlotIsFed(leaves: seq<Leaf>, rounds: nat, offset: int, matches: seq<PlannedMatch>, nodes: seq<Node>, t: nat, s: int)
    requires Complete(leaves, rounds, offset, matches, nodes) && t < |matches| && (s == 1 || s == 2)
    requires SlotOf(matches[t], s) == TBD
    ensures HasFeeder(matches, t, s)
  {
    assert Describes(matches[t], t, offset, leaves, nodes[t]);
    var i := IndexOf(leaves, rounds, nodes, (rounds + 1, 0), (nodes[t].0 - 1, 2 * nodes[t].1 + s - 1));
    ChildFeeds(leaves, rounds, offset, matches, nodes, i, t, s);
  }

  lemma IndexOf(leaves: seq<Leaf>, rounds: nat, nodes: seq<Node>, next: Node, nd: Node) returns (i: nat)
    requires Listed(leaves, rounds, nodes, next) && IsNode(leaves, rounds, nd) && Before(nd, next)
    ensures i < |nodes| && nodes[i] == nd
  {
    assert nd in nodes;
    i :| 0 <= i < |nodes| && nodes[i] == nd;
  }

  lemma ChildFeeds(leaves: seq<Leaf>, rounds: nat, offset: int, matches: seq<PlannedMatch>, nodes: seq<Node>, i: nat, t: nat, s: int)
    requires Complete(leaves, rounds, offset, matches, nodes) && i < |matches| && t < |matches| && (s == 1 || s == 2)
    requires nodes[i] == (nodes[t].0 - 1, 2 * nodes[t].1 + s - 1)
    ensures Feeds(matches, i, t, s)
  {
    assert Before(nodes[t], (rounds + 1, 0));
    EdgeOf(leaves, rounds, offset, matches, nodes, i);
    assert ParentNode(nodes[i]) == nodes[t] && ParentSlot(nodes[i]) == s;
  }

  /** No two matches feed the same slot: a slot names its child. */
  lemma SlotFedOnce(leaves: seq<Leaf>, rounds: nat, offset: int, matches: seq<PlannedMatch>, nodes: seq<Node>, i: int, k: int, t: int, s: int)
    requires Complete(leaves, rounds, offset, matches, nodes)
    requires Feeds(matches, i, t, s) && Feeds(matches, k, t, s)
    ensures i == k
  {
    EdgeOf(leaves, rounds, offset, matches, nodes, i);
    EdgeOf(leaves, rounds, offset, matches, nodes, k);
    assert nodes[i] == (nodes[t].0 - 1, 2 * nodes[t].1 + s - 1);
    assert nodes[k] == (nodes[t].0 - 1, 2 * nodes[t].1 + s - 1);
  }

  lemma BracketIsTree(leaves: seq<Leaf>, rounds: nat, offset: int, matches: seq<PlannedMatch>, nodes: seq<Node>)
    requires Complete(leaves, rounds, offset, matches, nodes)
    ensures Progression(matches) && Rooted(matches)
  {
    RootIsLast(leaves, rounds, offset, matches, nodes);
    EdgeOf(leaves, rounds, offset, matches, nodes, |matches| - 1);
    forall i | 0 <= i < |matches|
      ensures matches[i].index == i && GoesForward(matches, i)
    {
      assert Describes(matches[i], i, offset, leaves, nodes[i]);
      if i < |matches| - 1 { EdgeGoesForward(leaves, rounds, offset, matches, nodes, i); }
    }
    forall i | 0 <= i < |matches| - 1 ensures FeedsNextRound(matches, i) {
      EdgeGoesForward(leaves, rounds, offset, matches, nodes, i);
    }
    forall i, k, t, s | i != k && Feeds(matches, i, t, s) ensures !Feeds(matches, k, t, s) {
      if Feeds(matches, k, t, s) { SlotFedOnce(leaves, rounds, offset, matches, nodes, i, k, t, s); }
    }
    forall t, s | 0 <= t < |matches| && (s == 1 || s == 2)
      ensures SlotOf(matches[t], s) == TBD ==> HasFeeder(matches, t, s)
    {
      if SlotOf(matches[t], s) == TBD { SlotIsFed(leaves, rounds, offset, matches, nodes, t, s); }
    }
  }

  // ---- where the entrants go ----

  /** The slot that leaf p's entrant is written to: its round-one match, or, with a bye, its round-two match. */
  ghost function PlaceOf(leaves: seq<Leaf>, p: nat): (Node, int) {
    var j := p / 2;
    if RealPair(leaves, j) then ((1, j), 1 + p % 2) else ((2, j / 2), 1 + j % 2)
  }

  /** Every filled slot was filled from a leaf placed there. */
  lemma FilledFromLeaf(leaves: seq<Leaf>, rounds: nat, nd: Node, s: int) returns (p: nat)
    requires IsBracket(leaves, rounds) && IsNode(leaves, rounds, nd) && (s == 1 || s == 2)
    requires SlotRefAt(leaves, nd, s) != TBD
    ensures p < |leaves| && leaves[p].Entrant? && leaves[p].ref == SlotRefAt(leaves, nd, s)
    ensures PlaceOf(leaves, p) == (nd, s)
  {
    var c := 2 * nd.1 + s - 1;
    if nd.0 == 1 {
      p := c;
    } else {
      assert c / 2 == nd.1 && c % 2 == s - 1;
      p := if leaves[2 * c].Entrant? then 2 * c else 2 * c + 1;
    }
  }

  /** leaf p's entrant sits in slot s of match t and nowhere else. */
  ghost predicate PlacedOnce(matches: seq<PlannedMatch>, ref: SlotRef) {
    && (exists t, s :: Holds(matches, t, s, ref))
    && (forall t, s, t', s' | Holds(matches, t, s, ref) && Holds(matches, t', s', ref) :: t == t' && s == s')
  }

  ghost predicate Holds(matches: seq<PlannedMatch>, t: int, s: int, ref: SlotRef) {
    0 <= t < |matches| && (s == 1 || s == 2) && SlotOf(matches[t], s) == ref
  }

  ghost predicate DistinctEntrants(leaves: seq<Leaf>) {
    forall p, q | 0 <= p < q < |leaves| && leaves[p].Entrant? && leaves[q].Entrant? :: leaves[p].ref != leaves[q].ref
  }

  lemma EntrantsPlacedOnce(leaves: seq<Leaf>, rounds: nat, offset: int, matches: seq<PlannedMatch>, nodes: seq<Node>, p: nat)
    requires Complete(leaves, rounds, offset, matches, nodes) && DistinctEntrants(leaves)
    requires p < |leaves| && leaves[p].Entrant?
    ensures PlacedOnce(matches, leaves[p].ref)
  {
    if rounds == 1 {
      assert nodes[0].0 == 1 && nodes[0].1 == 0;
    }
    var (nd, s) := PlaceOf(leaves, p);
    var t := IndexOf(leaves, rounds, nodes, (rounds + 1, 0), nd);
    assert Holds(matches, t, s, leaves[p].ref);
    forall t', s' | Holds(matches, t', s', leaves[p].ref) ensures t' == t && s' == s {
      HolderIsPlace(leaves, rounds, offset, matches, nodes, p, t', s');
    }
  }

  lemma HolderIsPlace(leaves: seq<Leaf>, rounds: nat, offset: int, matches: seq<PlannedMatch>, nodes: seq<Node>, p: nat, t: nat, s: int)
    requires Complete(leaves, rounds, offset, matches, nodes) && DistinctEntrants(leaves)
    requires p < |leaves| && leaves[p].Entrant? && Holds(matches, t, s, leaves[p].ref)
    ensures PlaceOf(leaves, p) == (nodes[t], s)
  {
    assert Describes(matches[t], t, offset, leaves, nodes[t]);
    var q := FilledFromLeaf(leaves, rounds, nodes[t], s);
    assert q == p;
  }

  /** And nothing else is written: every filled slot holds some entrant. */
  lemma SlotsHoldEntrants(leaves: seq<Leaf>, rounds: nat, offset: int, matches: seq<PlannedMatch>, nodes: seq<Node>, t: nat, s: int)
    returns (p: nat)
    requires Complete(leaves, rounds, offset, matches, nodes)
    requires t < |matches| && (s == 1 || s == 2) && SlotOf(matches[t], s) != TBD
    ensures p < |leaves| && leaves[p].Entrant? && SlotOf(matches[t], s) == leaves[p].ref
    ensures PlaceOf(leaves, p) == (nodes[t], s)
  {
    assert Describes(matches[t], t, offset, leaves, nodes[t]);
    p := FilledFromLeaf(leaves, rounds, nodes[t], s);
  }
}
