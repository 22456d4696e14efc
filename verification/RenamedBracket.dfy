// A knockout drawn over placeholders becomes a knockout over participants when the placeholders are
// replaced (backend/internal/fixtures/knockout.go, lines 31-106; backend/internal/fixturegen/repository.go,
// lines 447-456).

module RenamedBracket {
  import opened FixtureModels
  import opened Bracket
  import opened Knockout

  /** names[i] stands for the i-th reference; anything else keeps its name. */
  ghost function Rename(refs: seq<SlotRef>, names: seq<string>, r: SlotRef): SlotRef
    requires |names| == |refs|
  {
    if r in refs then
      var i :| 0 <= i < |refs| && refs[i] == r;
      Concrete(names[i])
    else r
  }

  ghost function RenamedMatch(refs: seq<SlotRef>, names: seq<string>, m: PlannedMatch): PlannedMatch
    requires |names| == |refs|
  {
    m.(home := Rename(refs, names, m.home), away := Rename(refs, names, m.away))
  }

  ghost function RenameAll(refs: seq<SlotRef>, names: seq<string>, ms: seq<PlannedMatch>): seq<PlannedMatch>
    requires |names| == |refs|
  {
    seq(|ms|, i requires 0 <= i < |ms| => RenamedMatch(refs, names, ms[i]))
  }

  /** The leaves of the two fields agree up to the renaming. */
  ghost predicate SameField(refs: seq<SlotRef>, names: seq<string>, leaves: seq<Leaf>, leaves': seq<Leaf>)
    requires |names| == |refs|
  {
    |leaves| == |leaves'| && forall p | 0 <= p < |leaves| :: SameLeaf(refs, names, leaves[p], leaves'[p])
  }

  ghost predicate SameLeaf(refs: seq<SlotRef>, names: seq<string>, x: Leaf, y: Leaf)
    requires |names| == |refs|
  {
    match x
    case ByeLeaf => y == ByeLeaf
    case Entrant(r) => y == Entrant(Rename(refs, names, r))
  }

  lemma BuiltRenamed(refs: seq<SlotRef>, names: seq<string>, leaves: seq<Leaf>, leaves': seq<Leaf>, rounds: nat, offset: int,
                     ms: seq<PlannedMatch>, nodes: seq<Node>, next: Node)
    requires |names| == |refs| && SameField(refs, names, leaves, leaves') && NoTBD(refs)
    requires Built(leaves, rounds, offset, ms, nodes, next)
    ensures Built(leaves', rounds, offset, RenameAll(refs, names, ms), nodes, next)
  {
    var ms' := RenameAll(refs, names, ms);
    forall nd ensures IsNode(leaves', rounds, nd) <==> IsNode(leaves, rounds, nd) {
    }
    forall i | 0 <= i < |nodes|
      ensures Describes(ms'[i], i, offset, leaves', nodes[i]) && EdgeUpTo(ms', nodes, next, i)
    {
      assert Describes(ms[i], i, offset, leaves, nodes[i]) && EdgeUpTo(ms, nodes, next, i);
    }
  }

  /** The tree, the edges and the rounds stay; only the names change. */
  lemma RenamedKnockout(refs: seq<SlotRef>, names: seq<string>, m: nat, offset: int, ms: seq<PlannedMatch>, nodes: seq<Node>)
    requires |names| == |refs| >= 2 && Distinct(refs) && NoTBD(refs) && IsKnockout(refs, m, offset, ms, nodes)
    ensures IsKnockout(Entries(names), m, offset, RenameAll(refs, names, ms), nodes)
  {
    var leaves, leaves' := FieldLeaves(refs, m), FieldLeaves(Entries(names), m);
    BuiltRenamed(refs, names, leaves, leaves', m, offset, ms, nodes, (m + 1, 0));
    FieldEntrants(Entries(names), m);
    FieldComplete(Entries(names), m, offset, RenameAll(refs, names, ms), nodes);
  }
}
