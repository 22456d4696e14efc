// The plan a fixture builder produces (backend/internal/fixtures/models.go).

module FixtureModels {

  datatype Option<+T> = None | Some(value: T)

  datatype Result<+T, +E> = Ok(value: T) | Err(error: E)

  datatype Participant = Participant(id: string, seedNumber: Option<int>, registeredAt: int)

  datatype SlotRef =
    | Concrete(id: string)
    | TBD
    | Qualifier(group: string, rank: int)

  /** Display strings (round names) are not modelled; "" is the absent group label. */
  datatype PlannedMatch = PlannedMatch(
    index: int,
    roundNumber: int,
    matchNumber: int,
    groupLabel: string,
    home: SlotRef,
    away: SlotRef,
    nextMatchIndex: Option<int>,
    nextSlot: Option<int>)

  datatype Bye = Bye(participantId: string, intoRound: int)

  /** A match as the builders first write it: no number and no outgoing edge yet. */
  function NewMatch(index: int, round: int, group: string, home: SlotRef, away: SlotRef): PlannedMatch {
    PlannedMatch(index, round, 0, group, home, away, None, None)
  }

  function Ids(ps: seq<Participant>): seq<string> {
    seq(|ps|, i requires 0 <= i < |ps| => ps[i].id)
  }

  predicate Distinct<T(==)>(s: seq<T>) {
    forall i, j | 0 <= i < j < |s| :: s[i] != s[j]
  }

  /** to lists the elements of from at the increasing positions at. */
  ghost predicate Picks<T>(from: seq<T>, to: seq<T>, at: seq<nat>) {
    && |at| == |to|
    && (forall k | 0 <= k < |at| :: at[k] < |from| && to[k] == from[at[k]])
    && (forall k, l | 0 <= k < l < |at| :: at[k] < at[l])
  }

  /** The positions are those of the elements that satisfy p. */
  ghost predicate PicksAll<T>(from: seq<T>, to: seq<T>, at: seq<nat>, p: T -> bool) {
    Picks(from, to, at) && forall i | 0 <= i < |from| :: i in at <==> p(from[i])
  }

  /** The last element is taken or passed over. */
  lemma PicksGrow<T>(from: seq<T>, to: seq<T>, at: seq<nat>, p: T -> bool)
    requires from != [] && PicksAll(from[..|from|-1], to, at, p)
    ensures if p(from[|from|-1]) then PicksAll(from, to + [from[|from|-1]], at + [|from| - 1], p) else PicksAll(from, to, at, p)
  {
    var n := |from| - 1;
    forall i | 0 <= i < n ensures i in at <==> p(from[i]) {
      assert from[..n][i] == from[i];
    }
    assert n !in at;
  }
}

// Counting the elements of a sequence that satisfy a predicate.
module Counting {

  ghost function Count<T(!new)>(s: seq<T>, p: T -> bool): nat {
    if s == [] then 0 else Count(s[..|s|-1], p) + if p(s[|s|-1]) then 1 else 0
  }

  lemma CountSnoc<T(!new)>(s: seq<T>, x: T, p: T -> bool)
    ensures Count(s + [x], p) == Count(s, p) + if p(x) then 1 else 0
  {
    assert (s + [x])[..|s|] == s;
  }

  lemma {:induction false} CountConcat<T(!new)>(a: seq<T>, b: seq<T>, p: T -> bool)
    ensures Count(a + b, p) == Count(a, p) + Count(b, p)
  {
    if b == [] {
      assert a + b == a;
    } else {
      CountConcat(a, b[..|b|-1], p);
      assert (a + b)[..|a+b|-1] == a + b[..|b|-1];
    }
  }

  /** Counts agree when the predicates agree position by position. */
  lemma {:induction false} CountSame<T(!new), U(!new)>(s: seq<T>, t: seq<U>, p: T -> bool, q: U -> bool)
    requires |s| == |t| && forall i | 0 <= i < |s| :: p(s[i]) <==> q(t[i])
    ensures Count(s, p) == Count(t, q)
  {
    if s != [] {
      CountSame(s[..|s|-1], t[..|t|-1], p, q);
    }
  }

  lemma {:induction false} CountNone<T(!new)>(s: seq<T>, p: T -> bool)
    requires forall i | 0 <= i < |s| :: !p(s[i])
    ensures Count(s, p) == 0
  {
    if s != [] { CountNone(s[..|s|-1], p); }
  }

  /** f carries the positions where p holds one-to-one onto target. */
  ghost predicate Enumerates<T(!new)>(s: seq<T>, p: T -> bool, f: T -> int, target: set<int>) {
    && (forall k | 0 <= k < |s| && p(s[k]) :: f(s[k]) in target)
    && (forall k, l | 0 <= k < l < |s| && p(s[k]) && p(s[l]) :: f(s[k]) != f(s[l]))
    && (forall y | y in target :: Hits(s, p, f, y))
  }

  ghost predicate Hits<T(!new)>(s: seq<T>, p: T -> bool, f: T -> int, y: int) {
    exists k :: 0 <= k < |s| && p(s[k]) && f(s[k]) == y
  }

  lemma NothingHits<T(!new)>(p: T -> bool, f: T -> int, y: int)
    ensures !Hits([], p, f, y)
  {
  }

  lemma {:induction false} CountIsSize<T(!new)>(s: seq<T>, p: T -> bool, f: T -> int, target: set<int>)
    requires Enumerates(s, p, f, target)
    ensures Count(s, p) == |target|
  {
    if s == [] {
      forall y ensures y !in target {
        NothingHits(p, f, y);
      }
      assert target == {};
    } else {
      var rest, z := s[..|s|-1], s[|s|-1];
      var target' := if p(z) then target - {f(z)} else target;
      forall y | y in target' ensures Hits(rest, p, f, y) {
        assert Hits(s, p, f, y);
        var k :| 0 <= k < |s| && p(s[k]) && f(s[k]) == y;
        assert rest[k] == s[k];
      }
      CountIsSize(rest, p, f, target');
    }
  }
}
