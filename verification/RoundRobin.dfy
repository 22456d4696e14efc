// Round-robin and multi-leg leagues (backend/internal/fixtures/roundrobin.go, lines 15-52).

module RoundRobin {
  import opened FixtureModels
  import opened Counting
  import opened Balance
  import opened Circle

  /** One pairing with its home side decided. */
  datatype Oriented = Oriented(home: int, away: int, round: int)

  function Orient(orient: Orientation, p: Pair): (o: Oriented)
    ensures o.round == p.round && Joins(p, o.home, o.away)
  {
    var (h, a) := HomeAway(orient, p.a, p.b);
    Oriented(h, a, p.round)
  }

  function OrientAll(orient: Orientation, pairs: seq<Pair>): seq<Oriented> {
    seq(|pairs|, k requires 0 <= k < |pairs| => Orient(orient, pairs[k]))
  }

  /** Game k of a leg: odd legs mirror leg 0. */
  function LegMatch(ids: seq<string>, o: Oriented, leg: nat, rounds: int, index: int): PlannedMatch
    requires 0 <= o.home < |ids| && 0 <= o.away < |ids|
  {
    var (h, a) := if leg % 2 == 1 then (o.away, o.home) else (o.home, o.away);
    NewMatch(index, o.round + leg * rounds, "", Concrete(ids[h]), Concrete(ids[a]))
  }

  predicate Plays(n: nat, leg0: seq<Oriented>) {
    forall k | 0 <= k < |leg0| :: 0 <= leg0[k].home < n && 0 <= leg0[k].away < n
  }

  function LegMatches(ids: seq<string>, leg0: seq<Oriented>, leg: nat, rounds: int, base: int): seq<PlannedMatch>
    requires Plays(|ids|, leg0)
  {
    seq(|leg0|, k requires 0 <= k < |leg0| => LegMatch(ids, leg0[k], leg, rounds, base + k))
  }

  function Schedule(ids: seq<string>, leg0: seq<Oriented>, legs: nat, rounds: int): seq<PlannedMatch>
    requires Plays(|ids|, leg0)
  {
    if legs == 0 then []
    else
      var earlier := Schedule(ids, leg0, legs - 1, rounds);
      earlier + LegMatches(ids, leg0, legs - 1, rounds, |earlier|)
  }

  /** leg 0 is a one-factorisation oriented by a balanced orientation. */
  ghost predicate IsLeg(n: nat, leg0: seq<Oriented>, pairs: seq<Pair>, orient: Orientation) {
    IsFactorization(n, pairs) && IsBalanced(orient, n) && leg0 == OrientAll(orient, pairs)
  }

  method BuildRoundRobin(seeded: seq<Participant>, legs: nat)
    returns (matches: seq<PlannedMatch>, ghost leg0: seq<Oriented>, ghost pairs: seq<Pair>, ghost orient: Orientation)
    ensures IsLeg(|seeded|, leg0, pairs, orient) && Plays(|seeded|, leg0)
    ensures matches == Schedule(Ids(seeded), leg0, legs, EvenCount(|seeded|) - 1)
    ensures exists l, p, o :: IsLeg(|seeded|, l, p, o) && Plays(|seeded|, l)
                              && matches == Schedule(Ids(seeded), l, legs, EvenCount(|seeded|) - 1)
  {
    var ids := Ids(seeded);
    var n := |seeded|;
    var ps := CirclePairs(n);
    var roundsPerLeg := EvenCount(n) - 1;
    var ori := OrientBalanced(n);
    var first: seq<Oriented> := [];
    for k := 0 to |ps|
      invariant first == OrientAll(ori, ps[..k])
    {
      var (h, a) := HomeAway(ori, ps[k].a, ps[k].b);
      first := first + [Oriented(h, a, ps[k].round)];
    }
    assert ps[..|ps|] == ps;
    leg0, pairs, orient := first, ps, ori;

    matches := [];
    for leg := 0 to legs
      invariant matches == Schedule(ids, first, leg, roundsPerLeg)
    {
      matches := AppendLeg(matches, ids, first, leg, roundsPerLeg);
    }
    assert IsLeg(|seeded|, leg0, pairs, orient) && Plays(|seeded|, leg0);
  }

  /** One leg: the leg-0 pairings, mirrored in odd legs, in rounds after the earlier legs. */
  method AppendLeg(earlier: seq<PlannedMatch>, ids: seq<string>, first: seq<Oriented>, leg: nat, roundsPerLeg: int)
    returns (matches: seq<PlannedMatch>)
    requires Plays(|ids|, first)
    ensures matches == earlier + LegMatches(ids, first, leg, roundsPerLeg, |earlier|)
  {
    matches := earlier;
    for k := 0 to |first|
      invariant matches == earlier + LegMatches(ids, first, leg, roundsPerLeg, |earlier|)[..k]
    {
      var h, a := first[k].home, first[k].away;
      if leg % 2 == 1 {
        h, a := a, h;
      }
      var round := first[k].round + leg * roundsPerLeg;
      matches := matches + [NewMatch(|matches|, round, "", Concrete(ids[h]), Concrete(ids[a]))];
      assert matches[|matches|-1] == LegMatches(ids, first, leg, roundsPerLeg, |earlier|)[k];
    }
  }

  // ---- what the schedule promises ----

  ghost function Game(home: string, away: string): PlannedMatch -> bool {
    (m: PlannedMatch) => m.home == Concrete(home) && m.away == Concrete(away)
  }

  ghost function HomeGame(id: string): PlannedMatch -> bool {
    (m: PlannedMatch) => m.home == Concrete(id)
  }

  ghost function AwayGame(id: string): PlannedMatch -> bool {
    (m: PlannedMatch) => m.away == Concrete(id)
  }

  ghost function Arc(x: int, y: int): Oriented -> bool {
    (o: Oriented) => o.home == x && o.away == y
  }

  ghost function AtHome(x: int): Oriented -> bool {
    (o: Oriented) => o.home == x
  }

  ghost function Away(x: int): Oriented -> bool {
    (o: Oriented) => o.away == x
  }

  /** What adds up over the legs when every even leg contributes one number and every odd leg the other. */
  ghost function OverLegs(legs: nat, even: nat, odd: nat): nat {
    if legs == 0 then 0 else OverLegs(legs - 1, even, odd) + if legs % 2 == 1 then even else odd
  }

  /** In block `leg`, p holds of a game as `even` or, mirrored, as `odd` holds of its leg-0 pairing. */
  ghost predicate Mirrors(ids: seq<string>, leg0: seq<Oriented>, rounds: int,
                          p: PlannedMatch -> bool, even: Oriented -> bool, odd: Oriented -> bool)
    requires Plays(|ids|, leg0)
  {
    forall k, leg: nat, index | 0 <= k < |leg0| ::
      p(LegMatch(ids, leg0[k], leg, rounds, index)) <==> if leg % 2 == 0 then even(leg0[k]) else odd(leg0[k])
  }

  lemma CountLeg(ids: seq<string>, leg0: seq<Oriented>, leg: nat, rounds: int, base: int,
                 p: PlannedMatch -> bool, even: Oriented -> bool, odd: Oriented -> bool)
    requires Plays(|ids|, leg0) && Mirrors(ids, leg0, rounds, p, even, odd)
    ensures leg % 2 == 0 ==> Count(LegMatches(ids, leg0, leg, rounds, base), p) == Count(leg0, even)
    ensures leg % 2 == 1 ==> Count(LegMatches(ids, leg0, leg, rounds, base), p) == Count(leg0, odd)
  {
    if leg % 2 == 0 {
      CountSame(LegMatches(ids, leg0, leg, rounds, base), leg0, p, even);
    } else {
      CountSame(LegMatches(ids, leg0, leg, rounds, base), leg0, p, odd);
    }
  }

  lemma CountOneMoreLeg(ids: seq<string>, leg0: seq<Oriented>, legs: nat, rounds: int,
                        p: PlannedMatch -> bool, even: Oriented -> bool, odd: Oriented -> bool)
    requires Plays(|ids|, leg0) && Mirrors(ids, leg0, rounds, p, even, odd) && legs > 0
    ensures var before := Count(Schedule(ids, leg0, legs - 1, rounds), p);
            && (legs % 2 == 1 ==> Count(Schedule(ids, leg0, legs, rounds), p) == before + Count(leg0, even))
            && (legs % 2 == 0 ==> Count(Schedule(ids, leg0, legs, rounds), p) == before + Count(leg0, odd))
  {
    var leg := legs - 1;
    var earlier := Schedule(ids, leg0, leg, rounds);
    var block := LegMatches(ids, leg0, leg, rounds, |earlier|);
    assert Schedule(ids, leg0, legs, rounds) == earlier + block;
    assert legs % 2 == 1 <==> leg % 2 == 0;
    CountConcat(earlier, block, p);
    CountLeg(ids, leg0, leg, rounds, |earlier|, p, even, odd);
  }

  /** Over a whole schedule each leg-0 count appears once per even leg, mirrored once per odd leg. */
  lemma {:induction false} CountSchedule(
    ids: seq<string>, leg0: seq<Oriented>, legs: nat, rounds: int,
    p: PlannedMatch -> bool, even: Oriented -> bool, odd: Oriented -> bool)
    requires Plays(|ids|, leg0) && Mirrors(ids, leg0, rounds, p, even, odd)
    ensures Count(Schedule(ids, leg0, legs, rounds), p) == OverLegs(legs, Count(leg0, even), Count(leg0, odd))
  {
    if legs > 0 {
      CountSchedule(ids, leg0, legs - 1, rounds, p, even, odd);
      CountOneMoreLeg(ids, leg0, legs, rounds, p, even, odd);
    }
  }

  /** In leg 0 the two meet once, at the side the orientation chose. */
  lemma LegMeetsOnce(n: nat, leg0: seq<Oriented>, pairs: seq<Pair>, orient: Orientation, x: int, y: int)
    requires IsLeg(n, leg0, pairs, orient) && 0 <= x < n && 0 <= y < n && x != y
    ensures Count(leg0, Arc(x, y)) + Count(leg0, Arc(y, x)) == 1
    ensures Count(leg0, Arc(x, y)) == if HomeAway(orient, x, y) == (x, y) then 1 else 0
  {
    LegArc(n, leg0, pairs, orient, x, y);
    LegArc(n, leg0, pairs, orient, y, x);
  }

  lemma LegArc(n: nat, leg0: seq<Oriented>, pairs: seq<Pair>, orient: Orientation, x: int, y: int)
    requires IsLeg(n, leg0, pairs, orient) && 0 <= x < n && 0 <= y < n && x != y
    ensures Count(leg0, Arc(x, y)) == if HomeAway(orient, x, y) == (x, y) then 1 else 0
  {
    if HomeAway(orient, x, y) == (x, y) {
      assert Met(pairs, x, y) by {
        assert Met(pairs, if x < y then x else y, if x < y then y else x);
      }
      var k :| 0 <= k < |pairs| && Joins(pairs[k], x, y);
      assert leg0[k].away == y;
      assert Hits(leg0, Arc(x, y), (o: Oriented) => o.away, y);
      CountIsSize(leg0, Arc(x, y), (o: Oriented) => o.away, {y});
    } else {
      CountNone(leg0, Arc(x, y));
    }
  }

  /** The game of x and y in leg 0. */
  lemma LegGame(n: nat, leg0: seq<Oriented>, pairs: seq<Pair>, orient: Orientation, x: int, y: int) returns (k: nat)
    requires IsLeg(n, leg0, pairs, orient) && 0 <= x < n && 0 <= y < n && x != y
    ensures k < |leg0| && Joins(pairs[k], x, y)
    ensures (leg0[k].home, leg0[k].away) == HomeAway(orient, x, y)
  {
    var lo, hi := if x < y then x else y, if x < y then y else x;
    assert Met(pairs, lo, hi);
    k :| 0 <= k < |pairs| && Joins(pairs[k], lo, hi);
    assert leg0[k] == Orient(orient, pairs[k]);
  }

  /** Leg 0 sends x home against exactly the opponents the orientation names. */
  lemma LegHomeGames(n: nat, leg0: seq<Oriented>, pairs: seq<Pair>, orient: Orientation, x: int)
    requires IsLeg(n, leg0, pairs, orient) && 0 <= x < n
    ensures Count(leg0, AtHome(x)) == |HomeOpponents(orient, n, x)|
  {
    var f := (o: Oriented) => o.away;
    forall y | y in HomeOpponents(orient, n, x) ensures Hits(leg0, AtHome(x), f, y) {
      var k := LegGame(n, leg0, pairs, orient, x, y);
      assert f(leg0[k]) == y;
    }
    CountIsSize(leg0, AtHome(x), f, HomeOpponents(orient, n, x));
  }

  lemma LegAwayGames(n: nat, leg0: seq<Oriented>, pairs: seq<Pair>, orient: Orientation, x: int)
    requires IsLeg(n, leg0, pairs, orient) && 0 <= x < n
    ensures Count(leg0, Away(x)) == |AwayOpponents(orient, n, x)|
  {
    var f := (o: Oriented) => o.home;
    forall y | y in AwayOpponents(orient, n, x) ensures Hits(leg0, Away(x), f, y) {
      var k := LegGame(n, leg0, pairs, orient, x, y);
      assert f(leg0[k]) == y;
    }
    CountIsSize(leg0, Away(x), f, AwayOpponents(orient, n, x));
  }

  /** A league over distinct ids, as built by BuildRoundRobin. */
  ghost predicate IsLeague(ids: seq<string>, legs: nat, matches: seq<PlannedMatch>,
                           leg0: seq<Oriented>, pairs: seq<Pair>, orient: Orientation)
  {
    && Distinct(ids) && IsLeg(|ids|, leg0, pairs, orient) && Plays(|ids|, leg0)
    && matches == Schedule(ids, leg0, legs, EvenCount(|ids|) - 1)
  }

  /** Every two participants meet exactly `legs` times, the first at home in half of them (one up or down for odd legs). */
  lemma EveryPairMeets(ids: seq<string>, legs: nat, matches: seq<PlannedMatch>,
                       leg0: seq<Oriented>, pairs: seq<Pair>, orient: Orientation, x: int, y: int)
    requires IsLeague(ids, legs, matches, leg0, pairs, orient)
    requires 0 <= x < |ids| && 0 <= y < |ids| && x != y
    ensures Count(matches, Game(ids[x], ids[y])) + Count(matches, Game(ids[y], ids[x])) == legs
    ensures Count(matches, Game(ids[x], ids[y])) == (legs + if HomeAway(orient, x, y) == (x, y) then 1 else 0) / 2
  {
    DirectedMeetings(ids, legs, matches, leg0, pairs, orient, x, y);
    DirectedMeetings(ids, legs, matches, leg0, pairs, orient, y, x);
  }

  lemma DirectedMeetings(ids: seq<string>, legs: nat, matches: seq<PlannedMatch>,
                         leg0: seq<Oriented>, pairs: seq<Pair>, orient: Orientation, x: int, y: int)
    requires IsLeague(ids, legs, matches, leg0, pairs, orient)
    requires 0 <= x < |ids| && 0 <= y < |ids| && x != y
    ensures Count(matches, Game(ids[x], ids[y])) == (legs + if HomeAway(orient, x, y) == (x, y) then 1 else 0) / 2
  {
    var rounds := EvenCount(|ids|) - 1;
    GamesMirror(ids, leg0, rounds, x, y);
    CountSchedule(ids, leg0, legs, rounds, Game(ids[x], ids[y]), Arc(x, y), Arc(y, x));
    LegMeetsOnce(|ids|, leg0, pairs, orient, x, y);
    OverLegsUnit(legs, Count(leg0, Arc(x, y)), Count(leg0, Arc(y, x)));
  }

  lemma {:induction false} OverLegsUnit(legs: nat, even: nat, odd: nat)
    requires even + odd == 1
    ensures OverLegs(legs, even, odd) == (legs + even) / 2
  {
    if legs > 0 { OverLegsUnit(legs - 1, even, odd); }
  }

  lemma GamesMirror(ids: seq<string>, leg0: seq<Oriented>, rounds: int, x: int, y: int)
    requires Distinct(ids) && Plays(|ids|, leg0) && 0 <= x < |ids| && 0 <= y < |ids|
    ensures Mirrors(ids, leg0, rounds, Game(ids[x], ids[y]), Arc(x, y), Arc(y, x))
    ensures Mirrors(ids, leg0, rounds, HomeGame(ids[x]), AtHome(x), Away(x))
    ensures Mirrors(ids, leg0, rounds, AwayGame(ids[x]), Away(x), AtHome(x))
  {
  }

  /** Home and away games differ by at most one; not at all for an even number of legs or an odd field. */
  lemma HomeAwayBalanced(ids: seq<string>, legs: nat, matches: seq<PlannedMatch>,
                         leg0: seq<Oriented>, pairs: seq<Pair>, orient: Orientation, x: int)
    requires IsLeague(ids, legs, matches, leg0, pairs, orient) && 0 <= x < |ids|
    ensures var d := Count(matches, HomeGame(ids[x])) - Count(matches, AwayGame(ids[x]));
            if legs % 2 == 0 || |ids| % 2 == 1 then d == 0 else d == 1 || d == -1
  {
    var rounds := EvenCount(|ids|) - 1;
    GamesMirror(ids, leg0, rounds, x, x);
    CountSchedule(ids, leg0, legs, rounds, HomeGame(ids[x]), AtHome(x), Away(x));
    CountSchedule(ids, leg0, legs, rounds, AwayGame(ids[x]), Away(x), AtHome(x));
    LegHomeGames(|ids|, leg0, pairs, orient, x);
    LegAwayGames(|ids|, leg0, pairs, orient, x);
    OverLegsDifference(legs, Count(leg0, AtHome(x)), Count(leg0, Away(x)));
  }

  lemma {:induction false} OverLegsDifference(legs: nat, h: nat, a: nat)
    ensures OverLegs(legs, h, a) - OverLegs(legs, a, h) == if legs % 2 == 0 then 0 else h - a
  {
    if legs > 0 { OverLegsDifference(legs - 1, h, a); }
  }

  // ---- rounds ----

  /** Position i of a schedule is game k of some leg. */
  lemma {:induction false} Locate(ids: seq<string>, leg0: seq<Oriented>, legs: nat, rounds: int, i: int) returns (leg: nat, k: nat)
    requires Plays(|ids|, leg0) && 0 <= i < |Schedule(ids, leg0, legs, rounds)|
    ensures leg < legs && k < |leg0| && i == leg * |leg0| + k
    ensures Schedule(ids, leg0, legs, rounds)[i] == LegMatch(ids, leg0[k], leg, rounds, i)
  {
    var earlier := Schedule(ids, leg0, legs - 1, rounds);
    ScheduleSize(ids, leg0, legs - 1, rounds);
    if i < |earlier| {
      leg, k := Locate(ids, leg0, legs - 1, rounds, i);
    } else {
      leg, k := legs - 1, i - |earlier|;
    }
  }

  lemma {:induction false} ScheduleSize(ids: seq<string>, leg0: seq<Oriented>, legs: nat, rounds: int)
    requires Plays(|ids|, leg0)
    ensures |Schedule(ids, leg0, legs, rounds)| == legs * |leg0|
  {
    if legs > 0 {
      ScheduleSize(ids, leg0, legs - 1, rounds);
      assert legs * |leg0| == (legs - 1) * |leg0| + |leg0|;
    }
  }

  /** Rounds run from 1 to legs * (evenCount - 1) without going back, and nobody plays twice in a round. */
  lemma RoundsAreOrdered(ids: seq<string>, legs: nat, matches: seq<PlannedMatch>,
                         leg0: seq<Oriented>, pairs: seq<Pair>, orient: Orientation, i: int, j: int)
    requires IsLeague(ids, legs, matches, leg0, pairs, orient)
    requires 0 <= i <= j < |matches|
    ensures 1 <= matches[i].roundNumber <= matches[j].roundNumber <= legs * (EvenCount(|ids|) - 1)
    ensures i < j && matches[i].roundNumber == matches[j].roundNumber ==>
              {matches[i].home, matches[i].away} !! {matches[j].home, matches[j].away}
    ensures matches[i].home != matches[i].away && matches[i].index == i
  {
    var rounds := EvenCount(|ids|) - 1;
    var leg, k := Locate(ids, leg0, legs, rounds, i);
    var leg', k' := Locate(ids, leg0, legs, rounds, j);
    assert IsPairing(|ids|, pairs[k]) && IsPairing(|ids|, pairs[k']);
    LegOrder(|leg0|, leg, k, leg', k');
    RoundOrder(rounds, pairs[k].round, leg, pairs[k'].round, leg');
    RoundOrder(rounds, pairs[k'].round, leg', rounds, legs - 1);
    if i < j && matches[i].roundNumber == matches[j].roundNumber {
      assert leg == leg' && k < k';
      assert Involves(pairs[k], leg0[k].home) && Involves(pairs[k], leg0[k].away);
      assert !Involves(pairs[k'], leg0[k].home) && !Involves(pairs[k'], leg0[k].away);
    }
  }

  lemma Gap(a: nat, b: nat, size: nat)
    requires a < b
    ensures b * size >= a * size + size
    decreases b
  {
    assert b * size == (b - 1) * size + size;
    if a < b - 1 { Gap(a, b - 1, size); }
  }

  lemma LegOrder(size: nat, leg: nat, k: nat, leg': nat, k': nat)
    requires k < size && k' < size && leg * size + k <= leg' * size + k'
    ensures leg < leg' || (leg == leg' && k <= k')
  {
    if leg > leg' { Gap(leg', leg, size); }
  }

  lemma RoundOrder(rounds: int, r: int, leg: nat, r': int, leg': nat)
    requires 1 <= r <= rounds && 1 <= r' <= rounds && leg <= leg'
    requires leg == leg' ==> r <= r'
    ensures 1 <= r + leg * rounds <= r' + leg' * rounds
    ensures r + leg * rounds == r' + leg' * rounds ==> leg == leg'
    ensures rounds + leg' * rounds == (leg' + 1) * rounds
  {
    if leg < leg' { Gap(leg, leg', rounds); }
  }
}
