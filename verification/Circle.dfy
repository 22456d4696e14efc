// The circle method: a one-factorisation of the complete graph
// (backend/internal/fixtures/roundrobin.go, lines 56-106).

module Circle {

  /** One unordered pairing in a given round. */
  datatype Pair = Pair(a: int, b: int, round: int)

  const BYE := -1

  function EvenCount(n: int): int {
    if n % 2 == 1 then n + 1 else n
  }

  // ---- the rotation ----

  function Rotated(s: seq<int>): seq<int> {
    if |s| < 3 then s else [s[0], s[|s|-1]] + s[1..|s|-1]
  }

  method RotateCircle(cur: array<int>)
    modifies cur
    ensures cur[..] == Rotated(old(cur[..]))
    ensures cur.Length >= 3 ==> cur[0] == old(cur[0]) && cur[1] == old(cur[cur.Length-1])
    ensures forall k | 2 <= k < cur.Length :: cur[k] == old(cur[k-1])
  {
    var m := cur.Length;
    if m < 3 {
      return;
    }
    ghost var was := cur[..];
    var last := cur[m-1];
    forall j | 2 <= j < m {
      cur[j] := cur[j-1];
    }
    cur[1] := last;
    forall k | 0 <= k < m ensures cur[k] == Rotated(was)[k] {
    }
  }

  /** Which index of the padded field sits at position j in round r. */
  function Seat(m: int, r: int, j: int): int {
    if j == 0 then 0 else if j >= r then 1 + (j - r) else m + (j - r)
  }

  /** Where index x sits in round r: the inverse of Seat. */
  function Position(m: int, r: int, x: int): int {
    if x == 0 then 0 else if x - 1 + r <= m - 1 then x - 1 + r else x + r - m
  }

  /** Participant at a padded index; index n is the padding bye of an odd field. */
  function Occupant(n: int, index: int): int {
    if index < n then index else BYE
  }

  ghost predicate Seated(n: int, r: int, cur: seq<int>) {
    && |cur| == EvenCount(n)
    && forall j | 0 <= j < |cur| :: cur[j] == Occupant(n, Seat(|cur|, r, j))
  }

  lemma RotationSeatsNextRound(n: nat, r: int, cur: seq<int>)
    requires Seated(n, r, cur) && 1 <= r < |cur|
    ensures Seated(n, r + 1, Rotated(cur))
  {
  }

  // ---- which round joins two indices ----

  /** The one round of an m-field (m even) in which indices x and y sit opposite. */
  function RoundFor(m: int, x: int, y: int): int {
    if x == 0 then m - y
    else if y == 0 then m - x
    else
      var s := x + y - 2;
      if s % 2 == 0 then m - 1 - s / 2
      else if s < m - 1 then (m - 1 - s) / 2
      else (3 * (m - 1) - s) / 2
  }

  /** In round RoundFor(x, y) the two sit opposite each other. */
  lemma MeetInRound(m: int, x: int, y: int)
    requires m % 2 == 0 && 0 <= x < m && 0 <= y < m && x != y
    ensures 1 <= RoundFor(m, x, y) <= m - 1
    ensures var r := RoundFor(m, x, y); Position(m, r, x) + Position(m, r, y) == m - 1
  {
  }

  /** And in no other round: the sum of two opposite indices, modulo the odd m - 1, names the round. */
  lemma MeetOnlyInRound(m: int, r: int, x: int, y: int)
    requires m % 2 == 0 && 1 <= r < m && 0 <= x < m && 0 <= y < m && x != y
    requires Position(m, r, x) + Position(m, r, y) == m - 1
    ensures r == RoundFor(m, x, y)
  {
  }

  // ---- the schedule ----

  ghost predicate Joins(p: Pair, x: int, y: int) {
    (p.a == x && p.b == y) || (p.a == y && p.b == x)
  }

  ghost predicate Involves(p: Pair, x: int) {
    p.a == x || p.b == x
  }

  ghost predicate PlaysIn(out: seq<Pair>, r: int, x: int) {
    exists k :: 0 <= k < |out| && out[k].round == r && Involves(out[k], x)
  }

  ghost predicate Met(out: seq<Pair>, x: int, y: int) {
    exists k :: 0 <= k < |out| && Joins(out[k], x, y)
  }

  /** Every two participants meet once, nobody plays twice in a round, and with
      n even nobody rests while with n odd participant x rests in RoundFor(n + 1, x, n) only. */
  ghost predicate IsFactorization(n: nat, out: seq<Pair>) {
    && (forall k | 0 <= k < |out| :: IsPairing(n, out[k]))
    && (forall x, y | 0 <= x < y < n :: Met(out, x, y))
    && (forall k, l, x, y | 0 <= k < l < |out| && Joins(out[k], x, y) :: !Joins(out[l], x, y))
    && (forall k, l, x | 0 <= k < l < |out| && out[k].round == out[l].round && Involves(out[k], x) ::
          !Involves(out[l], x))
    && (forall k, l | 0 <= k < l < |out| :: out[k].round <= out[l].round)
    && (forall r, x | 1 <= r < EvenCount(n) && 0 <= x < n ::
          PlaysIn(out, r, x) <==> !(n % 2 == 1 && r == RoundFor(n + 1, x, n)))
  }

  ghost predicate IsPairing(n: nat, p: Pair) {
    0 <= p.a < n && 0 <= p.b < n && p.a != p.b && 1 <= p.round < EvenCount(n)
  }

  /** Each pair plays in the round in which the rotation seats the two opposite each other. */
  ghost predicate InTheirRounds(n: nat, out: seq<Pair>) {
    forall k | 0 <= k < |out| :: out[k].round == RoundFor(EvenCount(n), out[k].a, out[k].b)
  }

  /** What round r pairs at position i, before bye pairings are dropped. */
  ghost function Cell(n: nat, r: int, i: int): Pair {
    var m := EvenCount(n);
    Pair(Occupant(n, Seat(m, r, i)), Occupant(n, Seat(m, r, m - 1 - i)), r)
  }

  ghost predicate HasBye(p: Pair) {
    p.a == BYE || p.b == BYE
  }

  ghost predicate Before(r: int, i: int, r': int, i': int) {
    r < r' || (r == r' && i < i')
  }

  ghost predicate IsCell(n: nat, r: int, i: int) {
    1 <= r < EvenCount(n) && 0 <= i < EvenCount(n) / 2
  }

  /** out lists, in order, the cells before (r, i) that have no bye; src names those cells. */
  ghost predicate Emitted(n: nat, out: seq<Pair>, src: seq<(int, int)>, r: int, i: int) {
    && |src| == |out|
    && (forall k | 0 <= k < |out| ::
          && IsCell(n, src[k].0, src[k].1) && Before(src[k].0, src[k].1, r, i)
          && out[k] == Cell(n, src[k].0, src[k].1) && !HasBye(out[k]))
    && (forall k, l | 0 <= k < l < |out| :: Before(src[k].0, src[k].1, src[l].0, src[l].1))
    && (forall r', i' | IsCell(n, r', i') && Before(r', i', r, i) && !HasBye(Cell(n, r', i')) ::
          (r', i') in src)
  }

  /** Before position i of round r: cur is seated for r and out lists the earlier cells. */
  ghost predicate InRound(n: nat, cur: seq<int>, out: seq<Pair>, src: seq<(int, int)>, r: int, i: int) {
    && |cur| == EvenCount(n) && 1 <= r
    && (n > 0 ==> r <= |cur| && Seated(n, r, cur))
    && Emitted(n, out, src, r, i)
  }

  lemma NextPosition(n: nat, cur: seq<int>, out: seq<Pair>, src: seq<(int, int)>, r: int, i: int, a: int, b: int)
    requires InRound(n, cur, out, src, r, i) && r < |cur| && 0 <= i < |cur| / 2
    requires a == cur[i] && b == cur[|cur|-1-i]
    ensures if a == BYE || b == BYE then InRound(n, cur, out, src, r, i + 1)
            else InRound(n, cur, out + [Pair(a, b, r)], src + [(r, i)], r, i + 1)
  {
    assert Pair(a, b, r) == Cell(n, r, i);
  }

  lemma NextRound(n: nat, cur: seq<int>, out: seq<Pair>, src: seq<(int, int)>, r: int)
    requires InRound(n, cur, out, src, r, |cur| / 2) && r < |cur|
    ensures InRound(n, Rotated(cur), out, src, r + 1, 0)
  {
  }

  /** The inner loop: pair opposite positions of the current seating. */
  method PairRound(n: nat, cur: array<int>, r: int, out0: seq<Pair>, ghost src0: seq<(int, int)>)
    returns (out: seq<Pair>, ghost src: seq<(int, int)>)
    requires InRound(n, cur[..], out0, src0, r, 0) && r < cur.Length
    ensures InRound(n, cur[..], out, src, r, cur.Length / 2)
    ensures exists s :: InRound(n, cur[..], out, s, r, cur.Length / 2)
  {
    out, src := out0, src0;
    var m := cur.Length;
    var half := m / 2;
    for i := 0 to half
      invariant InRound(n, cur[..], out, src, r, i)
    {
      var a, b := cur[i], cur[m-1-i];
      NextPosition(n, cur[..], out, src, r, i, a, b);
      if a != BYE && b != BYE {
        out := out + [Pair(a, b, r)];
        src := src + [(r, i)];
      }
    }
  }

  /** The outer loop: pair, then rotate, round by round. */
  method PairRounds(n: nat) returns (out: seq<Pair>, ghost src: seq<(int, int)>, ghost end: int)
    ensures Emitted(n, out, src, end, 0) && end >= EvenCount(n)
    ensures exists s, e :: Emitted(n, out, s, e, 0) && e >= EvenCount(n)
  {
    var arr := seq(n, i => i);
    if n % 2 == 1 {
      arr := arr + [BYE];
    }
    var m := |arr|;
    var cur := new int[m](i requires 0 <= i < m => arr[i]);
    assert cur[..] == arr;
    out, src := [], [];
    var r := 1;
    while r <= m - 1
      invariant InRound(n, cur[..], out, src, r, 0)
    {
      out, src := PairRound(n, cur, r, out, src);
      NextRound(n, cur[..], out, src, r);
      RotateCircle(cur);
      r := r + 1;
    }
    end := r;
  }

  method CirclePairs(n: nat) returns (out: seq<Pair>)
    ensures IsFactorization(n, out)
    ensures InTheirRounds(n, out)
  {
    ghost var src, end;
    out, src, end := PairRounds(n);
    EmittedIsFactorization(n, out, src, end);
    EmittedInRounds(n, out, src, end);
  }

  // ---- the emitted cells form a one-factorisation ----

  /** The cell in which index x sits in round r, and who sits opposite. */
  function CellIndex(m: int, r: int, x: int): int {
    var p := Position(m, r, x);
    if p < m - 1 - p then p else m - 1 - p
  }

  function Opposite(m: int, r: int, x: int): int {
    Seat(m, r, m - 1 - Position(m, r, x))
  }

  lemma CellOf(n: nat, r: int, x: int)
    requires 1 <= r < EvenCount(n) && 0 <= x < n
    ensures var (m, i) := (EvenCount(n), CellIndex(EvenCount(n), r, x));
            var y := Opposite(m, r, x);
            && IsCell(n, r, i) && 0 <= y < m && y != x
            && Joins(Cell(n, r, i), x, Occupant(n, y))
            && r == RoundFor(m, x, y)
  {
    var m := EvenCount(n);
    MeetOnlyInRound(m, r, x, Opposite(m, r, x));
  }

  lemma EmittedMeets(n: nat, out: seq<Pair>, src: seq<(int, int)>, r: int, x: int, y: int)
    requires Emitted(n, out, src, r, 0) && r >= EvenCount(n) && 0 <= x < n && 0 <= y < n && x != y
    ensures Met(out, x, y)
  {
    var m := EvenCount(n);
    MeetInRound(m, x, y);
    OppositeInRound(m, x, y);
    var q := RoundFor(m, x, y);
    CellOf(n, q, x);
    assert (q, CellIndex(m, q, x)) in src;
  }

  lemma EmittedInRound(n: nat, out: seq<Pair>, src: seq<(int, int)>, r: int, k: nat)
    requires Emitted(n, out, src, r, 0) && k < |out|
    ensures out[k].round == RoundFor(EvenCount(n), out[k].a, out[k].b)
  {
    var m := EvenCount(n);
    var (q, i) := src[k];
    assert IsCell(n, q, i) && out[k] == Cell(n, q, i);
    CellInRound(m, q, i);
  }

  lemma EmittedInRounds(n: nat, out: seq<Pair>, src: seq<(int, int)>, r: int)
    requires Emitted(n, out, src, r, 0)
    ensures InTheirRounds(n, out)
  {
    forall k | 0 <= k < |out| ensures out[k].round == RoundFor(EvenCount(n), out[k].a, out[k].b) {
      EmittedInRound(n, out, src, r, k);
    }
  }

  lemma CellInRound(m: int, r: int, i: int)
    requires m % 2 == 0 && 1 <= r < m && 0 <= i < m / 2
    ensures r == RoundFor(m, Seat(m, r, i), Seat(m, r, m - 1 - i))
  {
    MeetOnlyInRound(m, r, Seat(m, r, i), Seat(m, r, m - 1 - i));
  }

  lemma EmittedMeetsOnce(n: nat, out: seq<Pair>, src: seq<(int, int)>, r: int, k: int, l: int, x: int, y: int)
    requires Emitted(n, out, src, r, 0) && 0 <= k < l < |out|
    requires Joins(out[k], x, y)
    ensures !Joins(out[l], x, y)
  {
  }

  lemma EmittedOncePerRound(n: nat, out: seq<Pair>, src: seq<(int, int)>, r: int, k: int, l: int, x: int)
    requires Emitted(n, out, src, r, 0) && 0 <= k < l < |out|
    requires out[k].round == out[l].round && Involves(out[k], x)
    ensures !Involves(out[l], x)
  {
  }

  /** Only the padding bye can leave a participant without an opponent. */
  lemma OppositeIsBye(n: nat, r: int, x: int)
    requires 1 <= r < EvenCount(n) && 0 <= x < n
    ensures Opposite(EvenCount(n), r, x) >= n <==> n % 2 == 1 && r == RoundFor(n + 1, x, n)
  {
    var y := Opposite(EvenCount(n), r, x);
    if n % 2 == 1 && r == RoundFor(n + 1, x, n) {
      OppositeInRound(n + 1, x, n);
    } else if y >= n {
      CellOf(n, r, x);
    }
  }

  lemma OppositeInRound(m: int, x: int, y: int)
    requires m % 2 == 0 && 0 <= x < m && 0 <= y < m && x != y
    ensures Opposite(m, RoundFor(m, x, y), x) == y
  {
  }

  lemma PlayersOppositeIsReal(n: nat, out: seq<Pair>, src: seq<(int, int)>, end: int, k: int, x: int)
    requires Emitted(n, out, src, end, 0) && 0 <= k < |out| && Involves(out[k], x)
    ensures 0 <= x < n && Opposite(EvenCount(n), out[k].round, x) < n
  {
  }

  lemma EmittedRests(n: nat, out: seq<Pair>, src: seq<(int, int)>, end: int, r: int, x: int)
    requires Emitted(n, out, src, end, 0) && end >= EvenCount(n) && 1 <= r < EvenCount(n) && 0 <= x < n
    ensures PlaysIn(out, r, x) <==> Opposite(EvenCount(n), r, x) < n
  {
    CellOf(n, r, x);
    if Opposite(EvenCount(n), r, x) < n {
      var c := (r, CellIndex(EvenCount(n), r, x));
      assert c in src;
      var k :| 0 <= k < |src| && src[k] == c;
      assert out[k] == Cell(n, c.0, c.1);
    }
    if PlaysIn(out, r, x) {
      var k :| 0 <= k < |out| && out[k].round == r && Involves(out[k], x);
      PlayersOppositeIsReal(n, out, src, end, k, x);
    }
  }

  lemma EmittedIsFactorization(n: nat, out: seq<Pair>, src: seq<(int, int)>, r: int)
    requires Emitted(n, out, src, r, 0) && r >= EvenCount(n)
    ensures IsFactorization(n, out)
  {
    forall k | 0 <= k < |out| ensures IsPairing(n, out[k]) {
    }
    forall x, y | 0 <= x < y < n ensures Met(out, x, y) {
      EmittedMeets(n, out, src, r, x, y);
    }
    forall k, l, x, y | 0 <= k < l < |out| && Joins(out[k], x, y) ensures !Joins(out[l], x, y) {
      EmittedMeetsOnce(n, out, src, r, k, l, x, y);
    }
    forall k, l, x | 0 <= k < l < |out| && out[k].round == out[l].round && Involves(out[k], x)
      ensures !Involves(out[l], x)
    {
      EmittedOncePerRound(n, out, src, r, k, l, x);
    }
    forall k, l | 0 <= k < l < |out| ensures out[k].round <= out[l].round {
      assert Before(src[k].0, src[k].1, src[l].0, src[l].1);
    }
    forall q, x | 1 <= q < EvenCount(n) && 0 <= x < n
      ensures PlaysIn(out, q, x) <==> !(n % 2 == 1 && q == RoundFor(n + 1, x, n))
    {
      EmittedRests(n, out, src, r, q, x);
      OppositeIsBye(n, q, x);
    }
  }
}
