// The balanced home/away orientation of a complete graph
// (backend/internal/fixtures/balance.go).
//
// Vertices are participant indices 0..n-1.  For even n the code adds a dummy
// vertex n joined to every participant, so in both cases the traversed graph
// is the complete graph on an odd number v of vertices.

module Balance {

  /** One adjacency entry: the other endpoint and the edge's id in `used`. */
  datatype Edge = Edge(to: int, id: int)

  /** Home side per unordered pair (lo, hi): true means lo is at home. */
  type Orientation = map<(int, int), bool>

  /** The unordered pair {a, b} as (lo, hi). */
  function Norm(a: int, b: int): (int, int) {
    if a > b then (b, a) else (a, b)
  }

  ghost function PairsBelow(v: nat): set<(int, int)> {
    set a, b | 0 <= a < b < v :: (a, b)
  }

  /** Who plays at home when a meets b; a missing key reads as false. */
  function HomeAway(orient: Orientation, a: int, b: int): (sides: (int, int))
    ensures sides == (a, b) || sides == (b, a)
    ensures a != b ==> (sides == (a, b) <==> (Norm(a, b) in orient && orient[Norm(a, b)]) == (a < b))
  {
    var (lo, hi) := Norm(a, b);
    if (lo, hi) in orient && orient[(lo, hi)] then (lo, hi) else (hi, lo)
  }

  // ---- what a balanced orientation is ----

  ghost function HomeOpponents(orient: Orientation, n: nat, x: int): set<int> {
    set y | 0 <= y < n && y != x && HomeAway(orient, x, y) == (x, y)
  }

  ghost function AwayOpponents(orient: Orientation, n: nat, x: int): set<int> {
    set y | 0 <= y < n && y != x && HomeAway(orient, x, y) == (y, x)
  }

  /** Every pair is decided once; home minus away is 0 for odd n, +1 or -1 for even n. */
  ghost predicate IsBalanced(orient: Orientation, n: nat) {
    && orient.Keys == PairsBelow(n)
    && forall x | 0 <= x < n ::
         var d := |HomeOpponents(orient, n, x)| - |AwayOpponents(orient, n, x)|;
         if n % 2 == 1 then d == 0 else d == 1 || d == -1
  }

  // ---- walks and the edges they use ----

  /** How often a walk takes edge e. */
  ghost function Times(w: seq<int>, e: (int, int)): nat {
    if |w| < 2 then 0
    else Times(w[..|w|-1], e) + if Norm(w[|w|-2], w[|w|-1]) == e then 1 else 0
  }

  lemma TimesSnoc(w: seq<int>, z: int, e: (int, int))
    requires |w| > 0
    ensures Times(w + [z], e) == Times(w, e) + if Norm(w[|w|-1], z) == e then 1 else 0
  {
    assert (w + [z])[..|w|] == w;
  }

  lemma {:induction false} TimesStep(w: seq<int>, e: (int, int)) returns (i: int)
    requires Times(w, e) > 0
    ensures 0 <= i < |w| - 1 && Norm(w[i], w[i+1]) == e
  {
    i := |w| - 2;
    if Norm(w[i], w[i+1]) != e {
      i := TimesStep(w[..|w|-1], e);
    }
  }

  lemma {:induction false} TimesPrefix(w: seq<int>, j: nat, e: (int, int))
    requires j <= |w|
    ensures Times(w[..j], e) <= Times(w, e)
  {
    if j < |w| {
      TimesPrefix(w[..|w|-1], j, e);
      assert w[..|w|-1][..j] == w[..j];
    } else {
      assert w[..j] == w;
    }
  }

  /** Neighbours of x whose edge is still unused. */
  ghost function Residual(v: nat, used: set<(int, int)>, x: int): set<int> {
    set y | 0 <= y < v && y != x && Norm(x, y) !in used
  }

  ghost predicate InRange(w: seq<int>, v: nat) {
    forall i | 0 <= i < |w| :: 0 <= w[i] < v
  }

  // ---- the traversal invariant ----

  /** How often e lies on the stack, on the tail, or joins stack[k] to the tail. */
  ghost function Tally(stack: seq<int>, path: seq<int>, k: int, e: (int, int)): nat
    requires 0 <= k < |stack|
  {
    Times(stack, e) + Times(path, e)
      + if path != [] && Norm(stack[k], path[|path|-1]) == e then 1 else 0
  }

  /** The residual degrees of all vertices are even, except for those of s and t when s != t. */
  ghost predicate OddExactlyAt(v: nat, used: set<(int, int)>, s: int, t: int) {
    forall x | 0 <= x < v ::
      |Residual(v, used, x)| % 2 == if (x == s) != (x == t) then 1 else 0
  }

  /** Hierholzer's invariant while the stack is non-empty.  stack[k] is where the
      finished tail (path, read backwards) is attached; the stack above k is a
      detour that by parity can only get stuck at the vertex it started from. */
  ghost predicate Traversing(v: nat, used: set<(int, int)>, stack: seq<int>, path: seq<int>, k: int) {
    && 0 <= k < |stack| && stack[0] == 0
    && IsTrail(v, stack) && IsTrail(v, path)
    && (if path == [] then stack[k] == 0 else path[0] == 0 && path[|path|-1] != stack[k])
    && Accounted(used, stack, path, k)
    && OddExactlyAt(v, used, stack[k], stack[|stack|-1])
    && Exhausted(v, used, path)
  }

  /** The used edges are exactly those of the stack, the joint and the tail, each once. */
  ghost predicate Accounted(used: set<(int, int)>, stack: seq<int>, path: seq<int>, k: int)
    requires 0 <= k < |stack|
  {
    forall e :: Tally(stack, path, k, e) == if e in used then 1 else 0
  }

  ghost predicate IsTrail(v: nat, w: seq<int>) {
    && (forall i | 0 <= i < |w| :: 0 <= w[i] < v)
    && (forall i | 0 <= i < |w| - 1 :: w[i] != w[i+1])
  }

  /** Every vertex of the tail has been left with no unused edge. */
  ghost predicate Exhausted(v: nat, used: set<(int, int)>, path: seq<int>) {
    forall i | 0 <= i < |path| :: Residual(v, used, path[i]) == {}
  }

  /** A closed walk through every edge of the complete graph on v vertices, each once. */
  ghost predicate EulerCircuit(v: nat, path: seq<int>) {
    && |path| > 0 && path[0] == path[|path|-1] == 0
    && IsTrail(v, path)
    && (forall e :: Times(path, e) == if e in PairsBelow(v) then 1 else 0)
  }

  ghost function Upto(v: nat): (s: set<int>)
    ensures |s| == v && forall y :: y in s <==> 0 <= y < v
  {
    if v == 0 then {} else Upto(v - 1) + {v - 1}
  }

  lemma Start(v: nat)
    requires v % 2 == 1
    ensures Traversing(v, {}, [0], [], 0)
  {
    forall x | 0 <= x < v ensures |Residual(v, {}, x)| == v - 1 {
      assert Residual(v, {}, x) == Upto(v) - {x};
    }
  }

  /** Using the edge {x, z} takes one residual neighbour from x and from z only. */
  lemma UseEdge(v: nat, used: set<(int, int)>, x: int, z: int, y: int)
    requires 0 <= x < v && 0 <= z < v && z != x && Norm(x, z) !in used
    ensures var after := Residual(v, used + {Norm(x, z)}, y);
            |after| == |Residual(v, used, y)| - if y == x || y == z then 1 else 0
  {
    var before, after := Residual(v, used, y), Residual(v, used + {Norm(x, z)}, y);
    if y == x {
      assert z in before;
      assert after == before - {z};
    } else if y == z {
      assert x in before;
      assert after == before - {x};
    } else {
      assert after == before;
    }
  }

  lemma UseEdgeParity(v: nat, used: set<(int, int)>, s: int, x: int, z: int)
    requires 0 <= x < v && 0 <= z < v && z != x && Norm(x, z) !in used
    requires OddExactlyAt(v, used, s, x)
    ensures OddExactlyAt(v, used + {Norm(x, z)}, s, z)
  {
    forall y | 0 <= y < v
      ensures |Residual(v, used + {Norm(x, z)}, y)| % 2 == if (y == s) != (y == z) then 1 else 0
    {
      UseEdge(v, used, x, z, y);
    }
  }

  /** Walking on along an unused edge keeps the invariant. */
  lemma Advance(v: nat, used: set<(int, int)>, stack: seq<int>, path: seq<int>, k: int, z: int)
    requires Traversing(v, used, stack, path, k)
    requires 0 <= z < v && z != stack[|stack|-1] && Norm(stack[|stack|-1], z) !in used
    ensures Traversing(v, used + {Norm(stack[|stack|-1], z)}, stack + [z], path, k)
  {
    var x := stack[|stack|-1];
    var used' := used + {Norm(x, z)};
    forall e ensures Tally(stack + [z], path, k, e) == if e in used' then 1 else 0 {
      TimesSnoc(stack, z, e);
      assert Tally(stack, path, k, e) == if e in used then 1 else 0;
    }
    UseEdgeParity(v, used, stack[k], x, z);
    forall i | 0 <= i < |path| ensures Residual(v, used', path[i]) == {} {
      assert Residual(v, used', path[i]) <= Residual(v, used, path[i]);
    }
  }

  lemma RetreatTally(stack: seq<int>, path: seq<int>, k: int, e: (int, int))
    requires 0 <= k < |stack| && stack[k] == stack[|stack|-1]
    ensures var path' := path + [stack[|stack|-1]];
            Tally(stack, path, k, e) ==
              if |stack| > 1 then Tally(stack[..|stack|-1], path', |stack| - 2, e) else Times(path', e)
  {
    if path != [] { TimesSnoc(path, stack[|stack|-1], e); }
  }

  lemma RetreatAccounts(used: set<(int, int)>, stack: seq<int>, path: seq<int>, k: int)
    requires 0 <= k < |stack| && Accounted(used, stack, path, k) && stack[k] == stack[|stack|-1]
    ensures var path' := path + [stack[|stack|-1]];
            if |stack| > 1 then Accounted(used, stack[..|stack|-1], path', |stack| - 2)
            else forall e :: Times(path', e) == if e in used then 1 else 0
  {
    forall e ensures Tally(stack, path, k, e) == if e in used then 1 else 0 {
      RetreatTally(stack, path, k, e);
    }
    var path' := path + [stack[|stack|-1]];
    if |stack| > 1 {
      forall e ensures Tally(stack[..|stack|-1], path', |stack| - 2, e) == if e in used then 1 else 0 {
        RetreatTally(stack, path, k, e);
      }
    } else {
      forall e ensures Times(path', e) == if e in used then 1 else 0 {
        RetreatTally(stack, path, k, e);
      }
    }
  }

  lemma TrailMoves(v: nat, stack: seq<int>, path: seq<int>)
    requires IsTrail(v, stack) && IsTrail(v, path) && |stack| > 0
    requires path != [] ==> path[|path|-1] != stack[|stack|-1]
    ensures IsTrail(v, stack[..|stack|-1]) && IsTrail(v, path + [stack[|stack|-1]])
  {
  }

  /** A vertex with no unused edge left is where the detour began: popping it
      moves one edge from the stack to the tail. */
  lemma Retreat(v: nat, used: set<(int, int)>, stack: seq<int>, path: seq<int>, k: int)
    requires Traversing(v, used, stack, path, k)
    requires Residual(v, used, stack[|stack|-1]) == {}
    ensures |stack| > 1 ==> Traversing(v, used, stack[..|stack|-1], path + [stack[|stack|-1]], |stack| - 2)
    ensures |stack| == 1 ==> Finished(v, used, path + [stack[|stack|-1]])
  {
    var x := stack[|stack|-1];
    assert stack[k] == x by {
      assert |Residual(v, used, x)| % 2 == if (x == stack[k]) != (x == x) then 1 else 0;
    }
    RetreatAccounts(used, stack, path, k);
    TrailMoves(v, stack, path);
    ExhaustedGrows(v, used, path, x);
    if |stack| > 1 {
      assert stack[|stack|-2] != x;
      OddNowhere(v, used, x, stack[|stack|-2]);
    }
  }

  lemma ExhaustedGrows(v: nat, used: set<(int, int)>, path: seq<int>, x: int)
    requires Exhausted(v, used, path) && Residual(v, used, x) == {}
    ensures Exhausted(v, used, path + [x])
  {
  }

  lemma OddNowhere(v: nat, used: set<(int, int)>, x: int, y: int)
    requires OddExactlyAt(v, used, x, x)
    ensures OddExactlyAt(v, used, y, y)
  {
  }

  ghost predicate Finished(v: nat, used: set<(int, int)>, path: seq<int>) {
    && |path| > 0 && path[0] == path[|path|-1] == 0
    && IsTrail(v, path)
    && (forall e :: Times(path, e) == if e in used then 1 else 0)
    && Exhausted(v, used, path)
  }

  /** Vertex 0 is exhausted last, so every vertex was visited and exhausted. */
  lemma AllEdgesUsed(v: nat, used: set<(int, int)>, path: seq<int>)
    requires Finished(v, used, path) && used <= PairsBelow(v)
    ensures EulerCircuit(v, path)
  {
    forall y | 0 <= y < v ensures Residual(v, used, y) == {} {
      if y != 0 {
        assert y !in Residual(v, used, path[0]);
        assert Norm(0, y) in used;
        var i := TimesStep(path, Norm(0, y));
        assert y == path[i] || y == path[i+1];
      }
    }
    forall e | e in PairsBelow(v) ensures e in used {
      assert e.1 !in Residual(v, used, e.0);
    }
    assert used == PairsBelow(v);
  }

  // ---- the graph the traversal runs on ----

  /** adj lists the complete graph on v vertices; ends[id] are the endpoints of edge id. */
  ghost predicate IsComplete(v: nat, adj: seq<seq<Edge>>, ends: seq<(int, int)>) {
    && WellLinked(v, adj, ends)
    && (forall x, y | 0 <= x < v && 0 <= y < v && x != y :: Linked(adj, x, y))
  }

  ghost predicate Linked(adj: seq<seq<Edge>>, x: int, y: int) {
    0 <= x < |adj| && exists k :: 0 <= k < |adj[x]| && adj[x][k].to == y
  }

  ghost predicate WellLinked(v: nat, adj: seq<seq<Edge>>, ends: seq<(int, int)>) {
    && |adj| == v
    && (forall id | 0 <= id < |ends| :: 0 <= ends[id].0 < ends[id].1 < v)
    && (forall i, j | 0 <= i < j < |ends| :: ends[i] != ends[j])
    && (forall x, k | 0 <= x < v && 0 <= k < |adj[x]| :: EdgeOk(v, x, adj[x][k], ends))
  }

  ghost predicate EdgeOk(v: nat, x: int, e: Edge, ends: seq<(int, int)>) {
    0 <= e.to < v && e.to != x && 0 <= e.id < |ends| && ends[e.id] == Norm(x, e.to)
  }

  /** The closure addEdge: a fresh id, entered in both adjacency lists. */
  method AddEdge(adj: seq<seq<Edge>>, used: seq<bool>, a: int, b: int, ghost ends: seq<(int, int)>)
    returns (adj': seq<seq<Edge>>, used': seq<bool>)
    requires WellLinked(|adj|, adj, ends) && |used| == |ends|
    requires 0 <= a < b < |adj| && (a, b) !in ends
    ensures WellLinked(|adj|, adj', ends + [(a, b)]) && |adj'| == |adj|
    ensures used' == used + [false]
    ensures forall x, y :: Linked(adj', x, y) <==> Linked(adj, x, y) || Norm(x, y) == (a, b)
  {
    var id := |used|;
    used' := used + [false];
    adj' := adj[a := adj[a] + [Edge(b, id)]];
    adj' := adj'[b := adj'[b] + [Edge(a, id)]];
    forall x, y | Linked(adj, x, y) ensures Linked(adj', x, y) {
      var k :| 0 <= k < |adj[x]| && adj[x][k].to == y;
      assert adj'[x][k].to == y;
    }
    assert adj'[a][|adj[a]|].to == b && adj'[b][|adj[b]|].to == a;
  }

  method BuildGraph(n: nat) returns (v: nat, adj: seq<seq<Edge>>, used: seq<bool>, ghost ends: seq<(int, int)>)
    ensures v == if n % 2 == 0 then n + 1 else n
    ensures IsComplete(v, adj, ends)
    ensures |used| == |ends| && forall id | 0 <= id < |used| :: !used[id]
  {
    v := n;
    var addDummy := n % 2 == 0;
    if addDummy { v := n + 1; }
    adj := seq(v, _ => []);
    used := [];
    ends := [];
    for i := 0 to n
      invariant WellLinked(v, adj, ends) && |used| == |ends|
      invariant forall id | 0 <= id < |used| :: !used[id]
      invariant forall id | 0 <= id < |ends| :: ends[id].0 < i && ends[id].1 < n
      invariant forall x, y :: Linked(adj, x, y) <==> 0 <= Norm(x, y).0 < i && Norm(x, y).0 < Norm(x, y).1 < n
    {
      for j := i + 1 to n
        invariant WellLinked(v, adj, ends) && |used| == |ends|
        invariant forall id | 0 <= id < |used| :: !used[id]
        invariant forall id | 0 <= id < |ends| ::
                    (ends[id].0 < i && ends[id].1 < n) || (ends[id].0 == i && ends[id].1 < j)
        invariant forall x, y :: Linked(adj, x, y) <==>
                    var (lo, hi) := Norm(x, y);
                    (0 <= lo < i && lo < hi < n) || (lo == i && lo < hi < j)
      {
        adj, used := AddEdge(adj, used, i, j, ends);
        ends := ends + [(i, j)];
      }
    }
    if addDummy {
      for i := 0 to n
        invariant WellLinked(v, adj, ends) && |used| == |ends|
        invariant forall id | 0 <= id < |used| :: !used[id]
        invariant forall id | 0 <= id < |ends| :: ends[id].1 < n || ends[id].0 < i
        invariant forall x, y :: Linked(adj, x, y) <==>
                    var (lo, hi) := Norm(x, y);
                    (0 <= lo < hi < n) || (0 <= lo < i && hi == n)
      {
        adj, used := AddEdge(adj, used, i, n, ends);
        ends := ends + [(i, n)];
      }
    }
  }

  /** used[id] records whether edge id has been walked. */
  ghost predicate Marks(used: seq<bool>, ends: seq<(int, int)>, u: set<(int, int)>) {
    |used| == |ends| && forall id | 0 <= id < |ends| :: used[id] <==> ends[id] in u
  }

  /** Below iter[x], the adjacency list of x holds used edges only. */
  ghost predicate Scanned(adj: seq<seq<Edge>>, iter: seq<int>, u: set<(int, int)>) {
    && |iter| == |adj|
    && forall x | 0 <= x < |adj| :: ScannedTo(adj[x], iter[x], x, u)
  }

  ghost predicate ScannedTo(edges: seq<Edge>, limit: int, x: int, u: set<(int, int)>) {
    0 <= limit <= |edges| && forall i | 0 <= i < limit :: Norm(x, edges[i].to) in u
  }

  lemma ScannedIsExhausted(v: nat, adj: seq<seq<Edge>>, iter: seq<int>, ends: seq<(int, int)>, u: set<(int, int)>, x: int)
    requires IsComplete(v, adj, ends) && Scanned(adj, iter, u)
    requires 0 <= x < v && iter[x] == |adj[x]|
    ensures Residual(v, u, x) == {}
  {
    forall y | 0 <= y < v && y != x ensures Norm(x, y) in u {
      assert Linked(adj, x, y);
    }
  }

  /** The inner loop of the traversal: the first entry from `start` on whose edge is unused. */
  method SkipUsed(edges: seq<Edge>, used: seq<bool>, start: nat) returns (i: nat)
    requires start <= |edges| && forall k | 0 <= k < |edges| :: 0 <= edges[k].id < |used|
    ensures start <= i <= |edges| && (i < |edges| ==> !used[edges[i].id])
    ensures forall k | start <= k < i :: used[edges[k].id]
  {
    i := start;
    while i < |edges| && used[edges[i].id]
      invariant start <= i <= |edges|
      invariant forall k | start <= k < i :: used[edges[k].id]
    {
      i := i + 1;
    }
  }

  /** Moving iter[x] past used edges. */
  lemma SkipKeepsScanned(v: nat, adj: seq<seq<Edge>>, iter: seq<int>, ends: seq<(int, int)>, used: seq<bool>, u: set<(int, int)>, x: int, i: nat)
    requires WellLinked(v, adj, ends) && Scanned(adj, iter, u) && Marks(used, ends, u)
    requires 0 <= x < v && iter[x] <= i <= |adj[x]|
    requires forall k | iter[x] <= k < i :: EdgeOk(v, x, adj[x][k], ends) && used[adj[x][k].id]
    ensures Scanned(adj, iter[x := i], u)
  {
    assert ScannedTo(adj[x], iter[x], x, u);
    assert ScannedTo(adj[x], i, x, u);
  }

  /** Marking an unused edge and stepping past it. */
  lemma TakeEdge(v: nat, adj: seq<seq<Edge>>, iter: seq<int>, ends: seq<(int, int)>, used: seq<bool>, u: set<(int, int)>, x: int)
    requires WellLinked(v, adj, ends) && Scanned(adj, iter, u) && Marks(used, ends, u)
    requires 0 <= x < v && iter[x] < |adj[x]|
    requires var e := adj[x][iter[x]]; EdgeOk(v, x, e, ends) && !used[e.id]
    ensures var e := adj[x][iter[x]];
            && Norm(x, e.to) !in u && Norm(x, e.to) in PairsBelow(v)
            && Marks(used[e.id := true], ends, u + {Norm(x, e.to)})
            && Scanned(adj, iter[x := iter[x] + 1], u + {Norm(x, e.to)})
  {
    var e := adj[x][iter[x]];
    var u' := u + {Norm(x, e.to)};
    forall y | 0 <= y < |adj| ensures ScannedTo(adj[y], iter[x := iter[x] + 1][y], y, u') {
      assert ScannedTo(adj[y], iter[y], y, u);
    }
  }

  lemma AdjacentEdges(v: nat, adj: seq<seq<Edge>>, ends: seq<(int, int)>, x: int)
    requires IsComplete(v, adj, ends) && 0 <= x < v
    ensures forall k | 0 <= k < |adj[x]| :: EdgeOk(v, x, adj[x][k], ends)
  {
  }

  /** What the traversal loop keeps. */
  ghost predicate InProgress(
    v: nat, adj: seq<seq<Edge>>, ends: seq<(int, int)>, used: seq<bool>, iter: seq<int>,
    u: set<(int, int)>, stack: seq<int>, path: seq<int>, k: int)
  {
    && Marks(used, ends, u) && u <= PairsBelow(v)
    && Scanned(adj, iter, u)
    && (stack != [] ==> Traversing(v, u, stack, path, k))
    && (stack == [] ==> Finished(v, u, path))
  }

  /** What one round of the loop may rely on before it scans the top of the stack. */
  lemma TopOfStack(
    v: nat, adj: seq<seq<Edge>>, ends: seq<(int, int)>, used: seq<bool>, iter: seq<int>,
    u: set<(int, int)>, stack: seq<int>, path: seq<int>, k: int)
    requires IsComplete(v, adj, ends) && InProgress(v, adj, ends, used, iter, u, stack, path, k) && stack != []
    ensures var x := stack[|stack|-1];
            && 0 <= x < v && |adj| == v == |iter| && 0 <= iter[x] <= |adj[x]|
            && forall j | 0 <= j < |adj[x]| :: 0 <= adj[x][j].id < |used|
  {
    AdjacentEdges(v, adj, ends, stack[|stack|-1]);
    assert ScannedTo(adj[stack[|stack|-1]], iter[stack[|stack|-1]], stack[|stack|-1], u);
  }

  /** The two branches of the loop body; i is where the scan of x's list stopped. */
  lemma Pop(
    v: nat, adj: seq<seq<Edge>>, ends: seq<(int, int)>, used: seq<bool>, iter: seq<int>,
    u: set<(int, int)>, stack: seq<int>, path: seq<int>, k: int, x: int)
    requires IsComplete(v, adj, ends) && InProgress(v, adj, ends, used, iter, u, stack, path, k)
    requires stack != [] && x == stack[|stack|-1] && 0 <= x < |adj| == |iter| && 0 <= iter[x] <= |adj[x]|
    requires forall j | iter[x] <= j < |adj[x]| :: 0 <= adj[x][j].id < |used| && used[adj[x][j].id]
    ensures InProgress(v, adj, ends, used, iter[x := |adj[x]|], u, stack[..|stack|-1], path + [x], |stack| - 2)
  {
    AdjacentEdges(v, adj, ends, x);
    SkipKeepsScanned(v, adj, iter, ends, used, u, x, |adj[x]|);
    ScannedIsExhausted(v, adj, iter[x := |adj[x]|], ends, u, x);
    Retreat(v, u, stack, path, k);
  }

  lemma Push(
    v: nat, adj: seq<seq<Edge>>, ends: seq<(int, int)>, used: seq<bool>, iter: seq<int>,
    u: set<(int, int)>, stack: seq<int>, path: seq<int>, k: int, x: int, i: nat)
    requires IsComplete(v, adj, ends) && InProgress(v, adj, ends, used, iter, u, stack, path, k)
    requires stack != [] && x == stack[|stack|-1] && 0 <= x < |adj| == |iter| && 0 <= iter[x] <= i < |adj[x]|
    requires forall j | iter[x] <= j <= i :: 0 <= adj[x][j].id < |used| && (used[adj[x][j].id] <==> j < i)
    ensures var e := adj[x][i];
            && Norm(x, e.to) in PairsBelow(v) - u
            && InProgress(v, adj, ends, used[e.id := true], iter[x := i + 1], u + {Norm(x, e.to)}, stack + [e.to], path, k)
  {
    AdjacentEdges(v, adj, ends, x);
    SkipKeepsScanned(v, adj, iter, ends, used, u, x, i);
    TakeEdge(v, adj, iter[x := i], ends, used, u, x);
    assert iter[x := i][x := i + 1] == iter[x := i + 1];
    Advance(v, u, stack, path, k, adj[x][i].to);
  }

  /** Hierholzer's stack traversal from vertex 0. */
  method EulerPath(v: nat, adj: seq<seq<Edge>>, used0: seq<bool>, ghost ends: seq<(int, int)>)
    returns (path: seq<int>)
    requires v % 2 == 1 && IsComplete(v, adj, ends)
    requires |used0| == |ends| && forall id | 0 <= id < |used0| :: !used0[id]
    ensures EulerCircuit(v, path)
  {
    var used := used0;
    var iter := new int[v](_ => 0);
    var stack := [0];
    path := [];
    ghost var u: set<(int, int)> := {};
    ghost var k := 0;
    Start(v);
    while |stack| > 0
      invariant InProgress(v, adj, ends, used, iter[..], u, stack, path, k)
      decreases PairsBelow(v) - u, |stack|
    {
      var x := stack[|stack|-1];
      TopOfStack(v, adj, ends, used, iter[..], u, stack, path, k);
      var i := SkipUsed(adj[x], used, iter[x]);
      if i == |adj[x]| {
        Pop(v, adj, ends, used, iter[..], u, stack, path, k, x);
        iter[x] := i;
        path, stack, k := path + [x], stack[..|stack|-1], |stack| - 2;
      } else {
        var e := adj[x][i];
        Push(v, adj, ends, used, iter[..], u, stack, path, k, x, i);
        iter[x] := i + 1;
        used, u := used[e.id := true], u + {Norm(x, e.to)};
        stack := stack + [e.to];
      }
    }
    AllEdgesUsed(v, u, path);
  }

  // ---- from the circuit to the orientation ----

  /** The vertices that follow x (Left) and that x follows (Entered) along a walk. */
  ghost function Left(w: seq<int>, x: int): set<int> {
    if |w| < 2 then {}
    else Left(w[..|w|-1], x) + if w[|w|-2] == x then {w[|w|-1]} else {}
  }

  ghost function Entered(w: seq<int>, x: int): set<int> {
    if |w| < 2 then {}
    else Entered(w[..|w|-1], x) + if w[|w|-1] == x then {w[|w|-2]} else {}
  }

  lemma {:induction false} LeftStep(w: seq<int>, x: int, y: int) returns (i: int)
    requires y in Left(w, x)
    ensures 0 <= i < |w| - 1 && w[i] == x && w[i+1] == y && Times(w, Norm(x, y)) > 0
  {
    i := |w| - 2;
    if w[i] != x || w[i+1] != y {
      i := LeftStep(w[..|w|-1], x, y);
    }
  }

  lemma {:induction false} EnteredStep(w: seq<int>, x: int, y: int) returns (i: int)
    requires y in Entered(w, x)
    ensures 0 <= i < |w| - 1 && w[i] == y && w[i+1] == x && Times(w, Norm(x, y)) > 0
  {
    i := |w| - 2;
    if w[i] != y || w[i+1] != x {
      i := EnteredStep(w[..|w|-1], x, y);
    }
  }

  /** A walk that uses no edge twice leaves x as often as it enters x, up to its two ends. */
  lemma {:induction false} LeavesAsOftenAsEnters(w: seq<int>, x: int)
    requires |w| > 0 && forall e :: Times(w, e) <= 1
    ensures |Left(w, x)| - |Entered(w, x)| ==
              (if w[0] == x then 1 else 0) - (if w[|w|-1] == x then 1 else 0)
  {
    if |w| > 1 {
      var v, a, b := w[..|w|-1], w[|w|-2], w[|w|-1];
      forall e ensures Times(v, e) <= 1 {
        assert Times(w, e) <= 1;
      }
      assert Times(w, Norm(a, b)) <= 1;
      LeavesAsOftenAsEnters(v, x);
      if a == x && b in Left(v, x) { var i := LeftStep(v, x, b); }
      if b == x && a in Entered(v, x) { var i := EnteredStep(v, x, a); }
    }
  }

  /** Each arc of the walk between two participants is recorded as home -> away. */
  ghost predicate Follows(orient: Orientation, n: nat, w: seq<int>) {
    && (forall e | e in orient.Keys :: e.1 < n && Times(w, e) > 0)
    && (forall i | 0 <= i < |w| - 1 && w[i] < n && w[i+1] < n :: Recorded(orient, w[i], w[i+1]))
  }

  ghost predicate Recorded(orient: Orientation, home: int, away: int) {
    HomeAway(orient, home, away) == (home, away) && Norm(home, away) in orient.Keys
  }

  method OrientBalanced(n: nat) returns (orient: Orientation)
    ensures IsBalanced(orient, n)
  {
    var v, adj, used, ends := BuildGraph(n);
    var path := EulerPath(v, adj, used, ends);
    orient := map[];
    for k := 0 to |path| - 1
      invariant Follows(orient, n, path[..k+1])
    {
      var u, w := path[k], path[k+1];
      NextArcIsNew(v, path, k);
      assert path[..k+2] == path[..k+1] + [w];
      RecordArc(orient, n, path[..k+1], w);
      if u >= n || w >= n {
        continue;
      }
      var (lo, hi) := Norm(u, w);
      if (lo, hi) !in orient {
        orient := orient[(lo, hi) := u == lo];
      }
    }
    assert path[..|path|] == path;
    CircuitBalances(n, v, path, orient);
  }

  /** The circuit takes no edge twice, so the arc to be recorded next is new. */
  lemma NextArcIsNew(v: nat, path: seq<int>, k: nat)
    requires EulerCircuit(v, path) && k + 1 < |path|
    ensures Times(path[..k+1], Norm(path[k], path[k+1])) == 0
  {
    var e := Norm(path[k], path[k+1]);
    assert path[..k+2] == path[..k+1] + [path[k+1]];
    TimesSnoc(path[..k+1], path[k+1], e);
    TimesPrefix(path, k + 2, e);
    assert Times(path, e) <= 1;
  }

  lemma RecordArc(orient: Orientation, n: nat, w: seq<int>, z: int)
    requires |w| > 0 && w[|w|-1] != z && Follows(orient, n, w)
    requires Times(w, Norm(w[|w|-1], z)) == 0
    ensures var u := w[|w|-1];
            if u < n && z < n then Follows(orient[Norm(u, z) := u == Norm(u, z).0], n, w + [z])
            else Follows(orient, n, w + [z])
  {
    var u := w[|w|-1];
    forall e ensures Times(w + [z], e) == Times(w, e) + if Norm(u, z) == e then 1 else 0 {
      TimesSnoc(w, z, e);
    }
    if u < n && z < n {
      var o := orient[Norm(u, z) := u == Norm(u, z).0];
      forall i | 0 <= i < |w| - 1 && w[i] < n && w[i+1] < n ensures Recorded(o, w[i], w[i+1]) {
        assert Recorded(orient, w[i], w[i+1]);
      }
      assert Recorded(o, u, z);
    }
  }

  lemma {:induction false} StepIsRecorded(w: seq<int>, i: nat)
    requires i + 1 < |w|
    ensures w[i+1] in Left(w, w[i]) && w[i] in Entered(w, w[i+1])
  {
    if i + 2 < |w| {
      StepIsRecorded(w[..|w|-1], i);
    }
  }

  /** Every other participant follows or precedes x on the circuit, and that decides the home side. */
  lemma SideIsArc(n: nat, v: nat, path: seq<int>, orient: Orientation, x: int, y: int)
    requires n <= v && 0 <= x < n && 0 <= y < n && x != y
    requires EulerCircuit(v, path) && Follows(orient, n, path)
    ensures y in Left(path, x) <==> HomeAway(orient, x, y) == (x, y)
    ensures y in Entered(path, x) <==> HomeAway(orient, x, y) == (y, x)
  {
    if y in Left(path, x) {
      var i := LeftStep(path, x, y);
      assert Recorded(orient, path[i], path[i+1]);
    }
    if y in Entered(path, x) {
      var i := EnteredStep(path, x, y);
      assert Recorded(orient, path[i], path[i+1]);
    }
    assert Norm(x, y) in PairsBelow(v);
    var i := TimesStep(path, Norm(x, y));
    StepIsRecorded(path, i);
  }

  /** The participants x meets at home are those that follow x on the circuit. */
  lemma SidesAreArcs(n: nat, v: nat, path: seq<int>, orient: Orientation, x: int)
    requires n <= v && 0 <= x < n && EulerCircuit(v, path) && Follows(orient, n, path)
    ensures HomeOpponents(orient, n, x) == Left(path, x) * Upto(n)
    ensures AwayOpponents(orient, n, x) == Entered(path, x) * Upto(n)
  {
    NotOwnNeighbour(v, path, x);
    forall y | 0 <= y < n && y != x
      ensures y in Left(path, x) <==> HomeAway(orient, x, y) == (x, y)
      ensures y in Entered(path, x) <==> HomeAway(orient, x, y) == (y, x)
    {
      SideIsArc(n, v, path, orient, x, y);
    }
  }

  lemma NotOwnNeighbour(v: nat, path: seq<int>, x: int)
    requires IsTrail(v, path)
    ensures x !in Left(path, x) && x !in Entered(path, x)
    ensures Left(path, x) <= Upto(v) && Entered(path, x) <= Upto(v)
  {
    forall y | y in Left(path, x) ensures y != x && y in Upto(v) { var i := LeftStep(path, x, y); }
    forall y | y in Entered(path, x) ensures y != x && y in Upto(v) { var i := EnteredStep(path, x, y); }
  }

  lemma DropDummy(s: set<int>, n: nat)
    requires s <= Upto(n + 1)
    ensures |s * Upto(n)| == |s| - if n in s then 1 else 0
  {
    assert s * Upto(n) == s - {n};
  }

  lemma HomePlusAway(orient: Orientation, n: nat, x: int)
    requires 0 <= x < n
    ensures |HomeOpponents(orient, n, x)| + |AwayOpponents(orient, n, x)| == n - 1
  {
    var home, away := HomeOpponents(orient, n, x), AwayOpponents(orient, n, x);
    assert home + away == Upto(n) - {x};
    assert home * away == {};
    DisjointSize(home, away);
  }

  lemma DisjointSize<T>(a: set<T>, b: set<T>)
    requires a * b == {}
    ensures |a + b| == |a| + |b|
  {
  }

  /** Home plus away is n - 1 and the two differ by what the dummy takes away. */
  lemma BalanceFromArcs(n: nat, left: set<int>, entered: set<int>)
    requires left <= Upto(if n % 2 == 0 then n + 1 else n)
    requires entered <= Upto(if n % 2 == 0 then n + 1 else n)
    requires |left| == |entered|
    requires |left * Upto(n)| + |entered * Upto(n)| == n - 1
    ensures var d := |left * Upto(n)| - |entered * Upto(n)|;
            if n % 2 == 1 then d == 0 else d == 1 || d == -1
  {
    if n % 2 == 0 {
      DropDummy(left, n);
      DropDummy(entered, n);
    } else {
      KeepAll(left, n);
      KeepAll(entered, n);
    }
  }

  lemma KeepAll(s: set<int>, n: nat)
    requires s <= Upto(n)
    ensures s * Upto(n) == s
  {
  }

  lemma CircuitBalancesAt(n: nat, v: nat, path: seq<int>, orient: Orientation, x: int)
    requires v == if n % 2 == 0 then n + 1 else n
    requires 0 <= x < n && EulerCircuit(v, path) && Follows(orient, n, path)
    ensures var d := |HomeOpponents(orient, n, x)| - |AwayOpponents(orient, n, x)|;
            if n % 2 == 1 then d == 0 else d == 1 || d == -1
  {
    LeavesAsOftenAsEnters(path, x);
    SidesAreArcs(n, v, path, orient, x);
    NotOwnNeighbour(v, path, x);
    HomePlusAway(orient, n, x);
    BalanceFromArcs(n, Left(path, x), Entered(path, x));
  }

  lemma CircuitBalances(n: nat, v: nat, path: seq<int>, orient: Orientation)
    requires v == if n % 2 == 0 then n + 1 else n
    requires EulerCircuit(v, path) && Follows(orient, n, path)
    ensures IsBalanced(orient, n)
  {
    forall e | e in PairsBelow(n) ensures e in orient.Keys {
      assert e in PairsBelow(v) && Times(path, e) == 1;
      var i := TimesStep(path, e);
    }
    forall x | 0 <= x < n
      ensures var d := |HomeOpponents(orient, n, x)| - |AwayOpponents(orient, n, x)|;
              if n % 2 == 1 then d == 0 else d == 1 || d == -1
    {
      CircuitBalancesAt(n, v, path, orient, x);
    }
  }
}
