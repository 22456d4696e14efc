// Seed order (backend/internal/fixtures/seeding.go).

module Seeding {
  import opened FixtureModels

  /** A configured strategy name; any other name is rejected. */
  datatype SeedStrategy = SeedManual | SeedRandom | SeedRegistration | OtherStrategy(name: string)

  type Less = (Participant, Participant) -> bool

  // ---- comparators ----

  /** Go's lexicographic string order. */
  predicate StringLess(a: string, b: string) {
    if b == "" then false
    else if a == "" then true
    else a[0] < b[0] || (a[0] == b[0] && StringLess(a[1..], b[1..]))
  }

  lemma {:induction false} StringTrichotomy(a: string, b: string)
    ensures StringLess(a, b) || StringLess(b, a) || a == b
    ensures !(StringLess(a, b) && StringLess(b, a)) && !StringLess(a, a)
  {
    if a != "" {
      StringTrichotomy(a[1..], a[1..]);
      if b != "" {
        StringTrichotomy(a[1..], b[1..]);
        assert a == [a[0]] + a[1..] && b == [b[0]] + b[1..];
      }
    }
  }

  lemma {:induction false} StringTransitive(a: string, b: string, c: string)
    requires StringLess(a, b) && StringLess(b, c)
    ensures StringLess(a, c)
  {
    if a != "" && a[0] == b[0] == c[0] {
      StringTransitive(a[1..], b[1..], c[1..]);
    }
  }

  /** a precedes b: at the first place where they differ b has the greater character, or a ends there. */
  ghost predicate DiffersUpwards(a: string, b: string, k: int) {
    && 0 <= k <= |a| && k < |b| && a[..k] == b[..k]
    && (k < |a| ==> a[k] < b[k])
  }

  lemma {:induction false} StringLessIff(a: string, b: string)
    ensures StringLess(a, b) <==> exists k :: DiffersUpwards(a, b, k)
  {
    if a != "" && b != "" {
      StringLessIff(a[1..], b[1..]);
      assert DiffersUpwards(a, b, 0) <==> a[0] < b[0];
      if a[0] == b[0] {
        forall k | DiffersUpwards(a[1..], b[1..], k) ensures DiffersUpwards(a, b, k + 1) {
          assert a[..k+1] == [a[0]] + a[1..][..k] && b[..k+1] == [b[0]] + b[1..][..k];
        }
      }
      forall k | DiffersUpwards(a, b, k) && k > 0 ensures a[0] == b[0] && DiffersUpwards(a[1..], b[1..], k - 1) {
        assert a[..k][0] == b[..k][0];
        assert a[1..][..k-1] == a[..k][1..] && b[1..][..k-1] == b[..k][1..];
      }
    } else {
      assert b != "" ==> DiffersUpwards(a, b, 0);
    }
  }

  predicate LessByRegistration(a: Participant, b: Participant) {
    if a.registeredAt != b.registeredAt then a.registeredAt < b.registeredAt
    else StringLess(a.id, b.id)
  }

  /** Seeded before unseeded, by seed number; ties by registration. */
  predicate LessManual(a: Participant, b: Participant) {
    match (a.seedNumber, b.seedNumber)
    case (Some(x), Some(y)) => if x != y then x < y else LessByRegistration(a, b)
    case (Some(_), None) => true
    case (None, Some(_)) => false
    case (None, None) => LessByRegistration(a, b)
  }

  /** A strict total order on participants with different ids. */
  ghost predicate StrictTotal(less: Less) {
    && (forall a: Participant, b: Participant | a.id != b.id :: less(a, b) != less(b, a))
    && (forall a, b, c | less(a, b) && less(b, c) :: less(a, c))
    && (forall a :: !less(a, a))
  }

  lemma ComparatorsAreStrict()
    ensures StrictTotal(LessByRegistration) && StrictTotal(LessManual)
  {
    forall a: Participant, b: Participant
      ensures a.id != b.id ==> LessByRegistration(a, b) != LessByRegistration(b, a)
      ensures a.id != b.id ==> LessManual(a, b) != LessManual(b, a)
      ensures !LessByRegistration(a, a) && !LessManual(a, a)
    {
      StringTrichotomy(a.id, b.id);
    }
    forall a, b, c | LessByRegistration(a, b) && LessByRegistration(b, c) ensures LessByRegistration(a, c) {
      if a.registeredAt == b.registeredAt == c.registeredAt { StringTransitive(a.id, b.id, c.id); }
    }
    forall a, b, c | LessManual(a, b) && LessManual(b, c) ensures LessManual(a, c) {
      if a.registeredAt == b.registeredAt == c.registeredAt && LessByRegistration(a, b) && LessByRegistration(b, c) {
        StringTransitive(a.id, b.id, c.id);
      }
    }
  }

  // ---- sort.SliceStable ----

  /** x goes after the last element it is not less than. */
  function Insert(less: Less, x: Participant, s: seq<Participant>): seq<Participant> {
    if s != [] && less(x, s[|s|-1]) then Insert(less, x, s[..|s|-1]) + [s[|s|-1]] else s + [x]
  }

  /** The stable sort the library call performs. */
  function SortStable(less: Less, s: seq<Participant>): seq<Participant> {
    if s == [] then [] else Insert(less, s[|s|-1], SortStable(less, s[..|s|-1]))
  }

  ghost predicate Sorted(less: Less, s: seq<Participant>) {
    forall i, j | 0 <= i < j < |s| :: less(s[i], s[j])
  }

  ghost predicate UniqueIds(s: seq<Participant>) {
    forall i, j | 0 <= i < j < |s| :: s[i].id != s[j].id
  }

  lemma {:induction false} InsertPermutes(less: Less, x: Participant, s: seq<Participant>)
    ensures multiset(Insert(less, x, s)) == multiset(s) + multiset{x}
    ensures |Insert(less, x, s)| == |s| + 1
  {
    if s != [] && less(x, s[|s|-1]) {
      InsertPermutes(less, x, s[..|s|-1]);
      assert s == s[..|s|-1] + [s[|s|-1]];
    }
  }

  lemma {:induction false} SortPermutes(less: Less, s: seq<Participant>)
    ensures multiset(SortStable(less, s)) == multiset(s) && |SortStable(less, s)| == |s|
  {
    if s != [] {
      SortPermutes(less, s[..|s|-1]);
      InsertPermutes(less, s[|s|-1], SortStable(less, s[..|s|-1]));
      assert s == s[..|s|-1] + [s[|s|-1]];
    }
  }

  lemma {:induction false} InsertSorts(less: Less, x: Participant, s: seq<Participant>)
    requires StrictTotal(less) && Sorted(less, s)
    requires forall i | 0 <= i < |s| :: s[i].id != x.id
    ensures Sorted(less, Insert(less, x, s))
  {
    if s != [] && less(x, s[|s|-1]) {
      var rest, last := s[..|s|-1], s[|s|-1];
      InsertSorts(less, x, rest);
      InsertPermutes(less, x, rest);
      var r := Insert(less, x, rest);
      forall i | 0 <= i < |r| ensures less(r[i], last) {
        assert r[i] in multiset(r);
        assert r[i] in multiset(rest) || r[i] == x;
      }
    } else if s != [] {
      var last := s[|s|-1];
      forall i | 0 <= i < |s| ensures less(s[i], x) {
        assert less(last, x);
      }
    }
  }

  lemma {:induction false} SortSorts(less: Less, s: seq<Participant>)
    requires StrictTotal(less) && UniqueIds(s)
    ensures Sorted(less, SortStable(less, s))
  {
    if s != [] {
      var rest := s[..|s|-1];
      SortSorts(less, rest);
      SortPermutes(less, rest);
      forall i | 0 <= i < |SortStable(less, rest)| ensures SortStable(less, rest)[i].id != s[|s|-1].id {
        assert SortStable(less, rest)[i] in multiset(rest);
      }
      InsertSorts(less, s[|s|-1], SortStable(less, rest));
    }
  }

  /** A strict total order leaves only one sorted arrangement. */
  lemma {:induction false} SortedUnique(less: Less, s: seq<Participant>, t: seq<Participant>)
    requires StrictTotal(less) && Sorted(less, s) && Sorted(less, t) && multiset(s) == multiset(t)
    ensures s == t
  {
    assert |s| == |multiset(s)| == |multiset(t)| == |t|;
    if s != [] {
      SmallestFirst(less, s, t);
      TailsAgree(s, t);
      SortedUnique(less, s[1..], t[1..]);
      assert s == [s[0]] + s[1..] && t == [t[0]] + t[1..];
    }
  }

  lemma SmallestFirst(less: Less, s: seq<Participant>, t: seq<Participant>)
    requires StrictTotal(less) && Sorted(less, s) && Sorted(less, t) && multiset(s) == multiset(t) && s != [] && t != []
    ensures s[0] == t[0]
  {
    assert s[0] in multiset(t) && t[0] in multiset(s);
    if s[0] != t[0] {
      var i :| 0 <= i < |s| && s[i] == t[0];
      var j :| 0 <= j < |t| && t[j] == s[0];
      NoCycle(less, s[0], t[0]);
    }
  }

  lemma NoCycle(less: Less, a: Participant, b: Participant)
    requires StrictTotal(less)
    ensures !(less(a, b) && less(b, a))
  {
  }

  lemma TailsAgree<T>(s: seq<T>, t: seq<T>)
    requires s != [] && t != [] && s[0] == t[0] && multiset(s) == multiset(t)
    ensures multiset(s[1..]) == multiset(t[1..])
  {
    assert s == [s[0]] + s[1..] && t == [t[0]] + t[1..];
    assert multiset(s[1..]) == multiset(s) - multiset{s[0]};
    assert multiset(t[1..]) == multiset(t) - multiset{s[0]};
  }

  /** Sorting forgets the input order. */
  lemma SortIgnoresInputOrder(less: Less, s: seq<Participant>, t: seq<Participant>)
    requires StrictTotal(less) && UniqueIds(s) && UniqueIds(t) && multiset(s) == multiset(t)
    ensures SortStable(less, s) == SortStable(less, t)
  {
    SortPermutes(less, s);
    SortPermutes(less, t);
    SortSorts(less, s);
    SortSorts(less, t);
    SortedUnique(less, SortStable(less, s), SortStable(less, t));
  }

  // ---- Fisher-Yates ----

  /** The draws the generator makes: for position i, one number from 0..i, positions descending to 1. */
  predicate ValidDraws(draws: seq<nat>, i: nat) {
    |draws| == i && forall k | 0 <= k < i :: draws[k] <= i - k
  }

  function Swap<T>(s: seq<T>, i: nat, j: nat): seq<T>
    requires i < |s| && j < |s|
  {
    s[i := s[j]][j := s[i]]
  }

  function Shuffle<T>(s: seq<T>, i: nat, draws: seq<nat>): (r: seq<T>)
    requires i < |s| && ValidDraws(draws, i)
    ensures |r| == |s|
    decreases i
  {
    if i == 0 then s else Shuffle(Swap(s, i, draws[0]), i - 1, draws[1..])
  }

  /** Positions above i keep their elements. */
  lemma {:induction false} ShuffleKeepsTail<T>(s: seq<T>, i: nat, draws: seq<nat>, k: nat)
    requires i < k < |s| && ValidDraws(draws, i)
    ensures Shuffle(s, i, draws)[k] == s[k]
    decreases i
  {
    if i > 0 { ShuffleKeepsTail(Swap(s, i, draws[0]), i - 1, draws[1..], k); }
  }

  lemma {:induction false} ShufflePermutes<T>(s: seq<T>, i: nat, draws: seq<nat>)
    requires i < |s| && ValidDraws(draws, i)
    ensures multiset(Shuffle(s, i, draws)) == multiset(s)
    decreases i
  {
    if i > 0 {
      ShufflePermutes(Swap(s, i, draws[0]), i - 1, draws[1..]);
    }
  }

  /** Different draws give different orders. */
  lemma {:induction false} ShuffleInjective<T>(s: seq<T>, i: nat, d: seq<nat>, e: seq<nat>)
    requires i < |s| && ValidDraws(d, i) && ValidDraws(e, i) && Distinct(s)
    requires Shuffle(s, i, d) == Shuffle(s, i, e)
    ensures d == e
    decreases i
  {
    if i > 0 {
      ShuffleKeepsTail(Swap(s, i, d[0]), i - 1, d[1..], i);
      ShuffleKeepsTail(Swap(s, i, e[0]), i - 1, e[1..], i);
      assert s[d[0]] == s[e[0]];
      assert d[0] == e[0];
      ShuffleInjective(Swap(s, i, d[0]), i - 1, d[1..], e[1..]);
      assert d == [d[0]] + d[1..] && e == [e[0]] + e[1..];
    }
  }

  /** Every order is reached by some draws. */
  lemma {:induction false} ShuffleSurjective<T>(s: seq<T>, i: nat, t: seq<T>) returns (d: seq<nat>)
    requires i < |s| && Distinct(s) && multiset(t) == multiset(s) && |t| == |s| && t[i+1..] == s[i+1..]
    ensures ValidDraws(d, i) && Shuffle(s, i, d) == t
    decreases i
  {
    if i == 0 {
      d := [];
      LastOne(s, t);
    } else {
      var j := DrawFor(s, i, t);
      assert t[i..] == Swap(s, i, j)[i..];
      var rest := ShuffleSurjective(Swap(s, i, j), i - 1, t);
      d := [j] + rest;
      assert d[1..] == rest;
    }
  }

  lemma LastOne<T>(s: seq<T>, t: seq<T>)
    requires |s| == |t| > 0 && multiset(t) == multiset(s) && t[1..] == s[1..]
    ensures s == t
  {
    assert s == [s[0]] + s[1..] && t == [t[0]] + t[1..];
    assert multiset{s[0]} == multiset(s) - multiset(s[1..]) == multiset{t[0]};
    assert s[0] in multiset{t[0]};
  }

  /** The element wanted at position i is still among the first i + 1. */
  lemma DrawFor<T>(s: seq<T>, i: nat, t: seq<T>) returns (j: nat)
    requires i < |s| == |t| && Distinct(s) && multiset(t) == multiset(s) && t[i+1..] == s[i+1..]
    ensures j <= i && s[j] == t[i]
  {
    assert t[i] in multiset(s);
    j :| 0 <= j < |s| && s[j] == t[i];
    if j > i {
      assert t[j] == t[i+1..][j-i-1] == s[j];
      TwiceInMultiset(t, i, j);
      OnceInMultiset(s, j);
    }
  }

  lemma TwiceInMultiset<T>(t: seq<T>, i: nat, j: nat)
    requires i < j < |t| && t[i] == t[j]
    ensures multiset(t)[t[i]] >= 2
  {
    assert t == t[..i] + [t[i]] + t[i+1..j] + [t[j]] + t[j+1..];
  }

  lemma OnceInMultiset<T>(s: seq<T>, j: nat)
    requires j < |s| && Distinct(s)
    ensures multiset(s)[s[j]] == 1
  {
    assert s == s[..j] + [s[j]] + s[j+1..];
    assert s[j] !in s[..j] && s[j] !in s[j+1..];
  }

  method ShuffleInPlace(out: array<Participant>, draws: seq<nat>)
    requires out.Length > 0 && ValidDraws(draws, out.Length - 1)
    modifies out
    ensures out[..] == Shuffle(old(out[..]), out.Length - 1, draws)
  {
    var i, next := out.Length - 1, 0;
    ghost var rest := draws;
    while i > 0
      invariant 0 <= i < out.Length && next + i == out.Length - 1 && rest == draws[next..]
      invariant ValidDraws(rest, i) && Shuffle(out[..], i, rest) == Shuffle(old(out[..]), out.Length - 1, draws)
    {
      var j := draws[next];
      next := next + 1;
      ghost var before := out[..];
      out[i], out[j] := out[j], out[i];
      assert out[..] == Swap(before, i, j);
      rest := rest[1..];
      i := i - 1;
    }
  }

  // ---- the resolved order ----

  datatype SeedError = UnknownSeedStrategy

  /** The order every strategy stands for; draws are the generator's numbers for the random strategy. */
  function SeedOrder(ps: seq<Participant>, strategy: SeedStrategy, draws: seq<nat>): (r: Result<seq<Participant>, SeedError>)
    requires ps != [] && ValidDraws(draws, |ps| - 1)
  {
    match strategy
    case SeedRegistration => Ok(SortStable(LessByRegistration, ps))
    case SeedManual => Ok(SortStable(LessManual, ps))
    case SeedRandom =>
      SortPermutes(LessByRegistration, ps);
      Ok(Shuffle(SortStable(LessByRegistration, ps), |ps| - 1, draws))
    case OtherStrategy(_) => Err(UnknownSeedStrategy)
  }

  /** a registered no later than b, and at the same time only with the smaller id. */
  ghost predicate RegisteredBefore(a: Participant, b: Participant) {
    a.registeredAt <= b.registeredAt && (a.registeredAt == b.registeredAt ==> exists k :: DiffersUpwards(a.id, b.id, k))
  }

  /** Seeded participants come first, by seed number; equal seed numbers, and the unseeded, by registration. */
  ghost predicate SeededBefore(a: Participant, b: Participant) {
    && (a.seedNumber.None? ==> b.seedNumber.None?)
    && (a.seedNumber.Some? && b.seedNumber.Some? ==> a.seedNumber.value <= b.seedNumber.value)
    && (a.seedNumber == b.seedNumber ==> RegisteredBefore(a, b))
  }

  /** The registration strategy: earlier registrations first, ties by id. */
  lemma RegistrationOrder(ps: seq<Participant>, draws: seq<nat>, i: nat, j: nat)
    requires ps != [] && ValidDraws(draws, |ps| - 1) && UniqueIds(ps) && i < j < |ps|
    ensures var r := SeedOrder(ps, SeedRegistration, draws);
            r.Ok? && |r.value| == |ps| && RegisteredBefore(r.value[i], r.value[j])
  {
    ComparatorsAreStrict();
    SortPermutes(LessByRegistration, ps);
    SortSorts(LessByRegistration, ps);
    var r := SortStable(LessByRegistration, ps);
    assert LessByRegistration(r[i], r[j]);
    StringLessIff(r[i].id, r[j].id);
  }

  /** The manual strategy: seeded participants first, by seed number; ties and the unseeded by registration. */
  lemma ManualOrder(ps: seq<Participant>, draws: seq<nat>, i: nat, j: nat)
    requires ps != [] && ValidDraws(draws, |ps| - 1) && UniqueIds(ps) && i < j < |ps|
    ensures var r := SeedOrder(ps, SeedManual, draws);
            r.Ok? && |r.value| == |ps| && SeededBefore(r.value[i], r.value[j])
  {
    ComparatorsAreStrict();
    SortPermutes(LessManual, ps);
    SortSorts(LessManual, ps);
    var r := SortStable(LessManual, ps);
    assert LessManual(r[i], r[j]);
    StringLessIff(r[i].id, r[j].id);
  }

  /** r is in the order of a sorting strategy; the random strategy is described by its draws. */
  ghost predicate InOrderOf(strategy: SeedStrategy, r: seq<Participant>) {
    forall i, j | 0 <= i < j < |r| ::
      && (strategy.SeedRegistration? ==> RegisteredBefore(r[i], r[j]))
      && (strategy.SeedManual? ==> SeededBefore(r[i], r[j]))
  }

  lemma ResolvedInOrder(ps: seq<Participant>, strategy: SeedStrategy, draws: seq<nat>)
    requires ps != [] && ValidDraws(draws, |ps| - 1) && UniqueIds(ps)
    ensures var r := SeedOrder(ps, strategy, draws); r.Ok? ==> InOrderOf(strategy, r.value)
  {
    var r := SeedOrder(ps, strategy, draws);
    if r.Ok? {
      OrderPermutes(ps, strategy, draws);
      forall i, j | 0 <= i < j < |r.value|
        ensures strategy.SeedRegistration? ==> RegisteredBefore(r.value[i], r.value[j])
        ensures strategy.SeedManual? ==> SeededBefore(r.value[i], r.value[j])
      {
        if strategy.SeedRegistration? { RegistrationOrder(ps, draws, i, j); }
        if strategy.SeedManual? { ManualOrder(ps, draws, i, j); }
      }
    }
  }

  method ResolveSeedOrder(participants: seq<Participant>, strategy: SeedStrategy, draws: seq<nat>)
    returns (r: Result<seq<Participant>, SeedError>)
    requires participants != [] && ValidDraws(draws, |participants| - 1)
    ensures r == SeedOrder(participants, strategy, draws)
    ensures r.Err? <==> strategy.OtherStrategy?
    ensures r.Ok? && UniqueIds(participants) ==> InOrderOf(strategy, r.value)
  {
    if UniqueIds(participants) { ResolvedInOrder(participants, strategy, draws); }
    match strategy
    case SeedRegistration =>
      r := Ok(SortStable(LessByRegistration, participants));
    case SeedManual =>
      r := Ok(SortStable(LessManual, participants));
    case SeedRandom =>
      SortPermutes(LessByRegistration, participants);
      var base := SortStable(LessByRegistration, participants);
      var out := new Participant[|base|](i requires 0 <= i < |base| => base[i]);
      assert out[..] == base;
      ShuffleInPlace(out, draws);
      r := Ok(out[..]);
    case OtherStrategy(_) =>
      r := Err(UnknownSeedStrategy);
  }

  /** Every known strategy yields a permutation of the input. */
  lemma OrderPermutes(ps: seq<Participant>, strategy: SeedStrategy, draws: seq<nat>)
    requires ps != [] && ValidDraws(draws, |ps| - 1)
    ensures var r := SeedOrder(ps, strategy, draws);
            if strategy.OtherStrategy? then r.Err?
            else r.Ok? && multiset(r.value) == multiset(ps) && |r.value| == |ps|
  {
    SortPermutes(LessByRegistration, ps);
    SortPermutes(LessManual, ps);
    if strategy.SeedRandom? {
      ShufflePermutes(SortStable(LessByRegistration, ps), |ps| - 1, draws);
    }
  }

  /** The draws that leave every position as it is. */
  ghost predicate DrawsItself(draws: seq<nat>, i: nat) {
    |draws| == i && forall k | 0 <= k < i :: draws[k] == i - k
  }

  lemma {:induction false} ShuffleNothing<T>(s: seq<T>, i: nat, draws: seq<nat>)
    requires i < |s| && DrawsItself(draws, i)
    ensures ValidDraws(draws, i) && Shuffle(s, i, draws) == s
    decreases i
  {
    if i > 0 {
      ShuffleNothing(s, i - 1, draws[1..]);
      assert Swap(s, i, i) == s;
    }
  }

  lemma LastIsDrawn<T>(s: seq<T>, draws: seq<nat>)
    requires |s| > 1 && ValidDraws(draws, |s| - 1)
    ensures draws[0] < |s| && Shuffle(s, |s| - 1, draws)[|s| - 1] == s[draws[0]]
  {
    var i := |s| - 1;
    assert draws[0] <= i && ValidDraws(draws[1..], i - 1);
    ShuffleKeepsTail(Swap(s, i, draws[0]), i - 1, draws[1..], i);
  }

  /** The random strategy shuffles the registration order: the first draw picks who comes last, and draws that pick
      each position itself leave the order as it is. */
  lemma RandomShufflesRegistration(ps: seq<Participant>, draws: seq<nat>)
    requires ps != [] && ValidDraws(draws, |ps| - 1)
    ensures var (r, base) := (SeedOrder(ps, SeedRandom, draws), SeedOrder(ps, SeedRegistration, draws));
            && r.Ok? && base.Ok? && |r.value| == |base.value| == |ps|
            && (|ps| > 1 ==> r.value[|ps| - 1] == base.value[draws[0]])
            && (DrawsItself(draws, |ps| - 1) ==> r == base)
  {
    SortPermutes(LessByRegistration, ps);
    var base := SortStable(LessByRegistration, ps);
    if |ps| > 1 { LastIsDrawn(base, draws); }
    if DrawsItself(draws, |ps| - 1) { ShuffleNothing(base, |ps| - 1, draws); }
  }

  /** With unique ids the order depends on the set of participants, not on how they are listed. */
  lemma OrderIgnoresInputOrder(ps: seq<Participant>, qs: seq<Participant>, strategy: SeedStrategy, draws: seq<nat>)
    requires ps != [] && |qs| == |ps| && ValidDraws(draws, |ps| - 1)
    requires UniqueIds(ps) && UniqueIds(qs) && multiset(ps) == multiset(qs)
    ensures SeedOrder(ps, strategy, draws) == SeedOrder(qs, strategy, draws)
  {
    ComparatorsAreStrict();
    SortIgnoresInputOrder(LessByRegistration, ps, qs);
    SortIgnoresInputOrder(LessManual, ps, qs);
  }

  /** The random strategy can produce every order of the field, each from exactly one sequence of draws. */
  lemma RandomReachesEveryOrder(ps: seq<Participant>, t: seq<Participant>) returns (d: seq<nat>)
    requires ps != [] && UniqueIds(ps) && multiset(t) == multiset(ps)
    ensures ValidDraws(d, |ps| - 1) && SeedOrder(ps, SeedRandom, d) == Ok(t)
    ensures forall e | ValidDraws(e, |ps| - 1) && SeedOrder(ps, SeedRandom, e) == Ok(t) :: e == d
  {
    var base := SortStable(LessByRegistration, ps);
    SortPermutes(LessByRegistration, ps);
    assert |t| == |multiset(t)| == |multiset(ps)| == |ps|;
    ComparatorsAreStrict();
    SortSorts(LessByRegistration, ps);
    d := ShuffleSurjective(base, |base| - 1, t);
    forall e | ValidDraws(e, |ps| - 1) && SeedOrder(ps, SeedRandom, e) == Ok(t) ensures e == d {
      ShuffleInjective(base, |base| - 1, e, d);
    }
  }

}
