// The single entry point of the fixture engine (backend/internal/fixtures/generator.go).

module Generator {
  import opened FixtureModels
  import opened Counting
  import opened Seeding
  import opened Circle
  import RR = RoundRobin
  import opened SeedSlots
  import opened BracketTree
  import opened QualifierDraw
  import K = Knockout
  import G = GroupKnockout

  datatype Format = FormatRoundRobin | FormatLeague | FormatKnockout | FormatGroupKnockout | OtherFormat(name: string)

  datatype Settings = Settings(
    format: Format, seedStrategy: SeedStrategy, legs: int, groups: int, qualifiersPerGroup: int)

  datatype Plan = Plan(
    matches: seq<PlannedMatch>, byes: seq<Bye>, seedOrder: seq<string>, settings: Settings, warnings: seq<G.Warning>)

  datatype GenerateError =
    | TooFewParticipants
    | DuplicateParticipant
    | UnknownStrategy
    | UnknownFormat
    | InvalidGroups
    | InvalidQualifiers

  // ---- validation ----

  method AssertUniqueIds(ps: seq<Participant>) returns (unique: bool)
    ensures unique <==> UniqueIds(ps)
  {
    var seen: set<string> := {};
    for i := 0 to |ps|
      invariant forall k | 0 <= k < i :: ps[k].id in seen
      invariant forall id | id in seen :: exists k :: 0 <= k < i && ps[k].id == id
      invariant UniqueIds(ps[..i])
    {
      if ps[i].id in seen {
        return false;
      }
      seen := seen + {ps[i].id};
    }
    assert ps[..|ps|] == ps;
    return true;
  }

  function ValidateGroupConfig(n: nat, s: Settings): (e: Option<GenerateError>)
    ensures e == None <==> G.ValidGroupConfig(n, s.groups, s.qualifiersPerGroup)
  {
    if s.groups < 2 || s.groups > n then Some(InvalidGroups)
    else if s.qualifiersPerGroup < 1 then Some(InvalidQualifiers)
    else if s.qualifiersPerGroup > n / s.groups then Some(InvalidQualifiers)
    else if s.groups * s.qualifiersPerGroup < 2 then Some(InvalidQualifiers)
    else None
  }

  /** Why generation fails, in the order the checks are made; None when it succeeds. */
  ghost function Failure(ps: seq<Participant>, s: Settings): Option<GenerateError> {
    if |ps| < 2 then Some(TooFewParticipants)
    else if !UniqueIds(ps) then Some(DuplicateParticipant)
    else if s.seedStrategy.OtherStrategy? then Some(UnknownStrategy)
    else if s.format.OtherFormat? then Some(UnknownFormat)
    else if s.format.FormatGroupKnockout? then ValidateGroupConfig(|ps|, s)
    else None
  }

  lemma MoreTimes(g: nat, a: int, b: int)
    requires a <= b
    ensures g * a <= g * b
  {
  }

  lemma QuotientServes(n: nat, g: nat, q: nat)
    requires g > 0
    ensures q <= n / g <==> g * q <= n
  {
    var c := n / g;
    var gc := g * c;
    assert gc <= n < gc + g;
    if q <= c {
      MoreTimes(g, q, c);
    } else {
      MoreTimes(g, c + 1, q);
      assert g * (c + 1) == gc + g;
    }
  }

  /** The checks of the entry point, in order: two participants, no id twice, a known strategy and a known format, and
      for groups a count from two to the size of the field and as many qualifiers as the field has for every group. */
  lemma FailureIs(ps: seq<Participant>, s: Settings)
    ensures var e := Failure(ps, s);
            if |ps| < 2 then e == Some(TooFewParticipants)
            else if exists i, j :: 0 <= i < j < |ps| && ps[i].id == ps[j].id then e == Some(DuplicateParticipant)
            else if s.seedStrategy !in {SeedManual, SeedRandom, SeedRegistration} then e == Some(UnknownStrategy)
            else if s.format !in {FormatRoundRobin, FormatLeague, FormatKnockout, FormatGroupKnockout} then e == Some(UnknownFormat)
            else if s.format != FormatGroupKnockout then e == None
            else if s.groups < 2 || s.groups > |ps| then e == Some(InvalidGroups)
            else if s.qualifiersPerGroup < 1 || s.groups * s.qualifiersPerGroup > |ps| then e == Some(InvalidQualifiers)
            else e == None
  {
    if 2 <= s.groups <= |ps| && s.qualifiersPerGroup >= 1 {
      QuotientServes(|ps|, s.groups, s.qualifiersPerGroup);
      AtLeastTwo(s.groups, s.qualifiersPerGroup);
    }
  }

  lemma AtLeastTwo(g: int, q: int)
    requires g >= 2 && q >= 1
    ensures g * q >= 2
  {
  }

  // ---- numbering ----

  function Numbered(ms: seq<PlannedMatch>): seq<PlannedMatch> {
    seq(|ms|, i requires 0 <= i < |ms| => ms[i].(matchNumber := i + 1))
  }

  method AssignMatchNumbers(matches: seq<PlannedMatch>) returns (numbered: seq<PlannedMatch>)
    ensures numbered == Numbered(matches) && |numbered| == |matches|
    ensures forall i | 0 <= i < |matches| ::
              numbered[i].matchNumber == i + 1 && numbered[i].(matchNumber := matches[i].matchNumber) == matches[i]
  {
    numbered := matches;
    for i := 0 to |matches|
      invariant |numbered| == |matches|
      invariant numbered == Numbered(matches)[..i] + matches[i..]
    {
      numbered := numbered[i := numbered[i].(matchNumber := i + 1)];
    }
  }

  /** Numbering changes no edge and no slot. */
  lemma NumberingKeepsProgression(ms: seq<PlannedMatch>)
    requires Progression(ms)
    ensures Progression(Numbered(ms))
  {
    var ns := Numbered(ms);
    forall i, t, s ensures Feeds(ns, i, t, s) <==> Feeds(ms, i, t, s) {
    }
    forall i | 0 <= i < |ns| ensures ns[i].index == i && GoesForward(ns, i) {
      assert GoesForward(ms, i);
      if ms[i].nextMatchIndex.Some? {
        var t, s :| Feeds(ms, i, t, s) && i < t && SlotOf(ms[t], s) == TBD && ms[i].roundNumber < ms[t].roundNumber;
        assert Feeds(ns, i, t, s);
      }
    }
    forall t, s | 0 <= t < |ns| && (s == 1 || s == 2) ensures SlotOf(ns[t], s) == TBD ==> HasFeeder(ns, t, s) {
      if SlotOf(ns[t], s) == TBD {
        assert SlotOf(ms[t], s) == TBD;
        var i :| Feeds(ms, i, t, s);
        assert Feeds(ns, i, t, s);
      }
    }
  }

  // ---- the four formats ----

  /** Legs default to one for a round robin and two for a league. */
  function LegsOf(s: Settings): nat {
    if s.legs <= 0 then (if s.format.FormatLeague? then 2 else 1) else s.legs
  }

  /** matches is what the format's builder makes of the seed order. */
  ghost predicate Builds(seeded: seq<Participant>, s: Settings, matches: seq<PlannedMatch>, byes: seq<Bye>) {
    match s.format
    case FormatRoundRobin => byes == [] && exists l, p, o :: RR.IsLeague(Ids(seeded), LegsOf(s), matches, l, p, o)
    case FormatLeague => byes == [] && exists l, p, o :: RR.IsLeague(Ids(seeded), LegsOf(s), matches, l, p, o)
    case FormatKnockout =>
      exists m, nodes :: K.IsKnockout(K.Entries(Ids(seeded)), m, 0, matches, nodes) && K.ByesProtectTopSeeds(Ids(seeded), m, byes, 2)
    case FormatGroupKnockout =>
      byes == [] && s.groups >= 0 && s.qualifiersPerGroup >= 0
      && exists gs, ls, r, ko, m, nodes ::
           G.IsGroupKnockout(seeded, s.groups, s.qualifiersPerGroup, matches, gs, ls, r, ko, m, nodes)
    case OtherFormat(_) => false
  }

  /** Only a group stage warns: about byes in its knockout, and about an odd group count. */
  ghost predicate Warns(s: Settings, warnings: seq<G.Warning>) {
    if s.format.FormatGroupKnockout? && s.groups >= 0 && s.qualifiersPerGroup >= 0 then
      exists m: nat :: WarnsFor(s.groups, s.qualifiersPerGroup, m, warnings)
    else warnings == []
  }

  ghost predicate WarnsFor(g: nat, q: nat, m: nat, warnings: seq<G.Warning>) {
    K.Fits(FieldOf(g, q), m) && G.WarnsOf(warnings, FieldOf(g, q), Pow2(m), g)
  }

  lemma LeagueProgression(ids: seq<string>, legs: nat, matches: seq<PlannedMatch>,
                          leg0: seq<RR.Oriented>, pairs: seq<Pair>, orient: map<(int, int), bool>)
    requires RR.IsLeague(ids, legs, matches, leg0, pairs, orient)
    ensures Progression(matches)
  {
    forall i | 0 <= i < |matches|
      ensures matches[i].index == i && matches[i].nextMatchIndex == None && matches[i].nextSlot == None
      ensures matches[i].home.Concrete? && matches[i].away.Concrete?
    {
      var leg, k := RR.Locate(ids, leg0, legs, EvenCount(|ids|) - 1, i);
    }
  }

  method BuildMatches(seeded: seq<Participant>, s: Settings)
    returns (matches: seq<PlannedMatch>, byes: seq<Bye>, warnings: seq<G.Warning>)
    requires |seeded| >= 2 && UniqueIds(seeded) && !s.format.OtherFormat?
    requires s.format.FormatGroupKnockout? ==> G.ValidGroupConfig(|seeded|, s.groups, s.qualifiersPerGroup)
    ensures Builds(seeded, s, matches, byes) && Progression(matches) && Warns(s, warnings)
  {
    byes, warnings := [], [];
    match s.format {
      case FormatRoundRobin | FormatLeague =>
        matches := BuildLeague(seeded, LegsOf(s));
      case FormatKnockout =>
        ghost var m, nodes;
        matches, byes, m, nodes := K.BuildKnockout(seeded);
      case FormatGroupKnockout =>
        ghost var gs, ls, r, ko, m, nodes;
        matches, warnings, gs, ls, r, ko, m, nodes := G.BuildGroupKnockout(seeded, s.groups, s.qualifiersPerGroup);
        assert WarnsFor(s.groups, s.qualifiersPerGroup, m, warnings);
    }
  }

  method BuildLeague(seeded: seq<Participant>, legs: nat) returns (matches: seq<PlannedMatch>)
    requires UniqueIds(seeded)
    ensures exists l, p, o :: RR.IsLeague(Ids(seeded), legs, matches, l, p, o)
    ensures Progression(matches)
  {
    ghost var l, p, o;
    matches, l, p, o := RR.BuildRoundRobin(seeded, legs);
    assert RR.IsLeague(Ids(seeded), legs, matches, l, p, o);
    LeagueProgression(Ids(seeded), legs, matches, l, p, o);
  }

  /** What a successful plan is. */
  ghost predicate IsPlan(ps: seq<Participant>, s: Settings, draws: seq<nat>, plan: Plan)
    requires ps != [] && ValidDraws(draws, |ps| - 1)
  {
    var order := SeedOrder(ps, s.seedStrategy, draws);
    && order.Ok? && UniqueIds(order.value)
    && plan.settings == s && plan.seedOrder == Ids(order.value)
    && Progression(plan.matches) && Warns(s, plan.warnings)
    && exists ms :: Builds(order.value, s, ms, plan.byes) && plan.matches == Numbered(ms)
  }

  /** In a league or round robin of unique participants every two of them meet as often as was asked for, and by default
      once in a round robin and twice in a league. */
  lemma LeaguePlanMeets(ps: seq<Participant>, s: Settings, draws: seq<nat>, plan: Plan, a: Participant, b: Participant)
    requires ps != [] && ValidDraws(draws, |ps| - 1) && IsPlan(ps, s, draws, plan)
    requires (s.format == FormatRoundRobin || s.format == FormatLeague) && a in ps && b in ps && a.id != b.id
    ensures Count(plan.matches, RR.Game(a.id, b.id)) + Count(plan.matches, RR.Game(b.id, a.id))
            == if s.legs > 0 then s.legs else if s.format == FormatLeague then 2 else 1
  {
    var order := SeedOrder(ps, s.seedStrategy, draws).value;
    OrderPermutes(ps, s.seedStrategy, draws);
    assert a in multiset(order) && b in multiset(order);
    var ms :| Builds(order, s, ms, plan.byes) && plan.matches == Numbered(ms);
    LeagueMeets(order, LegsOf(s), ms, a, b);
    NumberingKeepsGames(ms, a.id, b.id);
    NumberingKeepsGames(ms, b.id, a.id);
  }

  lemma LeagueMeets(order: seq<Participant>, legs: nat, ms: seq<PlannedMatch>, a: Participant, b: Participant)
    requires exists l, p, o :: RR.IsLeague(Ids(order), legs, ms, l, p, o)
    requires a in order && b in order && a.id != b.id
    ensures Count(ms, RR.Game(a.id, b.id)) + Count(ms, RR.Game(b.id, a.id)) == legs
  {
    var x :| 0 <= x < |order| && order[x] == a;
    var y :| 0 <= y < |order| && order[y] == b;
    var l, p, o :| RR.IsLeague(Ids(order), legs, ms, l, p, o);
    RR.EveryPairMeets(Ids(order), legs, ms, l, p, o, x, y);
  }

  lemma NumberingKeepsGames(ms: seq<PlannedMatch>, home: string, away: string)
    ensures Count(Numbered(ms), RR.Game(home, away)) == Count(ms, RR.Game(home, away))
  {
    CountSame(Numbered(ms), ms, RR.Game(home, away), RR.Game(home, away));
  }

  /** The byes of a knockout drawn by hand go to the best seeds: whoever has one stands before everybody who has none. */
  lemma ByesGoToBestSeeds(ps: seq<Participant>, s: Settings, draws: seq<nat>, plan: Plan, a: Participant, b: Participant)
    requires |ps| >= 2 && ValidDraws(draws, |ps| - 1) && IsPlan(ps, s, draws, plan)
    requires s.format == FormatKnockout && s.seedStrategy == SeedManual && a in ps && b in ps
    requires HasBye(plan.byes, a.id) && !HasBye(plan.byes, b.id)
    ensures SeededBefore(a, b)
  {
    var order := SeedOrder(ps, SeedManual, draws).value;
    OrderPermutes(ps, SeedManual, draws);
    UniqueInAnyOrder(order, ps);
    var ms :| Builds(order, s, ms, plan.byes) && plan.matches == Numbered(ms);
    var m, nodes :| K.IsKnockout(K.Entries(Ids(order)), m, 0, ms, nodes) && K.ByesProtectTopSeeds(Ids(order), m, plan.byes, 2);
    assert a in multiset(order) && b in multiset(order);
    var i, j := ByeHolderFirst(order, m, plan.byes, a, b);
    ManualOrder(ps, draws, i, j);
  }

  ghost predicate HasBye(byes: seq<Bye>, id: string) {
    exists k :: 0 <= k < |byes| && byes[k].participantId == id
  }

  lemma ByeHolderFirst(order: seq<Participant>, m: nat, byes: seq<Bye>, a: Participant, b: Participant) returns (i: nat, j: nat)
    requires UniqueIds(order) && a in order && b in order && K.ByesProtectTopSeeds(Ids(order), m, byes, 2)
    requires HasBye(byes, a.id) && !HasBye(byes, b.id)
    ensures i < j < |order| && order[i] == a && order[j] == b
  {
    var k :| 0 <= k < |byes| && byes[k].participantId == a.id;
    assert K.IsByeOfField(Ids(order), m, byes[k], 2);
    var l :| K.ByeFor(Ids(order), m, l, byes[k], 2);
    i := l - 1;
    var y :| 0 <= y < |order| && order[y] == b;
    j := y;
    var x :| 0 <= x < |order| && order[x] == a;
    assert x == i;
    assert K.GetsBye(|order|, m, j + 1) ==> K.Reports(Ids(order), m, byes, j + 1, 2);
  }

  method Generate(participants: seq<Participant>, s: Settings, draws: seq<nat>) returns (r: Result<Plan, GenerateError>)
    requires participants != [] ==> ValidDraws(draws, |participants| - 1)
    ensures match Failure(participants, s)
            case Some(e) => r == Err(e)
            case None => r.Ok? && IsPlan(participants, s, draws, r.value)
  {
    if |participants| < 2 {
      return Err(TooFewParticipants);
    }
    var unique := AssertUniqueIds(participants);
    if !unique {
      return Err(DuplicateParticipant);
    }
    var order := ResolveSeedOrder(participants, s.seedStrategy, draws);
    if order.Err? {
      return Err(UnknownStrategy);
    }
    var seeded := order.value;
    OrderPermutes(participants, s.seedStrategy, draws);
    UniqueInAnyOrder(participants, seeded);
    if s.format.OtherFormat? {
      return Err(UnknownFormat);
    }
    if s.format.FormatGroupKnockout? {
      var e := ValidateGroupConfig(|seeded|, s);
      if e.Some? {
        return Err(e.value);
      }
    }
    var matches, byes, warnings := BuildMatches(seeded, s);
    NumberingKeepsProgression(matches);
    var numbered := AssignMatchNumbers(matches);
    r := Ok(Plan(numbered, byes, Ids(seeded), s, warnings));
  }

  /** Ids stay unique under permutation. */
  lemma UniqueInAnyOrder(s: seq<Participant>, t: seq<Participant>)
    requires UniqueIds(s) && multiset(s) == multiset(t)
    ensures UniqueIds(t)
  {
    forall i, j | 0 <= i < j < |t| ensures t[i].id != t[j].id {
      assert t[i] in multiset(s) && t[j] in multiset(s);
      if t[i] == t[j] {
        TwiceInMultiset(t, i, j);
        var k :| 0 <= k < |s| && s[k] == t[i];
        OnceInMultiset(s, k);
      }
    }
  }
}
