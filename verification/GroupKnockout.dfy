// Group stage followed by a knockout of qualifiers
// (backend/internal/fixtures/groupknockout.go, lines 5-122).

module GroupKnockout {
  import opened FixtureModels
  import opened Counting
  import opened Balance
  import opened Circle
  import opened RoundRobin
  import opened SeedSlots
  import B = Bracket
  import opened BracketTree
  import opened Knockout
  import opened Groups
  import opened QualifierDraw

  datatype Warning =
    | ByesApplied(field: nat, byes: int)
    | OddGroupCount

  // ---- one group's stage ----

  /** The id of member x; games only name members. */
  function NameAt(ids: seq<string>, x: int): string {
    if 0 <= x < |ids| then ids[x] else ""
  }

  function StageMatch(ids: seq<string>, group: string, o: Oriented, index: int): PlannedMatch {
    NewMatch(index, o.round, group, Concrete(NameAt(ids, o.home)), Concrete(NameAt(ids, o.away)))
  }

  function StageMatches(ids: seq<string>, group: string, leg0: seq<Oriented>, base: int): seq<PlannedMatch> {
    seq(|leg0|, i requires 0 <= i < |leg0| => StageMatch(ids, group, leg0[i], base + i))
  }

  /** A balanced one-factorisation of one group. */
  datatype Leg = Leg(games: seq<Oriented>, pairs: seq<Pair>, orient: Orientation)

  ghost predicate IsGroupLeg(members: seq<Participant>, leg: Leg) {
    IsLeg(|members|, leg.games, leg.pairs, leg.orient) && Plays(|members|, leg.games)
  }

  /** Indices are local zeros here; the caller numbers the matches. */
  method BuildGroupStage(members: seq<Participant>, group: string) returns (out: seq<PlannedMatch>, ghost leg: Leg)
    ensures IsGroupLeg(members, leg)
    ensures |out| == |leg.games|
    ensures forall i | 0 <= i < |out| :: out[i] == StageMatch(Ids(members), group, leg.games[i], 0)
    ensures exists l :: IsGroupLeg(members, l) && |out| == |l.games|
                        && forall i | 0 <= i < |out| :: out[i] == StageMatch(Ids(members), group, l.games[i], 0)
  {
    var ids := Ids(members);
    var pairs := CirclePairs(|members|);
    var orient := OrientBalanced(|members|);
    ghost var games := OrientAll(orient, pairs);
    leg := Leg(games, pairs, orient);
    out := [];
    for k := 0 to |pairs|
      invariant |out| == k && forall i | 0 <= i < k :: out[i] == StageMatch(ids, group, games[i], 0)
    {
      var (h, a) := HomeAway(orient, pairs[k].a, pairs[k].b);
      assert games[k] == Oriented(h, a, pairs[k].round);
      out := out + [NewMatch(0, pairs[k].round, group, Concrete(ids[h]), Concrete(ids[a]))];
    }
  }

  /** Within a group every two members meet exactly once, at the side the balanced orientation chose. */
  lemma GroupPairsMeetOnce(members: seq<Participant>, group: string, leg: Leg, base: int, x: int, y: int)
    requires IsGroupLeg(members, leg) && Distinct(Ids(members))
    requires 0 <= x < |members| && 0 <= y < |members| && x != y
    ensures var (ids, stage) := (Ids(members), StageMatches(Ids(members), group, leg.games, base));
            && Count(stage, Game(ids[x], ids[y])) + Count(stage, Game(ids[y], ids[x])) == 1
            && Count(stage, Game(ids[x], ids[y])) == if HomeAway(leg.orient, x, y) == (x, y) then 1 else 0
  {
    StageCount(Ids(members), group, leg.games, base, x, y);
    StageCount(Ids(members), group, leg.games, base, y, x);
    LegMeetsOnce(|members|, leg.games, leg.pairs, leg.orient, x, y);
  }

  /** The other columns of a group match: its label, its position, and the round of its game. */
  lemma StageColumns(ids: seq<string>, group: string, games: seq<Oriented>, base: int, i: nat)
    requires i < |games|
    ensures var m := StageMatches(ids, group, games, base)[i];
            && m.groupLabel == group && m.index == base + i && m.roundNumber == games[i].round
            && m.nextMatchIndex == None && m.nextSlot == None
  {
  }

  lemma StageCount(ids: seq<string>, group: string, games: seq<Oriented>, base: int, x: int, y: int)
    requires Distinct(ids) && Plays(|ids|, games) && 0 <= x < |ids| && 0 <= y < |ids|
    ensures Count(StageMatches(ids, group, games, base), Game(ids[x], ids[y])) == Count(games, Arc(x, y))
  {
    CountSame(StageMatches(ids, group, games, base), games, Game(ids[x], ids[y]), Arc(x, y));
  }

  // ---- the whole group stage ----

  ghost predicate AreGroupLegs(groups: seq<seq<Participant>>, legs: seq<Leg>) {
    |legs| <= |groups| && forall k | 0 <= k < |legs| :: IsGroupLeg(groups[k], legs[k])
  }

  /** The stages of the first k groups, one after the other. */
  ghost function Stages(groups: seq<seq<Participant>>, legs: seq<Leg>, k: nat): seq<PlannedMatch>
    requires k <= |legs| <= |groups|
  {
    if k == 0 then []
    else
      var earlier := Stages(groups, legs, k - 1);
      earlier + StageMatches(Ids(groups[k - 1]), GroupLabel(k - 1), legs[k - 1].games, |earlier|)
  }

  ghost predicate RoundsUpTo(matches: seq<PlannedMatch>, limit: int) {
    forall i | 0 <= i < |matches| :: 1 <= matches[i].roundNumber <= limit
  }

  ghost predicate IsGroupPart(matches: seq<PlannedMatch>) {
    forall i | 0 <= i < |matches| :: IsGroupMatch(matches[i], i)
  }

  ghost predicate IsGroupMatch(m: PlannedMatch, i: int) {
    m.index == i && m.nextMatchIndex == None && m.nextSlot == None && m.groupLabel != ""
    && m.home.Concrete? && m.away.Concrete?
  }

  /** limit is the round of some match, or 0 if there is none. */
  ghost predicate IsReached(matches: seq<PlannedMatch>, limit: int) {
    if matches == [] then limit == 0 else exists i :: 0 <= i < |matches| && matches[i].roundNumber == limit
  }

  ghost predicate IsGroupStagePart(matches: seq<PlannedMatch>, limit: int) {
    limit >= 0 && RoundsUpTo(matches, limit) && IsGroupPart(matches)
  }

  lemma ReachedBy(matches: seq<PlannedMatch>, limit: int, m: PlannedMatch)
    requires IsReached(matches, limit) && m.roundNumber >= 1
    ensures IsReached(matches + [m], if m.roundNumber > limit then m.roundNumber else limit)
  {
    var all := matches + [m];
    assert all[|matches|] == m;
    if matches != [] {
      var i :| 0 <= i < |matches| && matches[i].roundNumber == limit;
      assert all[i].roundNumber == limit;
    }
  }

  lemma NextGroupMatch(matches: seq<PlannedMatch>, limit: int, m: PlannedMatch)
    requires IsGroupStagePart(matches, limit) && IsReached(matches, limit) && IsGroupMatch(m, |matches|) && m.roundNumber >= 1
    ensures var limit' := if m.roundNumber > limit then m.roundNumber else limit;
            IsGroupStagePart(matches + [m], limit') && IsReached(matches + [m], limit')
  {
    ReachedBy(matches, limit, m);
  }

  /** Numbers one group's matches, appends them and tracks the highest round. */
  method AppendStage(matches0: seq<PlannedMatch>, limit0: int, gm: seq<PlannedMatch>, ghost ids: seq<string>,
                     ghost group: string, ghost games: seq<Oriented>)
    returns (matches: seq<PlannedMatch>, limit: int)
    requires |gm| == |games| && group != ""
    requires forall i | 0 <= i < |gm| :: gm[i] == StageMatch(ids, group, games[i], 0) && games[i].round >= 1
    requires IsGroupStagePart(matches0, limit0) && IsReached(matches0, limit0)
    ensures matches == matches0 + StageMatches(ids, group, games, |matches0|)
    ensures IsGroupStagePart(matches, limit) && IsReached(matches, limit)
  {
    matches, limit := matches0, limit0;
    for i := 0 to |gm|
      invariant matches == matches0 + StageMatches(ids, group, games, |matches0|)[..i]
      invariant IsGroupStagePart(matches, limit) && IsReached(matches, limit)
    {
      var m := gm[i].(index := |matches|);
      assert m == StageMatch(ids, group, games[i], |matches|);
      NextGroupMatch(matches, limit, m);
      if m.roundNumber > limit {
        limit := m.roundNumber;
      }
      matches := matches + [m];
    }
  }

  method BuildGroups(groups: seq<seq<Participant>>)
    returns (matches: seq<PlannedMatch>, maxGroupRounds: int, ghost legs: seq<Leg>)
    ensures AreGroupLegs(groups, legs) && |legs| == |groups|
    ensures matches == Stages(groups, legs, |groups|)
    ensures IsGroupStagePart(matches, maxGroupRounds) && IsReached(matches, maxGroupRounds)
  {
    matches, maxGroupRounds, legs := [], 0, [];
    for g := 0 to |groups|
      invariant AreGroupLegs(groups, legs) && |legs| == g
      invariant matches == Stages(groups, legs, g)
      invariant IsGroupStagePart(matches, maxGroupRounds) && IsReached(matches, maxGroupRounds)
    {
      var gm;
      ghost var leg;
      gm, leg := BuildGroupStage(groups[g], GroupLabel(g));
      StagesGrow(groups, legs, leg, g);
      matches, maxGroupRounds := AppendStage(matches, maxGroupRounds, gm, Ids(groups[g]), GroupLabel(g), leg.games);
      legs := legs + [leg];
    }
  }

  lemma {:induction false} StagesGrow(groups: seq<seq<Participant>>, legs: seq<Leg>, leg: Leg, k: nat)
    requires k <= |legs| < |groups|
    ensures Stages(groups, legs + [leg], k) == Stages(groups, legs, k)
  {
    if k > 0 { StagesGrow(groups, legs, leg, k - 1); }
  }

  /** Match i of the stages is game b of group a. */
  ghost predicate At(groups: seq<seq<Participant>>, legs: seq<Leg>, k: nat, i: int, a: nat, b: nat)
    requires k <= |legs| <= |groups|
  {
    && a < k && b < |legs[a].games| && i == |Stages(groups, legs, a)| + b && 0 <= i < |Stages(groups, legs, k)|
    && Stages(groups, legs, k)[i] == StageMatch(Ids(groups[a]), GroupLabel(a), legs[a].games[b], i)
  }

  /** Later groups only append. */
  lemma {:induction false} StagesPrefix(groups: seq<seq<Participant>>, legs: seq<Leg>, j: nat, k: nat)
    requires j <= k <= |legs| <= |groups|
    ensures Stages(groups, legs, j) <= Stages(groups, legs, k)
  {
    if j < k {
      StagesPrefix(groups, legs, j, k - 1);
      assert Stages(groups, legs, k - 1) <= Stages(groups, legs, k);
    }
  }

  lemma StageEnds(before: seq<PlannedMatch>, ids: seq<string>, group: string, games: seq<Oriented>, i: nat, b: nat)
    requires b < |games| && i == |before| + b
    ensures i < |before + StageMatches(ids, group, games, |before|)|
    ensures (before + StageMatches(ids, group, games, |before|))[i] == StageMatch(ids, group, games[b], i)
  {
  }

  lemma Placed(groups: seq<seq<Participant>>, legs: seq<Leg>, k: nat, i: nat, a: nat, b: nat)
    requires a < k <= |legs| <= |groups| && b < |legs[a].games| && i == |Stages(groups, legs, a)| + b
    ensures At(groups, legs, k, i, a, b)
  {
    StageEnds(Stages(groups, legs, a), Ids(groups[a]), GroupLabel(a), legs[a].games, i, b);
    StagesPrefix(groups, legs, a + 1, k);
    assert Stages(groups, legs, k)[i] == Stages(groups, legs, a + 1)[i];
  }

  lemma {:induction false} PlaceOf(groups: seq<seq<Participant>>, legs: seq<Leg>, k: nat, i: nat) returns (a: nat, b: nat)
    requires k <= |legs| <= |groups| && i < |Stages(groups, legs, k)|
    ensures a < k && b < |legs[a].games| && i == |Stages(groups, legs, a)| + b
  {
    var earlier := Stages(groups, legs, k - 1);
    if i < |earlier| {
      a, b := PlaceOf(groups, legs, k - 1, i);
    } else {
      a, b := k - 1, i - |earlier|;
    }
  }

  lemma StageAt(groups: seq<seq<Participant>>, legs: seq<Leg>, k: nat, i: nat) returns (a: nat, b: nat)
    requires k <= |legs| <= |groups| && i < |Stages(groups, legs, k)|
    ensures At(groups, legs, k, i, a, b)
  {
    a, b := PlaceOf(groups, legs, k, i);
    Placed(groups, legs, k, i, a, b);
  }

  lemma StageOf(groups: seq<seq<Participant>>, legs: seq<Leg>, k: nat, a: nat, b: nat) returns (i: nat)
    requires a < k <= |legs| <= |groups| && b < |legs[a].games|
    ensures At(groups, legs, k, i, a, b)
  {
    i := |Stages(groups, legs, a)| + b;
    Placed(groups, legs, k, i, a, b);
  }

  // ---- the knockout phase ----

  function Shift(m: PlannedMatch, base: int): PlannedMatch {
    m.(index := m.index + base,
       nextMatchIndex := if m.nextMatchIndex.Some? then Some(m.nextMatchIndex.value + base) else None)
  }

  function ShiftAll(ms: seq<PlannedMatch>, base: int): seq<PlannedMatch> {
    seq(|ms|, i requires 0 <= i < |ms| => Shift(ms[i], base))
  }

  /** Only the index and the edge of a match are shifted. */
  ghost predicate IsShifted(a: PlannedMatch, b: PlannedMatch, base: int) {
    && b.index == a.index + base && b.roundNumber == a.roundNumber && b.matchNumber == a.matchNumber && b.groupLabel == a.groupLabel
    && b.home == a.home && b.away == a.away && b.nextSlot == a.nextSlot
    && (a.nextMatchIndex == None ==> b.nextMatchIndex == None)
    && (a.nextMatchIndex != None ==> b.nextMatchIndex == Some(a.nextMatchIndex.value + base))
  }

  method AppendShifted(stages: seq<PlannedMatch>, ko: seq<PlannedMatch>) returns (matches: seq<PlannedMatch>)
    ensures matches == stages + ShiftAll(ko, |stages|) && |matches| == |stages| + |ko| && matches[..|stages|] == stages
    ensures forall i | 0 <= i < |ko| :: IsShifted(ko[i], matches[|stages| + i], |stages|)
  {
    matches := stages;
    var base := |matches|;
    for i := 0 to |ko|
      invariant matches == stages + ShiftAll(ko, base)[..i]
    {
      matches := matches + [Shift(ko[i], base)];
    }
  }

  predicate ValidGroupConfig(n: nat, g: int, q: int) {
    2 <= g <= n && q >= 1 && q <= n / g && g * q >= 2
  }

  /** A group_knockout plan: the group stages, then the knockout of the qualifiers with shifted indices. */
  ghost predicate IsGroupKnockout(seeded: seq<Participant>, g: nat, q: nat, matches: seq<PlannedMatch>,
                                  groups: seq<seq<Participant>>, legs: seq<Leg>, maxRound: int,
                                  ko: seq<PlannedMatch>, m: nat, nodes: seq<B.Node>)
  {
    && g >= 2 && q >= 1
    && DealtUpTo(seeded, groups, g, |seeded|)
    && (forall k | 0 <= k < g :: |groups[k]| >= q)
    && AreGroupLegs(groups, legs) && |legs| == g
    && IsGroupStagePart(Stages(groups, legs, g), maxRound)
    && IsKnockout(Qualifiers(g, FieldOf(g, q)), m, maxRound, ko, nodes)
    && matches == Stages(groups, legs, g) + ShiftAll(ko, |Stages(groups, legs, g)|)
  }

  method BuildGroupKnockout(seeded: seq<Participant>, g: nat, q: nat)
    returns (matches: seq<PlannedMatch>, warnings: seq<Warning>, ghost groups: seq<seq<Participant>>,
             ghost legs: seq<Leg>, ghost maxRound: int, ghost ko: seq<PlannedMatch>, ghost m: nat, ghost nodes: seq<B.Node>)
    requires ValidGroupConfig(|seeded|, g, q)
    ensures IsGroupKnockout(seeded, g, q, matches, groups, legs, maxRound, ko, m, nodes)
    ensures |legs| == |groups| == g && IsReached(Stages(groups, legs, g), maxRound)
    ensures WarnsOf(warnings, FieldOf(g, q), Pow2(m), g)
    ensures Progression(matches)
  {
    var dealt := DistributeSnake(seeded, g);
    var limit;
    matches, limit, legs := BuildGroups(dealt);
    groups, maxRound := dealt, limit;
    var qualifiers := ListQualifiers(g, q);
    var koMatches, byes, size;
    FieldSize(g, q);
    koMatches, byes, size, m, nodes := BuildField(qualifiers, limit);
    ko := koMatches;
    matches := AppendShifted(matches, koMatches);
    warnings := Warnings(|qualifiers|, size, g);
    GroupPlanIsWellFormed(seeded, g, q, matches, groups, legs, maxRound, ko, m, nodes);
  }

  /** One warning for a field that is not a power of two, one for an odd group count, and no other. */
  ghost predicate WarnsOf(warnings: seq<Warning>, field: nat, size: int, g: int) {
    && (ByesApplied(field, size - field) in warnings <==> size != field)
    && (OddGroupCount in warnings <==> g % 2 == 1)
    && |warnings| == (if size != field then 1 else 0) + (if g % 2 == 1 then 1 else 0)
  }

  method Warnings(field: nat, size: int, g: int) returns (warnings: seq<Warning>)
    ensures WarnsOf(warnings, field, size, g)
  {
    warnings := [];
    if size != field {
      warnings := warnings + [ByesApplied(field, size - field)];
    }
    if g % 2 == 1 {
      warnings := warnings + [OddGroupCount];
    }
  }

  lemma FieldSize(g: nat, q: nat)
    requires g >= 2 && q >= 1
    ensures FieldOf(g, q) >= 2 && NoTBD(Qualifiers(g, FieldOf(g, q)))
  {
  }

  // ---- what the plan promises ----

  /** Progression integrity survives the embedding, and the edges stay inside the knockout part. */
  lemma EmbeddedProgression(stages: seq<PlannedMatch>, ko: seq<PlannedMatch>)
    requires IsGroupPart(stages) && Progression(ko)
    ensures Progression(stages + ShiftAll(ko, |stages|))
    ensures forall i, t, s | Feeds(stages + ShiftAll(ko, |stages|), i, t, s) :: |stages| <= i < t
  {
    var all, base := stages + ShiftAll(ko, |stages|), |stages|;
    NoEdgesInStages(stages, ShiftAll(ko, base));
    forall i, t, s | Feeds(all, i, t, s) ensures base <= i < t && Feeds(ko, i - base, t - base, s) {
      FeedsInside(stages, ko, i, t, s);
    }
    forall i | 0 <= i < |all| ensures all[i].index == i && GoesForward(all, i) {
      if i >= base { ShiftedEdge(stages, ko, i - base); }
    }
    forall t, s | 0 <= t < |all| && (s == 1 || s == 2) ensures SlotOf(all[t], s) == TBD ==> HasFeeder(all, t, s) {
      if SlotOf(all[t], s) == TBD {
        assert t >= base;
        assert SlotOf(ko[t - base], s) == TBD && HasFeeder(ko, t - base, s);
        var i :| Feeds(ko, i, t - base, s);
        assert Feeds(all, i + base, t, s);
      }
    }
  }

  lemma FeedsInside(stages: seq<PlannedMatch>, ko: seq<PlannedMatch>, i: int, t: int, s: int)
    requires IsGroupPart(stages) && Progression(ko) && Feeds(stages + ShiftAll(ko, |stages|), i, t, s)
    ensures |stages| <= i < t && Feeds(ko, i - |stages|, t - |stages|, s)
  {
  }

  lemma NoEdgesInStages(stages: seq<PlannedMatch>, rest: seq<PlannedMatch>)
    requires IsGroupPart(stages)
    ensures forall t | 0 <= t < |stages| :: IsGroupMatch((stages + rest)[t], t)
  {
  }

  lemma ShiftedEdge(stages: seq<PlannedMatch>, ko: seq<PlannedMatch>, i: nat)
    requires IsGroupPart(stages) && Progression(ko) && i < |ko|
    ensures GoesForward(stages + ShiftAll(ko, |stages|), |stages| + i)
  {
    var all, base := stages + ShiftAll(ko, |stages|), |stages|;
    assert GoesForward(ko, i) && all[base + i] == Shift(ko[i], base);
    if ko[i].nextMatchIndex.Some? {
      var t, s :| Feeds(ko, i, t, s) && i < t && SlotOf(ko[t], s) == TBD && ko[i].roundNumber < ko[t].roundNumber;
      assert Feeds(all, base + i, base + t, s) && all[base + t] == Shift(ko[t], base);
    }
  }

  /** The whole plan is well formed, its edges stay in the knockout part, and the knockout is played after the groups. */
  lemma GroupPlanIsWellFormed(seeded: seq<Participant>, g: nat, q: nat, matches: seq<PlannedMatch>,
                              groups: seq<seq<Participant>>, legs: seq<Leg>, maxRound: int,
                              ko: seq<PlannedMatch>, m: nat, nodes: seq<B.Node>)
    requires IsGroupKnockout(seeded, g, q, matches, groups, legs, maxRound, ko, m, nodes)
    ensures Progression(matches)
    ensures forall i, t, s | Feeds(matches, i, t, s) :: |matches| - |ko| <= i < t
    ensures forall i, j | 0 <= i < |matches| - |ko| <= j < |matches| :: matches[i].roundNumber < matches[j].roundNumber
  {
    var stages := Stages(groups, legs, g);
    EmbeddedProgression(stages, ko);
    forall i, j | 0 <= i < |stages| <= j < |matches| ensures matches[i].roundNumber < matches[j].roundNumber {
      assert matches[i] == stages[i];
      KnockoutRound(Qualifiers(g, FieldOf(g, q)), m, maxRound, ko, nodes, j - |stages|);
    }
  }

  lemma ShiftedAt(stages: seq<PlannedMatch>, ko: seq<PlannedMatch>, matches: seq<PlannedMatch>, i: int)
    requires matches == stages + ShiftAll(ko, |stages|) && |matches| - |ko| <= i < |matches|
    ensures |matches| - |ko| == |stages| && matches[i] == Shift(ko[i - |stages|], |stages|)
  {
  }

  /** With an even group count no round-one knockout match of the plan repeats a group game. */
  lemma NoRematchWithEvenGroups(seeded: seq<Participant>, g: nat, q: nat, matches: seq<PlannedMatch>,
                                groups: seq<seq<Participant>>, legs: seq<Leg>, maxRound: int,
                                ko: seq<PlannedMatch>, m: nat, nodes: seq<B.Node>, i: int)
    requires IsGroupKnockout(seeded, g, q, matches, groups, legs, maxRound, ko, m, nodes)
    requires g % 2 == 0 && |matches| - |ko| <= i < |matches| && matches[i].roundNumber == maxRound + 1
    ensures matches[i].home.Qualifier? && matches[i].away.Qualifier? && matches[i].home.group != matches[i].away.group
  {
    NoRematchEmbedded(Stages(groups, legs, g), g, FieldOf(g, q), matches, maxRound, ko, m, nodes, i);
  }

  lemma NoRematchEmbedded(stages: seq<PlannedMatch>, g: nat, n: nat, matches: seq<PlannedMatch>, offset: int,
                          ko: seq<PlannedMatch>, m: nat, nodes: seq<B.Node>, i: int)
    requires matches == stages + ShiftAll(ko, |stages|) && g >= 2 && g % 2 == 0
    requires IsKnockout(Qualifiers(g, n), m, offset, ko, nodes)
    requires |matches| - |ko| <= i < |matches| && matches[i].roundNumber == offset + 1
    ensures matches[i].home.Qualifier? && matches[i].away.Qualifier? && matches[i].home.group != matches[i].away.group
  {
    ShiftedAt(stages, ko, matches, i);
    NoRematchInKnockout(g, n, m, offset, ko, nodes, i - |stages|);
  }

  lemma NoRematchInKnockout(g: nat, n: nat, m: nat, offset: int, ko: seq<PlannedMatch>, nodes: seq<B.Node>, i: nat)
    requires g >= 2 && g % 2 == 0 && IsKnockout(Qualifiers(g, n), m, offset, ko, nodes)
    requires i < |ko| && ko[i].roundNumber == offset + 1
    ensures ko[i].home.Qualifier? && ko[i].away.Qualifier? && ko[i].home.group != ko[i].away.group
  {
    var a := RoundOneQualifiers(g, n, m, offset, ko, nodes, i);
    PairedFromDifferentGroups(g, m, a, ko[i]);
  }

  lemma PairedFromDifferentGroups(g: nat, m: nat, a: int, tie: PlannedMatch)
    requires g >= 2 && g % 2 == 0 && m >= 1 && 1 <= a < Pow2(m) + 1 - a
    requires tie.home == QualifierAt(g, a - 1) && tie.away == QualifierAt(g, Pow2(m) - a)
    ensures tie.home.Qualifier? && tie.away.Qualifier? && tie.home.group != tie.away.group
  {
    DrawnFromDifferentGroups(g, m, a, Pow2(m) + 1 - a);
  }

  lemma RoundOneQualifiers(g: nat, n: nat, m: nat, offset: int, ko: seq<PlannedMatch>, nodes: seq<B.Node>, i: nat) returns (a: int)
    requires g > 0 && IsKnockout(Qualifiers(g, n), m, offset, ko, nodes)
    requires i < |ko| && ko[i].roundNumber == offset + 1
    ensures 1 <= a < Pow2(m) + 1 - a && m >= 1
    ensures ko[i].home == QualifierAt(g, a - 1) && ko[i].away == QualifierAt(g, Pow2(m) - a)
  {
    a := RoundOneSeeds(Qualifiers(g, n), m, offset, ko, nodes, i);
  }
}
