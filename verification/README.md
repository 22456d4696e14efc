# Verification of the PlayArena tournament backend

This project models the parts of the PlayArena backend whose correctness does not show in one function
body, and proves what they promise. `dafny verify dfyconfig.toml` checks the whole project (Dafny 4.11).

**The fixture engine** (`backend/internal/fixtures`). Hierholzer's traversal and the home/away
orientation it gives (`Balance.dfy`), the circle method as a one-factorisation (`Circle.dfy`), leagues
(`RoundRobin.dfy`), the seed-slot order (`SeedSlots.dfy`), the bottom-up bracket with its in-place wiring
(`Bracket.dfy`, `BracketTree.dfy`, `Knockout.dfy`), the serpentine deal and the qualifier order
(`Groups.dfy`, `QualifierDraw.dfy`, `GroupKnockout.dfy`) and where a built plan puts the qualifiers of one
group (`PlanDraw.dfy`), seed orders (`Seeding.dfy`), the entry point (`Generator.dfy`) and match numbering
(`RoundOrder.dfy`).

**Stored brackets and their play** (`backend/internal/fixturegen`, `backend/internal/matches`).
Inserting a plan (`PlanInsertion.dfy`, `FixtureRepository.dfy`), the match rows with the update,
walkover and cancel transactions (`MatchStore.dfy`), whole runs in which every service call reads some
earlier state and then commits by compare-and-swap (`Lifecycle.dfy`), a stored knockout under all such
runs and where its play ends (`BracketBoard.dfy`, `BracketRun.dfy`, `BracketLimits.dfy`), the resolution of group qualifiers, which turns the
knockout phase of a group tournament into a bracket of the same kind (`Qualification.dfy`,
`FinishedGroups.dfy`, `RenamedBracket.dfy`, `ResolvedKnockout.dfy`), and whole runs of a group tournament
(`GroupRun.dfy`, `HandMadeLink.dfy`).

**Three smaller protocols.** The append-only event log (`EventLog.dfy`), refresh-token rotation
(`TokenFamily.dfy`), and notification fan-out and email leases (`Outbox.dfy`, `EmailLease.dfy`).

The main chain of results: `Generator.Generate` returns a plan that is what its format promises, and
`FixtureRepository.Generate` stores it all or nothing, with the plan's graph and its cards carried onto the
rows. A stored knockout is an opening (`FixtureRepository.StoredKnockoutOpens`), and every orderly run from
there is in play (`BracketRun.OpeningPlays`). A stored group plan starts a group stage
(`GroupRun.StoredGroupsOpen`), which every orderly run keeps (`GroupRun.GroupStageStays`); resolution
succeeds in it exactly when all group matches are over and enough members have played
(`ResolvedKnockout.ResolvesIff`), and then the bracket over the named qualifiers is in play, whatever calls
of before are still to commit, exactly when no knockout match that awaited a qualifier had been cancelled
(`GroupRun.GroupTournamentPlays`). In play, every state keeps each slot equal to its feeder's winner, protects
seeds, and once all matches are decided has one champion while everybody else has lost exactly once. As long
as no match was cancelled, abandoned or drawn, and only then, play in an ongoing tournament can be completed
(`BracketLimits.CompletableIff`), and exactly the entrants who have not lost can become champion
(`BracketLimits.WinnableIff`).

## How the source is modelled

- Imperative code is imperative here: the builders are methods with loops, `rotateCircle` and the shuffle
  work on arrays, the tables are classes whose methods change fields. Each such method is tied to a
  function or relation about which the theorems are proved.
- A database transaction is one atomic step. A service call is two: the read observes any earlier state
  of the run, the transaction works on the current one. Creating a match, generating fixtures and resolving
  qualifiers are steps of the same runs.
- The columns of a match row are in two maps: those that play changes (`Row`) and those that are written on
  insertion only (`Card`).
- Go's `int` is a mathematical integer. `nextPow2` needs the field to stay below 2^62 and the stored
  round and match numbers are truncated to 16 bits by the source; both bounds are assumed to hold.
- `sort.SliceStable` is its mathematical result (a stable insertion sort), and the pseudo-random draws of
  the random strategy are an input sequence with draw i at most i.
- UUIDs assigned by the database are fresh numbers; clocks are parameters.
- The scoring engine and the standings engine are arbitrary functions of what they are handed; standings rank exactly
  the members they are given.
- A transaction is proved equal to a function of the table, and that function is described a second time on the columns
  alone: when it succeeds, what it writes, what it leaves, and what its error says.

## Where the code and its comments differ

The code is followed; each point is settled by an exact condition and an input that fails.

- A group's own qualifiers do not always go to opposite halves (`groupknockout.go` lines 17-18): in a plan they
  do exactly when one qualifies, or two do and the group count is 2 modulo 4 (`PlanDraw.PlanSplitsGroupsIff`,
  `PlanDraw.SameHalfInPlan`).
- An odd group count can cause more than the announced one rematch (`groupknockout.go` lines 77-79):
  `PlanDraw.PlanWithOneRematchIff`, `PlanDraw.TwoRematchesInPlan`.
- Matches are not always emitted in round order (`generator.go` lines 70-72): a group plan is exactly when it
  has at most two participants per group on average (`RoundOrder.GroupPlanInOrderIff`,
  `RoundOrder.OutOfOrderExample`).
- A plain PATCH is guarded by status only, so one that read a scheduled match can undo a propagated winner
  (`matches.sql.go` lines 730-732, `BracketLimits.StalePatchErasesWinner`): a PATCH keeps the
  bracket exactly when the sides it writes are the sides the match has (`BracketRun.PatchKeepsIff`), which is what
  the condition `Orderly` on runs asks.
- A completing PATCH may replace a participant, and then the stored score is not that of the stored sides
  (`Lifecycle.LiveEditExample`): under every scoring engine it is, exactly when the PATCH stores the locked
  sides (`Lifecycle.CompletionFitsIff`). `Lifecycle.CompletedScore` holds without any condition.
- A group stage that passes the check for completeness may leave too few members to rank: one-member groups
  play no match, and cancelled matches count as finished but rank nobody
  (`ResolvedKnockout.ResolvesIff`, `ResolvedKnockout.CancelledGroupBlocks`).
- A successful resolution does not always leave a sound bracket (`fixturegen/repository.go` lines 229-231): it does
  exactly when no knockout match that awaited a qualifier had been cancelled
  (`ResolvedKnockout.ResolvedKnockoutSoundIff`, `ResolvedKnockout.CancelledPlaceholderBreaks`).
- The number that resolution reports is not always how many slots were filled (`dto.go` lines 87-89): it is exactly when
  no match it writes had a participant in a placeholder slot (`Qualification.ReportIsExactIff`), so always in a group
  stage without links into its knockout (`ResolvedKnockout.StageReportIsExact`). A PATCH of participants cannot make it
  differ (`Qualification.EditedMatchIsFull`); the winner of a hand-made match linked into a placeholder slot does
  (`HandMadeLink.LinkedSlotIsCounted`).
- The failure statement of the email worker has no guard: a permanent failure stays exactly as long as no
  earlier attempt reports its failure afterwards (`EmailLease.DeadLetterStaysIff`,
  `EmailLease.LateReportUndoesDeadLetter`).
- A worker that crashes in the last attempt leaves the notification neither sent, failed nor claimable:
  `EmailLease.StuckUntilSettled`, `EmailLease.CrashesLeaveRowStuck`.

## Model

| member | source | states |
|---|---|---|
| Balance.HomeAway | backend/internal/fixtures/balance.go:77-87 | the two sides are the two participants, the lower one at home exactly when the orientation says so, whichever is named first |
| Balance.AddEdge | backend/internal/fixtures/balance.go:22-27 | a fresh edge id is entered at both ends and no other adjacency changes |
| Balance.BuildGraph | backend/internal/fixtures/balance.go:15-37 | the complete graph on n vertices, with a dummy vertex exactly for even n, all edges unused |
| Balance.SkipUsed | backend/internal/fixtures/balance.go:45-47 | the scan stops at the first entry whose edge is unused, and skips only used ones |
| Balance.Advance | backend/internal/fixtures/balance.go:51-56 | taking an unused edge keeps the traversal invariant: parity of what is left, every edge used counted once in stack and path |
| Balance.Retreat | backend/internal/fixtures/balance.go:48-50 | popping an exhausted vertex keeps the invariant, and popping the last one finishes the walk |
| Balance.AllEdgesUsed | backend/internal/fixtures/balance.go:39-57 | a finished walk uses every edge: no component is left over |
| Balance.EulerPath | backend/internal/fixtures/balance.go:39-57 | the stack traversal terminates with a closed walk through every edge of the complete graph exactly once |
| Balance.LeavesAsOftenAsEnters | backend/internal/fixtures/balance.go:7-9 | a walk without repeated edges leaves each vertex as often as it enters it, up to its ends |
| Balance.CircuitBalances | backend/internal/fixtures/balance.go:7-12 | orienting along the circuit and dropping the dummy gives home minus away 0 for odd n and exactly plus or minus 1 for even n |
| Balance.OrientBalanced | backend/internal/fixtures/balance.go:13-75 | every pair gets one orientation, and every participant is balanced: 0 for odd n, plus or minus 1 for even n |
| Circle.RotateCircle | backend/internal/fixtures/roundrobin.go:89-99 | the in-place shift is the rotation that keeps position 0 |
| Circle.RotationSeatsNextRound | backend/internal/fixtures/roundrobin.go:76-85 | rotating the seating of round r gives the seating of round r + 1 |
| Circle.MeetInRound | backend/internal/fixtures/roundrobin.go:76-85 | any two sit opposite each other in the round their index sum names |
| Circle.MeetOnlyInRound | backend/internal/fixtures/roundrobin.go:76-85 | and in no other round, because the modulus is odd |
| Circle.PairRound | backend/internal/fixtures/roundrobin.go:77-83 | one round emits exactly its opposite positions without the bye |
| Circle.PairRounds | backend/internal/fixtures/roundrobin.go:57-87 | the rounds together emit exactly the opposite positions of every seating without the bye, in order |
| Circle.CirclePairs | backend/internal/fixtures/roundrobin.go:57-87 | a one-factorisation: every unordered pair once, every round a matching, rounds in order, nobody rests for even n and exactly one in each round for odd n; each pair in the round in which the rotation seats it |
| RoundRobin.AppendLeg | backend/internal/fixtures/roundrobin.go:35-50 | a leg is leg 0, mirrored when odd, in the rounds after the earlier legs |
| RoundRobin.BuildRoundRobin | backend/internal/fixtures/roundrobin.go:15-52 | the schedule of all legs over a balanced one-factorisation |
| RoundRobin.EveryPairMeets | backend/internal/fixtures/roundrobin.go:8-14 | every two participants meet exactly `legs` times, each at home in half of them up to rounding |
| RoundRobin.HomeAwayBalanced | backend/internal/fixtures/roundrobin.go:8-14 | home and away games differ by 0 for an even number of legs or an odd field and by exactly 1 otherwise |
| RoundRobin.RoundsAreOrdered | backend/internal/fixtures/roundrobin.go:34-51 | rounds run without going back from 1 to legs times the rounds of a leg, and nobody plays twice in a round or against himself |
| SeedSlots.NextPow2 | backend/internal/fixtures/knockout.go:160-166 | the least power of two that holds the field |
| SeedSlots.Log2 | backend/internal/fixtures/knockout.go:170-176 | the number of rounds, the least exponent that reaches the size |
| SeedSlots.SeedSlotOrder | backend/internal/fixtures/knockout.go:145-158 | the doubling loop computes the recursive seed order |
| SeedSlots.EveryLabelOccurs | backend/internal/fixtures/knockout.go:147-158 | every seed 1..2^m has a leaf |
| SeedSlots.LabelsDiffer | backend/internal/fixtures/knockout.go:147-158 | and only one: the order is a permutation with the given inverse |
| SeedSlots.BlockLeader | backend/internal/fixtures/knockout.go:145-158 | each aligned block of 2^j leaves holds exactly one label up to 2^(m-j), its first |
| SeedSlots.TopSeedsMeetLate | backend/internal/fixtures/knockout.go:145-146 | no two of the top 2^k seeds are below one node of the first m-k rounds |
| SeedSlots.LeadersAddUp | backend/internal/fixtures/knockout.go:150-154 | the favourites of a node of round j+1 add up to 2^(m-j)+1 |
| SeedSlots.FirstHalf | backend/internal/fixtures/knockout.go:147-158 | a label is in the first half exactly when its distance from 1 is 0 or 3 modulo 4 |
| Bracket.WireChild | backend/internal/fixtures/knockout.go:116-129 | a placed child fills the slot, a feeding child leaves it open and is pointed at it |
| Bracket.BuildRoundOne | backend/internal/fixtures/knockout.go:49-80 | round one emits exactly the pairs without a bye and hands every survivor up |
| Bracket.EmitNode | backend/internal/fixtures/knockout.go:87-101 | a later node wires its left child to home and its right child to away |
| Bracket.BuildLaterRound | backend/internal/fixtures/knockout.go:82-103 | one pass adds all nodes of its round, wired to the round below |
| Bracket.BuildBracket | backend/internal/fixtures/knockout.go:42-106 | all nodes in order, each described and wired as the tree says; entrants minus one matches; the bye report |
| BracketTree.BracketIsTree | backend/internal/fixtures/knockout.go:39-41 | edges go forward to TBD slots of the next round, every TBD slot is fed by exactly one match, and all but the last match feed one |
| BracketTree.EntrantsPlacedOnce | backend/internal/fixtures/knockout.go:39-41 | every entrant sits in exactly one slot |
| BracketTree.SlotsHoldEntrants | backend/internal/fixtures/knockout.go:39-41 | every filled slot holds an entrant, at the place his leaf leads to |
| Knockout.PlaceField | backend/internal/fixtures/knockout.go:16-27 | seeds are placed in seed-slot order, phantom labels as byes |
| Knockout.FieldIsBracket | backend/internal/fixtures/knockout.go:75-79 | two byes never meet |
| Knockout.BuildField | backend/internal/fixtures/groupknockout.go:49-60 | the bracket over any list of references is a knockout: one match fewer than references, one tree |
| Knockout.BuildKnockout | backend/internal/fixtures/knockout.go:11-29 | n - 1 matches in one tree, and a bye report of exactly the best 2^m - n seeds |
| Knockout.FieldByes | backend/internal/fixtures/knockout.go:65-74 | the bye report names each of the best 2^m - n seeds once and nobody else |
| Knockout.SeedEntersInRound | backend/internal/fixtures/knockout.go:49-80 | the match a seed is written to is in round two for exactly the best 2^m - n seeds, and in round one for all others |
| Knockout.ParticipantsPlacedOnce | backend/internal/fixtures/knockout.go:11-29 | every participant is written to exactly one slot |
| Knockout.SlotsHoldParticipants | backend/internal/fixtures/knockout.go:11-29 | every filled slot holds a participant |
| Knockout.RoundOneSeeds | backend/internal/fixtures/knockout.go:49-64 | a round-one match is played by two seeds that add up to 2^m + 1 |
| Groups.DistributeSnake | backend/internal/fixtures/groupknockout.go:85-98 | the serpentine partition of the seeds, with group sizes n/g or n/g + 1 |
| Groups.GroupSizes | backend/internal/fixtures/groupknockout.go:85-98 | sizes differ by at most one and are at least n/g |
| Groups.EqualStrength | backend/internal/fixtures/groupknockout.go:9-10 | when 2g divides n all groups have the same sum of seed positions |
| Groups.SnakeSeats | backend/internal/fixtures/groupknockout.go:85-98 | member c of a group is the seed at its turn of pass c, dealt forwards in even passes and backwards in odd ones |
| Groups.GroupLabelIs | backend/internal/fixtures/groupknockout.go:124-130 | the first 26 labels are A to Z, every later one is G and the number of the group in decimal |
| Groups.GroupLabelsDiffer | backend/internal/fixtures/groupknockout.go:124-130 | different groups have different labels |
| Groups.ListQualifiers | backend/internal/fixtures/groupknockout.go:41-47 | all winners in group order, then all runners-up, and so on |
| Groups.QualifierGroup | backend/internal/fixtures/groupknockout.go:41-47 | entry i is rank i/g + 1 of group i mod g; two entries share a group exactly when they are a multiple of g apart |
| Groups.QualifiersDiffer | backend/internal/fixtures/groupknockout.go:41-47 | no qualifier is listed twice |
| GroupKnockout.BuildGroupStage | backend/internal/fixtures/groupknockout.go:100-122 | the balanced one-factorisation of the group as matches with its label |
| GroupKnockout.GroupPairsMeetOnce | backend/internal/fixtures/groupknockout.go:11-11 | within a group every two members meet exactly once, at the side the balanced orientation chose |
| GroupKnockout.StageColumns | backend/internal/fixtures/groupknockout.go:110-121 | every match of the stage has the group's label, its position and the round of its game, and feeds no other |
| GroupKnockout.BuildGroups | backend/internal/fixtures/groupknockout.go:24-39 | all group stages one after the other, indexed by position, and the highest group round, which some match reaches |
| GroupKnockout.AppendShifted | backend/internal/fixtures/groupknockout.go:62-70 | the knockout is appended with all indices and edges shifted, and no other column changed |
| GroupKnockout.BuildGroupKnockout | backend/internal/fixtures/groupknockout.go:21-83 | group stages, then a knockout of the qualifiers after the last group round, and exactly the warnings that apply |
| GroupKnockout.EmbeddedProgression | backend/internal/fixtures/groupknockout.go:62-70 | shifting keeps progression integrity and keeps edges inside the knockout part |
| GroupKnockout.GroupPlanIsWellFormed | backend/internal/fixtures/groupknockout.go:21-83 | index equals position, edges stay in the knockout part, and every knockout round exceeds every group round |
| GroupKnockout.NoRematchWithEvenGroups | backend/internal/fixtures/groupknockout.go:15-17 | for an even group count no round-one knockout match of the plan pairs two qualifiers of one group |
| PlanDraw.KnockoutIsDrawn | backend/internal/fixtures/knockout.go:49-106 | round one of a bracket is played by exactly the pairs of seeds that add up to 2^m + 1, and following the edges each seed's slot leads to the final's slot of his half |
| PlanDraw.PlanWithoutRematchIff | backend/internal/fixtures/groupknockout.go:13-17 | round one of the plan's knockout repeats no group game exactly when the group count is even, or too large for what the field leaves to round one |
| PlanDraw.PlanWithOneRematchIff | backend/internal/fixtures/groupknockout.go:77-80 | the plan has at most the one announced rematch exactly when the group count is even, or three times it is too large |
| PlanDraw.TwoRematchesInPlan | backend/internal/fixtures/groupknockout.go:77-80 | every plan of three groups with five qualifiers each has two rematches |
| PlanDraw.PlanSplitsGroupsIff | backend/internal/fixtures/groupknockout.go:17-18 | a group's qualifiers sit in opposite halves of the plan's bracket exactly for one qualifier, or two with a group count of 2 modulo 4 |
| PlanDraw.SameHalfInPlan | backend/internal/fixtures/groupknockout.go:17-18 | in every plan of four groups with two qualifiers each, winner and runner-up of group A share a half |
| Seeding.ComparatorsAreStrict | backend/internal/fixtures/seeding.go:26-39 | both comparators are strict total orders on participants with different ids |
| Seeding.SortSorts | backend/internal/fixtures/seeding.go:58-67 | the sort orders the field |
| Seeding.SortIgnoresInputOrder | backend/internal/fixtures/seeding.go:12-14 | the sorted order does not depend on the input order |
| Seeding.ShuffleInPlace | backend/internal/fixtures/seeding.go:45-49 | the swapping loop is the recursive shuffle of its draws |
| Seeding.ShuffleInjective | backend/internal/fixtures/seeding.go:45-49 | different draws give different orders |
| Seeding.ShuffleSurjective | backend/internal/fixtures/seeding.go:45-49 | every order is reached by some draws |
| Seeding.ResolveSeedOrder | backend/internal/fixtures/seeding.go:15-56 | each strategy resolves to its order, the manual one by seed number and registration and the other by registration, for unique ids; any other name, and no other, is an error |
| Seeding.StringLessIff | backend/internal/fixtures/seeding.go:66-66 | one id comes before another exactly when at the first place where they differ its character is smaller, or it ends there |
| Seeding.RegistrationOrder | backend/internal/fixtures/seeding.go:23-24 | of two participants in registration order the first registered no later, and at the same time only with the smaller id |
| Seeding.ManualOrder | backend/internal/fixtures/seeding.go:26-43 | in manual order nobody without a seed number comes before somebody with one, seed numbers do not fall, and equal or missing ones are in registration order |
| Seeding.RandomShufflesRegistration | backend/internal/fixtures/seeding.go:41-49 | the random order is a shuffle of the registration order: the first draw names who comes last, and draws that name each position itself change nothing |
| Seeding.OrderPermutes | backend/internal/fixtures/seeding.go:15-56 | the resolved order is a permutation of the input |
| Seeding.OrderIgnoresInputOrder | backend/internal/fixtures/seeding.go:8-14 | with unique ids every strategy depends on the set of participants only |
| Seeding.RandomReachesEveryOrder | backend/internal/fixtures/seeding.go:41-49 | the random strategy reaches every order, each by exactly one sequence of draws |
| Generator.AssertUniqueIds | backend/internal/fixtures/generator.go:59-68 | accepts exactly the fields without a repeated id |
| Generator.ValidateGroupConfig | backend/internal/fixtures/generator.go:79-96 | accepts exactly the configurations every group can serve |
| Generator.FailureIs | backend/internal/fixtures/generator.go:6-96 | the error of generation, check by check in order, on the sizes and names given: groups from two to the field, and groups times qualifiers within the field |
| Generator.AssignMatchNumbers | backend/internal/fixtures/generator.go:73-77 | match i gets number i + 1 and nothing else changes |
| Generator.NumberingKeepsProgression | backend/internal/fixtures/generator.go:70-77 | numbering changes no edge and no slot |
| Generator.BuildMatches | backend/internal/fixtures/generator.go:24-53 | each format builds what it promises, with progression integrity and exactly its warnings |
| Generator.Generate | backend/internal/fixtures/generator.go:3-57 | fails with the first failing check, otherwise returns a plan with all promises of its format |
| Generator.LeaguePlanMeets | backend/internal/fixtures/generator.go:24-38 | in a league plan every two participants meet as often as asked, by default once in a round robin and twice in a league |
| Generator.ByesGoToBestSeeds | backend/internal/fixtures/knockout.go:11-12 | in a manually seeded knockout plan whoever has a bye stands before everybody who has none, by seed number and then registration |
| RoundOrder.LeagueInOrder | backend/internal/fixtures/generator.go:70-72 | a league plan is numbered in round order |
| RoundOrder.KnockoutInOrder | backend/internal/fixtures/generator.go:70-72 | so is a knockout plan |
| RoundOrder.GroupPlanInOrderIff | backend/internal/fixtures/generator.go:70-72 | a group plan is exactly when the field is at most twice the group count |
| RoundOrder.OutOfOrderExample | backend/internal/fixtures/generator.go:70-72 | six participants in two groups: it is not |
| PlanInsertion.InsertionOrder | backend/internal/fixturegen/repository.go:188-194 | the stable descending-round arrangement of all indices |
| PlanInsertion.SuccessorFirst | backend/internal/fixturegen/repository.go:184-186 | when a match is inserted its successor already has been |
| PlanInsertion.FixtureTable.InsertGeneratedMatch | backend/db/sqlc/fixturegen.sql.go:59-78 | the insert adds one row, or violates the self-referential foreign key and changes nothing |
| PlanInsertion.FixtureTable.InsertPlan | backend/internal/fixturegen/repository.go:184-220 | no insert fails, every successor lookup hits, the stored links are the plan's edges carried over by distinct fresh ids, every card is its match's, and old entries stay |
| PlanInsertion.StoredIsAdded | backend/internal/fixturegen/repository.go:184-220 | so the stored table is determined by the old table, the plan and the ids assigned |
| PlanInsertion.StoredColumns | backend/internal/fixturegen/repository.go:196-217 | column by column, what is stored of a planned match: its participant or placeholder on each side, its edge as a link, its round, number and group; scheduled, 0-0, no winner |
| FixtureRepository.Generate | backend/internal/fixturegen/repository.go:107-182 | refuses with the first failing check and changes nothing, or stores rows and cards of one whole plan, after which a second generation is refused |
| FixtureRepository.RefusalIs | backend/internal/fixturegen/repository.go:112-160 | the error of the transaction, check by check in order, on the tournament, its rows and the counts |
| FixtureRepository.GenerationIsStep | backend/internal/fixturegen/repository.go:107-182 | storing a plan is exactly the generation step of a run, under fresh ids |
| FixtureRepository.StoredKnockoutOpens | backend/internal/fixturegen/repository.go:150-157 | a generated and stored knockout is an opening for the theorems about runs |
| MatchStore.MatchRepository.PropagateWinner | backend/internal/matches/repository.go:590-668 | the winner is written to the one linked slot of a still scheduled successor of the same tournament, or the named error |
| MatchStore.MatchRepository.UpdateWithAudit | backend/internal/matches/repository.go:286-418 | commits the row, its computed score and the propagation together, or returns the first failing guard and changes nothing |
| MatchStore.MatchRepository.WalkoverWithAudit | backend/internal/matches/repository.go:496-588 | the same for a walkover: 0-0, flagged, winner propagated |
| MatchStore.MatchRepository.CancelWithAudit | backend/internal/matches/repository.go:428-482 | cancels exactly when the observed status still holds |
| MatchStore.PatchColumns | backend/internal/matches/service.go:298-447 | for each of the six participant and winner columns, the status and the link, a PATCH asks to write the value sent if it was sent and the value read otherwise |
| MatchStore.PatchPassesIff | backend/internal/matches/service.go:276-468 | a PATCH passes the checks of the service exactly under the listed conditions on the fields sent and the row read |
| MatchStore.PatchCommits | backend/internal/matches/service.go:298-485 | the row that a committed PATCH leaves, column by column, over the row it found in the status it read |
| MatchStore.UpdateCommitsIff | backend/internal/matches/repository.go:286-418 | an update commits exactly when the tournament, the observed status, the score and the successor allow it, writes its row, and moves the winner of a completion on |
| MatchStore.UpdateError | backend/internal/matches/repository.go:286-418 | the error of a refused update says what is wrong |
| MatchStore.FitsIffLeads | backend/internal/matches/repository.go:747-790 | a declared winner passes the check against the score exactly when he is the leading side, or nobody in a draw |
| MatchStore.PropagatesIff | backend/internal/matches/repository.go:610-668 | propagation succeeds exactly when nobody moves on or the winner can, and then writes one slot of one scheduled match and nothing else |
| MatchStore.PropagationError | backend/internal/matches/repository.go:610-668 | the error of a refused propagation says what is wrong |
| MatchStore.WalkoverPassesIff | backend/internal/matches/service.go:597-665 | a walkover passes exactly for a match not over, with a reason, between two seated sides, and names the team or player of the side asked for; else the error says what is wrong |
| MatchStore.WalkoverCommitsIff | backend/internal/matches/repository.go:496-588 | it commits exactly when tournament, observed status and successor allow it, and leaves the row 0-0, flagged, with that winner |
| MatchStore.CancelIff | backend/internal/matches/service.go:490-548 | a cancellation goes through exactly for a match read scheduled or live that still is, and sets its status only |
| MatchStore.LinkAcceptedIff | backend/internal/matches/service.go:744-824 | a link is accepted exactly when there is none, or it leads to slot 1 or 2 of another match of the tournament that no other active match feeds |
| Lifecycle.StepMoves | backend/internal/matches/service.go:20-46 | one step moves any row at most one step up the lifecycle, never touches a terminal row, and adds scheduled rows only |
| Lifecycle.CommittedCall | backend/internal/matches/service.go:256-692 | whatever state a call read: if it commits, its match still had the status read, and holds afterwards exactly what a PATCH sent over the read, what a walkover awards, or the cancelled status |
| Lifecycle.EventsOfCall | backend/internal/match_events/repository.go:137-319 | a call records its event exactly when the locked row allows it, and no other call touches the events |
| Lifecycle.StatusOnlyMovesUp | backend/internal/matches/service.go:20-46 | over whole runs, with matches created, fixtures generated and qualifiers resolved at any time, no match disappears, no status falls back, and terminal rows never change |
| Lifecycle.OneChangePerObservedStatus | backend/internal/matches/repository.go:282-284 | of two committed changes to one match the later observed a strictly later status, so one observed status is left at most once |
| Lifecycle.EveryChangeIsACall | backend/internal/matches/repository.go:282-284 | every change of a status between two states of a run is the committed change of one call on that match |
| Lifecycle.CompletionScores | backend/internal/matches/repository.go:322-367 | only a PATCH that read the match live completes it, with the score of the locked sides, a winner that fits, and the sides sent over those read |
| Lifecycle.CompletedScore | backend/internal/matches/repository.go:322-367 | in every later state the score is that of the effective log as it still stands, for the sides locked at completion |
| Lifecycle.CompletedRowIsConsistent | backend/internal/matches/repository.go:322-367 | if no PATCH of a live match sends participants, a completed row's score is that of its own sides and log, and its winner leads |
| Lifecycle.CompletionFitsIff | backend/internal/matches/repository.go:318-367 | under every scoring engine a completing PATCH stores the score of the sides it stores, exactly when these are the locked sides |
| Lifecycle.LiveEditExample | backend/internal/matches/service.go:356-395 | a completing PATCH that replaces a participant stores a score that is not the score of the stored sides |
| BracketBoard.DrawHasShape | backend/internal/fixtures/knockout.go:31-41 | the facts about a generated knockout that play relies on |
| BracketBoard.QuietMove | backend/internal/matches/repository.go:369-400 | a call that changes no side and no winner keeps the board |
| BracketBoard.FedSlotEmpty | backend/internal/matches/repository.go:633-636 | until a feeder is decided its slot is empty, so the successor is scheduled or cancelled |
| BracketBoard.WinnerAdvances | backend/internal/matches/repository.go:590-668 | a decisive result keeps the board: the winner moves to his parent match, everybody else stands where he stood |
| BracketBoard.FinalConcludes | backend/internal/matches/repository.go:611-619 | so does the final |
| BracketBoard.OpeningBoard | backend/internal/fixturegen/repository.go:487-504 | the freshly stored plan is a board |
| BracketBoard.OneChampion | backend/internal/matches/repository.go:590-608 | when all matches are decided one entrant has not lost and every other lost exactly once |
| BracketBoard.SomeMatchIsPlayable | backend/internal/matches/service.go:417-424 | unless a match was cancelled, abandoned or drawn, an undecided match with both sides known exists while any is undecided |
| BracketBoard.TopSeedsMeetLateInPlay | backend/internal/fixtures/knockout.go:145-146 | on every board two of the top 2^k seeds meet in one of the last k rounds only |
| BracketRun.ConcludeRow | backend/internal/matches/repository.go:590-668 | on rows: a decisive result reaches the successor, or is refused because the successor was cancelled |
| BracketRun.PatchCall | backend/internal/matches/service.go:256-485 | a PATCH without a link, whatever state it read and whatever participants it sends, keeps the rows sound if, column by column, what it sent over what it read is the sides the match has |
| BracketRun.PatchKeepsIff | backend/db/sqlc/matches.sql.go:707-734 | a committing PATCH without a link, with participants or not, keeps the bracket exactly when the sides it writes are the sides the match has |
| BracketRun.WalkoverCall | backend/internal/matches/service.go:574-692 | a walkover from any earlier read keeps the rows sound |
| BracketRun.CancelCall | backend/internal/matches/service.go:490-548 | so does a cancellation |
| BracketRun.ResolutionKeeps | backend/internal/fixturegen/repository.go:229-346 | qualifier resolution, of whatever tournament, changes nothing in a bracket in play |
| BracketRun.GenerationKeeps | backend/internal/fixturegen/repository.go:184-220 | nor does generating fixtures |
| BracketRun.OrderlyCall | backend/internal/matches/service.go:256-692 | every orderly call on any match of the table keeps the rows sound |
| BracketRun.OpeningPlays | backend/internal/fixturegen/repository.go:487-504 | a stored knockout is in play from the start |
| BracketRun.RunsStaySound | backend/internal/matches/repository.go:590-668 | once in play, in every orderly run every state agrees with the plan, and filled sides and winners stay |
| BracketRun.SlotsFollowFeeders | backend/internal/matches/service.go:417-424 | in every state no match is live or concluded with an empty side, concrete slots keep their participant, and a waiting slot holds exactly its feeder's winner |
| BracketRun.BlockedOnlyByCancellation | backend/internal/matches/repository.go:633-636 | a call is refused as downstream-locked exactly when it has a winner to write, passes every guard on its own match, and the successor was cancelled; the other bracket errors never occur |
| BracketRun.NeverBlocked | backend/internal/matches/repository.go:633-636 | so in a run without cancellations no call is |
| BracketRun.RunCrownsOneChampion | backend/internal/matches/repository.go:590-608 | after n - 1 decisive results one champion remains and every other entrant lost exactly once |
| BracketRun.RunsProtectSeeds | backend/internal/fixtures/knockout.go:145-146 | in no run do two of the top 2^k seeds meet before the last k rounds, whoever wins |
| BracketRun.PlayCanContinue | backend/internal/matches/service.go:574-692 | as long as no match is stuck, some undecided match has a walkover to either side that commits and decides it, and leaves no match stuck |
| BracketRun.EveryEntrantCanWin | backend/internal/matches/service.go:574-692 | from every state in play, with the tournament ongoing and no match stuck, play can be completed, and every entrant who has not lost can become champion |
| BracketRun.AnyoneCanWin | backend/internal/matches/service.go:574-692 | in particular any entrant of a stored knockout |
| BracketLimits.CompletableIff | backend/internal/matches/service.go:20-46 | in an ongoing tournament a bracket in play can be completed exactly when no match was cancelled, abandoned or drawn |
| BracketLimits.WinnableIff | backend/internal/matches/service.go:20-46 | and an entrant can become champion exactly when moreover he has not lost |
| BracketLimits.StuckForEver | backend/internal/matches/service.go:20-46 | no continuation of any kind, orderly or not, completes a bracket with such a match |
| BracketLimits.DrawStopsPlay | backend/internal/matches/repository.go:609-619 | the input: in any stored knockout the first match is started and completed as a draw; both calls commit, and the bracket can never be completed |
| BracketLimits.StalePatchErasesWinner | backend/db/sqlc/matches.sql.go:707-734 | the input: in any stored knockout of two matches or more, an empty PATCH of the first match's successor that read it before the walkover takes the winner out again, and the bracket is no longer sound |
| BracketLimits.FreeSlotIff | backend/internal/matches/service.go:744-794 | the check of links admits another feeder for a slot of a sound bracket exactly when the plan placed a participant there or the slot's feeder was cancelled |
| BracketLimits.ForeignResultKeepsIff | backend/internal/matches/service.go:754-824 | a result of a match outside the bracket that is linked into it keeps the bracket exactly when its winner already sits in the slot |
| Qualification.ComputeGroupStandings | backend/internal/fixturegen/repository.go:406-473 | each group with a played match gets the order the engine computes from exactly the results of its listed matches, in their order, with participants, scores, winner and walkover flag of the rows, and from exactly their participants |
| Qualification.ResolveQualifiers | backend/internal/fixturegen/repository.go:229-346 | refuses with the first failing check, or fills all open qualifier slots of scheduled matches from those orders, all or nothing |
| Qualification.RefusalIs | backend/internal/fixturegen/repository.go:242-283 | the error of the checks, one by one in order, on the tournament and the rows |
| Qualification.ListsInOrder | backend/db/sqlc/fixturegen.sql.go:150-230 | the matches that count and the matches that wait are listed completely, once each and in the order of the table listing |
| Qualification.ResolutionNames | backend/internal/fixturegen/repository.go:299-341 | past the checks it fails exactly when an empty side names a place that nobody took, and otherwise every empty side gets the participant at its place, in the column of its kind, while all else stays |
| Qualification.FillFails | backend/internal/fixturegen/repository.go:291-321 | the fill fails exactly when some open slot of a listed match cannot be named |
| Qualification.FillWrites | backend/internal/fixturegen/repository.go:299-341 | otherwise each listed match is filled on its own and other rows stay |
| Qualification.ResolveTwice | backend/internal/fixturegen/repository.go:229-231 | after a success the transaction, whatever ranking it computes, succeeds, writes nothing and reports zero |
| Qualification.ReportCountsSlots | backend/internal/fixturegen/repository.go:325-340 | the reported number is the slots filled plus the placeholder slots of written matches that held somebody before |
| Qualification.ReportIsExactIff | backend/internal/fixturegen/dto.go:87-89 | it is the number of slots filled exactly when no match that is written held somebody in a placeholder slot, and never less |
| Qualification.EditedMatchIsFull | backend/internal/matches/service.go:709-730 | a PATCH of participants that passes the checks fills both sides, so a resolution neither writes nor counts its match |
| FinishedGroups.MembersPlay | backend/internal/fixtures/groupknockout.go:27-39 | exactly the members of groups of two or more have group matches |
| FinishedGroups.GroupsDisjoint | backend/internal/fixtures/groupknockout.go:85-98 | nobody is in two groups |
| FinishedGroups.FinishedIff | backend/db/sqlc/fixturegen.sql.go:35-57 | the group stage counts as finished exactly when every group match is completed, walked over or cancelled |
| FinishedGroups.GroupIsRanked | backend/internal/fixturegen/repository.go:408-473 | the standings rank, in each group, exactly the members with a completed or walked-over match, each once |
| FinishedGroups.EnoughWithoutCancellation | backend/internal/fixturegen/repository.go:408-435 | without cancelled group matches enough members have played exactly when every group has at least two |
| RenamedBracket.RenamedKnockout | backend/internal/fixtures/knockout.go:31-41 | replacing placeholders by participants keeps the bracket |
| ResolvedKnockout.NamesDiffer | backend/internal/fixturegen/repository.go:475-485 | different qualifier references name different participants |
| ResolvedKnockout.ResolvesIff | backend/internal/fixturegen/repository.go:252-321 | in every state of a group stage the transaction succeeds exactly when all group matches are over and in every group at least q members have a completed or walked-over match, and otherwise names what is missing |
| ResolvedKnockout.ResolvesIffGroupsOfTwo | backend/internal/fixturegen/repository.go:291-321 | without cancelled group matches it succeeds exactly when every group has at least two members |
| ResolvedKnockout.CancelledGroupBlocks | backend/internal/fixturegen/repository.go:291-321 | the input: four participants in two groups, the match of one group cancelled; every check passes and no qualifier is named |
| ResolvedKnockout.ResolvedKnockoutSoundIff | backend/internal/fixturegen/repository.go:229-346 | a successful resolution leaves the knockout phase a sound, unplayed bracket over the named qualifiers exactly when no match that awaited a qualifier had been cancelled |
| ResolvedKnockout.CancelledPlaceholderBreaks | backend/internal/fixturegen/repository.go:291-341 | the input: the first knockout match cancelled before resolution, which then succeeds and leaves no sound bracket |
| ResolvedKnockout.ResolvedKnockoutOpens | backend/internal/fixturegen/repository.go:229-346 | it leaves exactly what storing the bracket over the named qualifiers would have written, exactly when no knockout match had been cancelled |
| ResolvedKnockout.StageReportIsExact | backend/internal/fixturegen/dto.go:87-89 | in every state of a group stage the reported number is the number of slots filled |
| GroupRun.StoredGroupsOpen | backend/internal/fixturegen/repository.go:107-182 | a generated and stored group plan is the start of a group stage |
| GroupRun.GroupStageStays | backend/internal/matches/service.go:256-692 | in every orderly run until resolution, group matches keep their participants, knockout matches wait without participants, and cards are as generated |
| GroupRun.ResolutionStartsKnockout | backend/internal/fixturegen/repository.go:229-346 | a successful resolution in a run opens the bracket over the named qualifiers, consistent with whatever was read before, exactly when no knockout match that awaited a qualifier had been cancelled |
| GroupRun.GroupTournamentPlays | backend/internal/fixturegen/repository.go:229-346 | so under exactly that condition the knockout phase of a group tournament is in play from then on |
| GroupRun.GroupTournamentCrowns | backend/internal/matches/repository.go:590-608 | once decided, the knockout of any group tournament has one champion, while every other qualifier lost exactly once |
| GroupRun.GroupTournamentCompletable | backend/internal/matches/service.go:20-46 | when the qualifiers are resolved, the knockout can still be completed exactly when none of its matches was cancelled before |
| HandMadeLink.NobodyFeedsFirst | backend/internal/matches/service.go:780-792 | in a group stage no match feeds the first knockout match, so its placeholder slots can be linked to |
| HandMadeLink.LinkedSlotIsCounted | backend/internal/fixturegen/repository.go:325-340 | the input: in every group stage due for resolution, a hand-made match of two participants passes all checks with a link to the home slot of the first knockout match, its walkover commits, and resolution then succeeds and reports exactly one slot more than it fills |
| EventLog.FindEvent | backend/db/sqlc/match_events.sql.go:313-335 | an event with the id, exactly when one exists |
| EventLog.EventTable.CreateWithAudit | backend/internal/match_events/repository.go:137-319 | appends one event numbered after the match's highest, or rejects with the first failing check and changes nothing |
| EventLog.RecordedIff | backend/internal/match_events/repository.go:137-319 | an event is appended, with the fields of the request, exactly for a live match, participants of that match, a first start or end, and a correction of a standing event of the match |
| EventLog.ParticipantsFitIff | backend/internal/match_events/repository.go:165-210 | the participant checks pass exactly for a team of the match and a player of the match or of one of its teams |
| EventLog.CorrectionFitsIff | backend/internal/match_events/repository.go:226-266 | a correction is admitted exactly when it names an event of the match that is no correction and still stands |
| EventLog.RefusalNamesCause | backend/internal/match_events/repository.go:137-266 | every error says something true of the request |
| EventLog.RecordKeepsInvariant | backend/internal/match_events/repository.go:212-294 | recording keeps numbering, correction targets and lifecycle uniqueness |
| EventLog.SequenceIsPosition | backend/internal/match_events/repository.go:268-275 | the i-th event of a match has number i + 1 |
| EventLog.LogIsSublist | backend/db/sqlc/match_events.sql.go:151-163 | the log of a match is exactly its events, once each and in the order of recording |
| EventLog.EffectiveIsUncancelled | backend/db/sqlc/match_events.sql.go:151-163 | the effective timeline is exactly the events that no correction of the log cancels, corrections among them, once each and in order |
| EventLog.EffectiveLength | backend/db/sqlc/match_events.sql.go:151-163 | so it is shorter than the log by the number of corrections |
| EventLog.ReachableLogs | backend/internal/match_events/repository.go:212-294 | in every reachable log: numbers 1..k, the effective timeline as the uncancelled events by rising number, one start and one end at most even after cancellation, and every correction cancels one earlier event that is no correction, no two the same |
| TokenFamily.Find | backend/db/sqlc/auth.sql.go:89-94 | the position of a token with this hash, exactly when there is one |
| TokenFamily.TokenRepository.CreateRefreshToken | backend/db/sqlc/auth.sql.go:15-20 | appends an active token unless the hash is taken |
| TokenFamily.TokenRepository.RevokeUserRefreshTokens | backend/db/sqlc/auth.sql.go:150-160 | revokes exactly the user's active tokens and links none |
| TokenFamily.TokenRepository.LogoutTransaction | backend/internal/auth/repository.go:165-206 | revokes an active token without a successor; idempotent |
| TokenFamily.TokenRepository.RotateRefreshToken | backend/internal/auth/repository.go:208-324 | success only for an active user, an unused new hash and a token neither revoked nor expired, which gives way to the new one; reuse only for an explicitly revoked token, whose user loses all sessions; any other answer changes nothing |
| TokenFamily.RotationIff | backend/internal/auth/repository.go:238-324 | a refresh issues a token exactly when the one presented is neither revoked nor expired, the user passes both checks and the new hash is unused; then that one gives way to the new one, and no other changes; an explicitly revoked one ends all sessions; else nothing changes |
| TokenFamily.RefreshAnswer | backend/internal/auth/repository.go:238-324 | which error is answered, exactly, by what is wrong with the token, the user and the hash |
| TokenFamily.NoRotationAfterExpiry | backend/internal/auth/repository.go:293-295 | in no run does a refresh after the expiry a token was issued with add a token |
| TokenFamily.ActiveTokenRefreshes | backend/internal/auth/repository.go:238-324 | in every run an active, unexpired token can be refreshed under any unused hash, into its own family |
| TokenFamily.UnknownHash | backend/internal/auth/repository.go:250-256 | an unknown hash is refused and changes nothing |
| TokenFamily.LoginAndLogout | backend/internal/auth/repository.go:139-206 | a login adds one active token exactly for an unused hash; a logout revokes the presented token and no other |
| TokenFamily.RevocationEndsSessions | backend/db/sqlc/auth.sql.go:150-160 | revoking the sessions of a user ends all of them and nobody else's |
| TokenFamily.TokenRepository.ResetPasswordTransaction | backend/internal/auth/repository.go:414-546 | spends the link and its siblings and revokes all sessions, or fails with the named error |
| TokenFamily.ResetIff | backend/internal/auth/repository.go:454-546 | a reset goes through exactly when its link exists, is unused and has not expired, ends all sessions and spends all links of its user and touches nobody else; else nothing changes and the error names the cause |
| TokenFamily.LinkIssued | backend/internal/auth/repository.go:397-412 | asking for a reset adds one unused link of the user, unless its hash is taken, and touches no session |
| TokenFamily.RunKeepsFamilies | backend/internal/auth/repository.go:212-232 | over all runs links are acyclic, stay within one user, and no token succeeds two |
| TokenFamily.ChainShape | backend/internal/auth/repository.go:212-232 | a family is one chain in which all but the last token were rotated |
| TokenFamily.OneActivePerLogin | backend/internal/auth/repository.go:238-324 | each login has at most one active token |
| TokenFamily.OneFamilyPerLogin | backend/internal/auth/repository.go:238-324 | there are exactly as many families as logins |
| TokenFamily.FamiliesPersist | backend/internal/auth/repository.go:301-312 | a token never changes its family |
| TokenFamily.NewTokensFamily | backend/internal/auth/repository.go:301-312 | a login starts a family, a rotation extends the presented token's |
| TokenFamily.KindNeverChanges | backend/internal/auth/repository.go:217-232 | no token is lost, and a revoked one keeps its kind and successor for ever |
| TokenFamily.ReplayOfRotated | backend/internal/auth/repository.go:222-227 | presenting a rotated token again, however late, changes nothing |
| TokenFamily.ReplayOfExplicit | backend/internal/auth/repository.go:229-232 | presenting an explicitly revoked token leaves its user without an active token |
| TokenFamily.OnlyLoginRevives | backend/internal/auth/repository.go:523-531 | after that only a new login gives the user an active token |
| TokenFamily.ResetSpendsAllLinks | backend/internal/auth/repository.go:506-531 | a successful reset ends all sessions and makes every outstanding link of the user fail for ever |
| Outbox.CacheAgrees | backend/internal/notifications/repository.go:286-320 | the batch cache answers as a direct per-user lookup would |
| Outbox.NotificationStore.LoadPreferences | backend/internal/notifications/repository.go:286-320 | the cache covers every claimed entry on both channels |
| Outbox.NotificationStore.CreateNotification | backend/db/sqlc/notifications.sql.go:108-123 | inserts unless the row of this entry, user and channel exists |
| Outbox.NotificationStore.FanOut | backend/internal/notifications/repository.go:325-375 | adds exactly the rows due and lists exactly the new in-app ones |
| Outbox.NotificationStore.DrainOutbox | backend/internal/notifications/repository.go:265-413 | exactly one row per claimed entry, member other than its actor and enabled channel, beyond those already there; deliveries likewise; claimed entries marked |
| Outbox.FanOutRows | backend/internal/notifications/repository.go:325-375 | exactly one row per claimed entry, member other than its actor and channel that no preference row switches off, with the columns of the entry, delivered at once in the app only |
| Outbox.ClaimIsFirstHundred | backend/db/sqlc/notifications.sql.go:249-257 | the claim is the first hundred unprocessed, unlocked entries of the organisation, in table order |
| Outbox.MarksClaimed | backend/db/sqlc/notifications.sql.go:627-631 | exactly the claimed entries become processed, and no other column changes |
| Outbox.RetryAddsNothing | backend/internal/notifications/repository.go:253-256 | draining the same entries again adds no row and reports none |
| Outbox.ClaimSize | backend/db/sqlc/notifications.sql.go:249-257 | a drain claims all pending entries, or a hundred |
| Outbox.DrainConserves | backend/internal/notifications/repository.go:265-413 | pending entries drop by exactly the number claimed: none is lost, none done twice |
| EmailLease.EmailQueue.ClaimBatch | backend/db/sqlc/notifications.sql.go:14-33 | claims at most ten rows that can be claimed, oldest first, each once, with attempt and lease recorded |
| EmailLease.BatchRows | backend/db/sqlc/notifications.sql.go:14-33 | on the columns: whom a batch may claim, rows never tried before retries and older before newer, and what the claim writes |
| EmailLease.EmailQueue.RecordSuccess | backend/db/sqlc/notifications.sql.go:664-669 | sets sent once and nothing else |
| EmailLease.EmailQueue.RecordFailure | backend/internal/notifworker/worker.go:194-222 | dead-letters the third attempt, otherwise sets the lease to the retry time, without any guard |
| EmailLease.ReportRows | backend/internal/notifworker/worker.go:194-240 | a failure gives the third attempt up and puts the first and second off by one and five minutes; a delivery sets sent |
| EmailLease.EmailQueue.Deliver | backend/internal/notifworker/worker.go:136-192 | success only after both lookups and the send, failure otherwise, nothing when recording fails |
| EmailLease.BatchIsTakes | backend/internal/notifworker/worker.go:118-134 | a batch is the same as claiming its rows one by one |
| EmailLease.AtMostThreeClaims | backend/internal/notifworker/worker.go:36-39 | whatever workers do, no notification is claimed more than three times |
| EmailLease.NoClaimAfterTheEnd | backend/db/sqlc/notifications.sql.go:22-25 | a sent or permanently failed notification is never claimed again |
| EmailLease.LeaseIsExclusive | backend/internal/notifworker/worker.go:18-20 | with timely workers no row is held by two, and a retry waits out the lease or the retry delay before it |
| EmailLease.DeadLetterStaysIff | backend/db/sqlc/notifications.sql.go:639-644 | a permanent failure stays exactly as long as no open claim of an earlier attempt of the row is reported failed, whatever the clocks |
| EmailLease.DeadLettersStay | backend/internal/notifworker/worker.go:14-16 | so with timely workers it stays |
| EmailLease.LateReportUndoesDeadLetter | backend/db/sqlc/notifications.sql.go:639-644 | the input: a late report undoes a dead letter and leaves the row neither sent, failed nor claimable |
| EmailLease.StuckUntilSettled | backend/db/sqlc/notifications.sql.go:14-33 | out of attempts a row is never claimed again, and stays unfinished exactly until an open claim is reported delivered or the last attempt failed |
| EmailLease.CrashesLeaveRowStuck | backend/internal/notifworker/worker.go:136-192 | the input: after three crashed attempts the row is neither sent, failed nor claimable |

## Left out

- Round names, venues, notes, timestamps, audit records and outbox writes of the match transactions: display or logging only.
- 16-bit truncation of stored round and match numbers, and overflow of `nextPow2`: the bounds are assumed.
- `scoring.Compute` and `standings.Compute`: arbitrary functions here, because their definitions are not part of this model.
- The tournament's participant type and the registrations that the participant checks read, and the verdict of `validateLinkage` on a PATCHed link: inputs of the call.
- Chains of hand-made links: `validateLinkage` checks a link against itself only (`backend/internal/matches/service.go` lines 767-769); that links go forward is proved of generated plans.
- Hand-made matches with links into a generated bracket: excluded from the bracket runs, because `validateLinkage` allows a foreign feeder for a concrete slot and for one whose feeder was cancelled (`BracketLimits.FreeSlotIff`); the result of such a match breaks the bracket unless its winner already sits in the slot (`BracketLimits.ForeignResultKeepsIff`).
- The participant and link checks of a match creation as guards of runs: the theorems about runs let a created row have any sides and any existing successor; the checks are `AdmitsCreation` in `MatchStore.dfy`.
- BracketRun.RunsStaySound: assumes orderly runs (no hand edits of links of bracket matches, no links into the bracket, and a PATCH of a bracket match commits only with the sides the match has), because the status guard alone does not protect the sides.
- GroupRun.GroupStageStays: assumes that PATCHes of the plan's matches keep their participants and links, no links into them, and no hand-made group matches in the tournament.
- EmailLease.LeaseIsExclusive: assumes that a worker which finishes does so within its lease, because the failure statement has no guard.
- Organisation scoping and permission checks: every modelled call is within one organisation.
- PATCHes that change the group label of a stored match: resolution is modelled on the labels that generation wrote.
- The background deletion of expired tokens, reset links and old outbox entries: tables only grow here.
- Lock ordering and deadlock freedom between transactions: each transaction is one step.
- The webhook worker: its claim, lease and failure statements have the same form as those of the email worker.
- The access token, hashing and email rendering: foreign calls.
- The database clock and the worker's clock are one clock in the lease model.
- The lifecycle and the registrations of a tournament: runs let the set of ongoing tournaments change at any time.
- HTTP handlers, listing queries, rankings, and the modules for organisations, members, teams, players, news and media: reads, and writes of single rows without an invariant across calls.
