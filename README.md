# DeSyDe-meta search core in Dafny

DeSyDe-meta looks for good mappings of dataflow applications onto a
multiprocessor platform. It uses metaheuristics: a genetic algorithm and a
particle swarm. A candidate solution (a *position*) holds these decisions:

- which processor each actor runs on, and in which mode each processor runs;
- in what order the actors and the sending and receiving channels are
  scheduled on each processor (a `Schedule` of ranks);
- how many TDMA slots each processor gets.

An *individual* repairs a position until it is consistent. It then turns the
schedules into successor arrays and hands them to a `Design`. The design
checks the decisions and builds the multi-schedule application graph (MSAG).
It then computes each application's period (its maximum cycle ratio) and the
platform's energy. The populations breed or move individuals and keep the
non-dominated ones in a Pareto archive.

The model has one module per source file or concept:

| module | file | what it models |
|---|---|---|
| `Wrappers` | wrappers.dfy | `Option` and `Result`; a thrown exception becomes a `Failure` |
| `MetaTools` | tools.dfy | `bring_to_bound`, `bring_v_to_bound`, `average`, the random helpers as nondeterministic choice, and the one `ceil` over exact reals that the platform, energy and position code share |
| `Schedules` | schedule.dfy | class `Schedule`: ranks, lookups, `get_next`, `repair_dist` |
| `Speeds` | speed.dfy | the `Speed` constructor of a particle |
| `Positions` | position.dfy | `Position`, dominance, the fitness predicates |
| `Domains` | position.dfy | class `Domain`: a set of admissible values and an index into it |
| `SuccessorArrays` | successors.dfy | the successor arrays `Individual::get_next` writes |
| `TdmaSlots` | tdma.dfy | the slot-reducing loop of `repair_tdma` |
| `Individuals` | individual.dfy | class `Individual`: its repair passes, `get_next`, fitness bookkeeping |
| `Chromosomes` | chromosome.dfy | crossover, mutation, `cross_mut` |
| `Archive` | archive.dfy | the Pareto front and the memory of `population_data.cpp` |
| `Populations` | population.dfy | population sizing, the search loop, the GA and swarm strategies |
| `Platforms` | platform.dfy | TDMA tables, processor modes and models, homogeneity |
| `Plots` | plot.dfy | the CSV and TeX text of the plots |
| `DesignData` | design_data.dfy | the problem a design reads, `appIndex`, `init_vectors` |
| `Msag` | msag.dfy | `constructMSAG()` as a specification of its edge list |
| `MsagBuild` | msag_build.dfy | the loops of `constructMSAG()`, proved equal to that specification |
| `CoMapping` | comapping.dfy | `getApp`, `checkApp_des`, and the grouping of co-mapped applications |
| `Periods` | periods.dfy | `calc_periods`, including `constructMSAG(msagMap)` |
| `Energy` | energy.dfy | `calc_energy` |
| `Designs` | design.dfy | class `Design`: `check_inputs`, the constructors, `get_periods`, `get_energy` |

Randomness is modelled as nondeterministic choice (`:|`), so every proof
covers every random outcome. Floats are exact reals. Out-of-range reads that
the callers always avoid become preconditions. Exceptions become `Failure`
results that carry the source's message where it matters.

## Model

| member | source | states |
|---|---|---|
| MetaTools.BringToBound | src/tools/meta_tools.hpp:47-55 | the result lies in [l, u]; a value already inside is kept; below gives l, above gives u |
| MetaTools.BringToBoundIdempotent | src/tools/meta_tools.hpp:47-55 | clamping twice equals clamping once |
| MetaTools.BringVToBound | src/tools/meta_tools.hpp:57-64 | same length, each element clamped, so every element lies in [l, u] |
| MetaTools.SumBounds | src/tools/meta_tools.hpp:66-75 | elements within [lo, hi] put the sum within [n*lo, n*hi] |
| MetaTools.Average | src/tools/meta_tools.hpp:66-75 | no average of an empty vector; otherwise average times length equals the sum |
| MetaTools.AverageBounds | src/tools/meta_tools.hpp:66-75 | the mean of values in [lo, hi] lies in [lo, hi] |
| MetaTools.RandomIndx | src/tools/meta_tools.cpp:8-16 | any integer in [0, max] may come, and only those |
| MetaTools.RandomInt | src/tools/meta_tools.cpp:20-28 | any integer in [min, max] may come, and only those |
| Speeds.RandomV | src/metaheuristic/position.hpp:133-144 | s values, each in [lo, hi) |
| Speeds.NewSpeed | src/metaheuristic/position.hpp:110-124 | each vector has the constructor's size and lies in its range; proc_modes is sized by the actors |
| TdmaSlots.SumIntUpdate | src/metaheuristic/individual.cpp:268-281 | changing one allocation changes the sum by the difference |
| TdmaSlots.PositivesAtMostSum | src/metaheuristic/individual.cpp:268-281 | each processor holding slots holds at least one, so holders <= total |
| TdmaSlots.SumOfSingles | src/metaheuristic/individual.cpp:268-281 | when nobody holds two slots, the total is the number of holders |
| TdmaSlots.ThinnedKeepsHolders | src/metaheuristic/individual.cpp:272-280 | taking slots only from processors holding more than one keeps the set of holders |
| TdmaSlots.ReduceSlots | src/metaheuristic/individual.cpp:268-282 | terminates iff the total already fits or there are no more holders than slots; then no holder loses its last slot, a fitting allocation is unchanged, and otherwise the total becomes exactly the slot count |
| Schedules.CountDuplicate | src/metaheuristic/position.cpp:361-362 | `count(rank, rank[i]) > 1` iff some other index holds the same rank |
| Schedules.DistinctCountAtMostOne | src/metaheuristic/position.cpp:357-367 | in a duplicate-free sequence every value is counted at most once |
| Schedules.CountsPartition | src/metaheuristic/position.cpp:369-379 | each entry is counted once, under its rank in 0..n-1 or as out of range |
| Schedules.CoverIsPermutation | src/metaheuristic/position.cpp:357-379 | a length-n sequence that uses every rank 0..n-1 is a permutation of them |
| Schedules.DistinctOrUnused | src/metaheuristic/position.cpp:357-379 | either no rank is duplicated, or some rank of 0..n-1 is unused |
| Schedules.DuplicateLeavesUnusedRank | src/metaheuristic/position.cpp:361-386 | a duplicated rank leaves an unused rank, so `random_unused_rank` always has a value to draw |
| Schedules.PermutationCoversRanks | src/metaheuristic/position.cpp:319-326 | a rank permutation holds every rank 0..n-1 |
| Schedules.SwapKeepsPermutation | src/metaheuristic/position.cpp:351-356 | exchanging two ranks keeps a permutation a permutation |
| Schedules.FirstIndexOf | src/metaheuristic/position.cpp:241-254 | None iff the value is absent; otherwise the index holds it and no earlier index does |
| Schedules.LastIndexOf | src/metaheuristic/position.cpp:290-296 | None iff the value is absent; otherwise the index holds it and no later index does |
| Schedules.ElementByRank | src/metaheuristic/position.cpp:313-328 | rank = size gives the dummy; otherwise success iff some element holds the rank, and the result is the element at the first index holding it |
| Schedules.NextOf | src/metaheuristic/position.cpp:288-305 | an element not in the schedule fails |
| Schedules.NextsAgreeAt | src/metaheuristic/position.cpp:306-312 | a vector built element by element holds each element's successor |
| Schedules.RankByElement | src/metaheuristic/position.cpp:227-240 | success iff the element occurs; the result is the rank at the first index holding the element |
| Schedules.NextFollowsRank | src/metaheuristic/position.cpp:288-328 | with distinct elements and a rank permutation every element has a successor: the element one rank higher, or the dummy after the highest rank |
| Schedules.DivisionUndone | src/metaheuristic/position.cpp:255-265 | the relative rank times the size gives back the rank |
| Schedules.Schedule.Size | src/metaheuristic/position.hpp:86-89 | the size is the number of ranks |
| Schedules.Schedule.constructor | src/metaheuristic/position.cpp:194-206 | keeps the elements and dummy; the ranks are a permutation of 0..n-1 (any shuffle) |
| Schedules.Schedule.Copy | src/metaheuristic/position.hpp:74-80 | the copy has the same value |
| Schedules.Schedule.SetRankAt | src/metaheuristic/position.cpp:207-210 | one rank replaced; nothing else changes |
| Schedules.Schedule.SetRanks | src/metaheuristic/position.cpp:211-219 | fails iff the size differs, leaving the ranks alone; otherwise the new ranks are the given ones repaired: no duplicate, unique ranks kept, a permutation when all were in range |
| Schedules.Schedule.GetRankById | src/metaheuristic/position.cpp:220-226 | success iff 0 <= id < size (a negative id wraps to a huge unsigned value); the result is that rank |
| Schedules.Schedule.GetRankByElement | src/metaheuristic/position.cpp:227-240 | the forward scan computes RankByElement |
| Schedules.Schedule.GetIndexByElement | src/metaheuristic/position.cpp:241-254 | success iff the element occurs; the result is its first index |
| Schedules.Schedule.GetRelativeRankByElement | src/metaheuristic/position.cpp:255-265 | success iff the element occurs; the result is its rank divided by the size |
| Schedules.Schedule.SetRankByElement | src/metaheuristic/position.cpp:266-278 | fails iff the element is absent, leaving the ranks alone; otherwise the first occurrence gets the rank and the result is repaired |
| Schedules.Schedule.GetElementByRank | src/metaheuristic/position.cpp:313-328 | the scan computes ElementByRank |
| Schedules.Schedule.GetNext | src/metaheuristic/position.cpp:288-305 | the scan keeping the last match computes NextOf |
| Schedules.Schedule.GetNextAll | src/metaheuristic/position.cpp:306-312 | succeeds iff every element has a successor; then one successor per element, in element order |
| Schedules.Schedule.SwitchRanks | src/metaheuristic/position.cpp:351-356 | the two ranks are exchanged and nothing else changes; a permutation stays one |
| Schedules.Schedule.RandomUnusedRank | src/metaheuristic/position.cpp:369-387 | the rank lies in 0..size-1 and no element holds it |
| Schedules.Schedule.RepairDist | src/metaheuristic/position.cpp:357-367 | afterwards no rank occurs twice, a rank that was unique stays in place, and ranks in 0..size-1 end as a permutation |
| Positions.NewPosition | src/metaheuristic/position.cpp:2-8 | a new position is empty (not evaluated), keeps the mode and weights, and has zero penalty and violations |
| Positions.FitnessFunc | src/metaheuristic/position.cpp:137-144 | the loop computes the weighted sum of the fitness plus the penalty |
| Positions.Dominate | src/metaheuristic/position.cpp:88-136 | the checks in source order compute the dominance relation: emptiness, violations, penalty, then objectives or weighted sum |
| Positions.Equal | src/metaheuristic/position.cpp:45-60 | equal fitness entries in multi-objective mode, an equal weighted sum otherwise |
| Positions.IsInvalid | src/metaheuristic/position.cpp:149-158 | true iff some fitness entry is negative |
| Positions.DominatesEmpty | src/metaheuristic/position.cpp:97-104 | an empty position dominates nothing; an evaluated one dominates every empty one |
| Positions.ViolationsDecideFirst | src/metaheuristic/position.cpp:106-109 | between evaluated positions, fewer violations dominate and are not dominated |
| Positions.SingleObjectiveStrict | src/metaheuristic/position.cpp:127-135 | in single-objective mode nothing dominates itself and no two positions dominate each other |
| Positions.MultiObjectiveReflexive | src/metaheuristic/position.cpp:115-126 | in multi-objective mode an evaluated position dominates itself |
| Positions.MultiObjectiveMutual | src/metaheuristic/position.cpp:115-126 | two multi-objective positions with equal violations, penalty and fitness dominate each other |
| Positions.DominatesTransitive | src/metaheuristic/position.cpp:95-136 | dominance is transitive among positions of one mode sharing their weights |
| Positions.WeightedPrefixMonotone | src/metaheuristic/position.cpp:137-144 | with non-negative weights, a fitness no larger entry by entry gives a weighted sum no larger |
| Positions.SingleObjectiveRespectsObjectives | src/metaheuristic/position.cpp:127-135 | in single-objective mode a strictly better weighted sum is never dominated by a position no better on every objective |
| Positions.IndicesOf | src/metaheuristic/position.cpp:431-440 | exactly the indices holding the value, ascending |
| Positions.GetActorsByProc | src/metaheuristic/position.cpp:431-440 | the scan returns the actors mapped to the processor, ascending |
| Positions.RandomRound | src/metaheuristic/position.cpp:344-350 | the floor or the ceiling of the value |
| MetaTools.Ceil | src/metaheuristic/position.cpp:344-350 | the least integer not below the value; the one `ceil` behind `random_round`, the TDMA timing tables and `calc_energy` |
| Positions.WeightedSum | src/metaheuristic/position.cpp:159-163 | with a weight in [0, 1], the result lies between a and b |
| Positions.InterpolationBetween | src/metaheuristic/position.cpp:159-163 | a + w(b - a) lies between a and b for w in [0, 1] |
| Positions.RoundingStaysBetween | src/metaheuristic/position.cpp:344-350 | rounding a value between two integers either way stays between them |
| Positions.WeightedSum3 | src/metaheuristic/position.cpp:164-169 | the result is within one of a + w1(b - a) + w2(c - a) |
| Domains.ValueAt | src/metaheuristic/position.cpp:488-493 | a value exists iff the index selects an element, and it is an element of the domain |
| Domains.SetIndexAdmitsEnd | src/metaheuristic/position.cpp:499-504 | the written guard accepts index = size and negative indices, which select no element |
| Domains.SetIndexAcceptedHasValue | src/metaheuristic/position.cpp:499-504 | with the intended guard every accepted index selects a value of the domain |
| Domains.Domain.constructor | src/metaheuristic/position.hpp:154-163 | the given domain with index 0 |
| Domains.Domain.SetIndexAsWritten | src/metaheuristic/position.cpp:499-504 | as written: accepts exactly the indices not above the size; sets the index iff accepted |
| Domains.Domain.SetIndex | src/metaheuristic/position.cpp:499-504 | with the intended guard: accepts exactly the indices of elements, after which a value is selected |
| Domains.Domain.Assign | src/metaheuristic/position.cpp:505-510 | copies the domain and the index |
| SuccessorArrays.Holder | src/metaheuristic/individual.cpp:288-293 | the last schedule before k holding the element; None iff none holds it |
| SuccessorArrays.HolderIsLast | src/metaheuristic/individual.cpp:288-293 | a schedule holding the element with no later holder is the holder, since later writes overwrite earlier ones |
| SuccessorArrays.WriteSuccessors | src/metaheuristic/individual.cpp:290-293 | succeeds iff every element's `get_next` succeeds; then each element's entry is its successor and every other entry is unchanged |
| SuccessorArrays.ElementEntriesStep | src/metaheuristic/individual.cpp:288-295 | writing one more schedule's successors extends the per-entry description to one more schedule |
| SuccessorArrays.WriteElements | src/metaheuristic/individual.cpp:286-295 | succeeds iff every lookup succeeds; then each entry holds the successor from its last holder and `low_ranks` holds each schedule's lowest-ranked element |
| SuccessorArrays.LinkDummies | src/metaheuristic/individual.cpp:297-301 | dummy n+i points to the lowest-ranked element of schedule i+1 and the last dummy to that of schedule 0; element entries stay |
| SuccessorArrays.LinkedIsNextArray | src/metaheuristic/individual.cpp:284-303 | element entries and linked dummies together give the successor array |
| SuccessorArrays.NextArrayAt | src/metaheuristic/individual.cpp:284-303 | each entry of the successor array: the last dummy, another dummy, or an element's entry |
| SuccessorArrays.RankedLookupsSucceed | src/metaheuristic/individual.cpp:284-303 | when the ranks are permutations no lookup of `get_next` throws |
| SuccessorArrays.NextArrayFollowsRanks | src/metaheuristic/individual.cpp:284-303 | an element's entry is the element ranked right after it, or the dummy after the highest rank |
| SuccessorArrays.DummyLeadsToLowest | src/metaheuristic/individual.cpp:284-303 | the dummy entry before processor p, cyclically, holds the lowest-ranked element of p's schedule |
| SuccessorArrays.ElementEntryOfHolder | src/metaheuristic/individual.cpp:288-293 | an element's entry is its successor in the last schedule holding it |
| Individuals.EndpointProcs | src/metaheuristic/individual.cpp:173-192 | the processor of each channel's source (or destination) actor |
| Individuals.ClampAll | src/metaheuristic/individual.cpp:53 | same length, each element clamped as `bring_v_to_bound` does |
| Individuals.ClampMapped | src/metaheuristic/individual.cpp:53 | clamping a mapping that already names processors changes nothing |
| Individuals.CrossCountZero | src/metaheuristic/individual.cpp:238-251 | a processor has no cross-processor channels iff no channel crosses into or out of it |
| Individuals.Seeded | src/metaheuristic/individual.cpp:237-263 | the allocation entering the reduction loop has the same length and no negative entry |
| Individuals.SeededHolders | src/metaheuristic/individual.cpp:252-263 | after seeding, the processors holding slots are exactly those with cross-processor channels |
| Individuals.TdmaRepairedMeaning | src/metaheuristic/individual.cpp:235-283 | after `repair_tdma`: no slot without cross-processor channels, at least one with them, each entry within [0, no_tdma_slots], and the total fits |
| Individuals.TdmaEndsIffRoom | src/metaheuristic/individual.cpp:268-282 | the reduction loop ends iff the processors needing a slot fit into the slots |
| Individuals.NormaliseRanks | src/metaheuristic/individual.cpp:68 | clamping the ranks into 0..size-1 and repairing them gives a rank permutation over the same elements and dummy |
| Individuals.ChannelsOn | src/metaheuristic/individual.cpp:173-192 | the channels whose endpoint actor is on the processor, ascending |
| Individuals.FitKept | src/metaheuristic/individual.cpp:51-63 | the schedule layout survives a change of mapping that a valid mapping does not undergo |
| Individuals.ClampModes | src/metaheuristic/individual.cpp:54-58 | processor i's mode clamped into 0..modes[i]-1; later entries stay |
| Individuals.RepairedBySteps | src/metaheuristic/individual.cpp:51-63 | the passes of `repair` composed give a repaired position; each pass changes only its own fields |
| Individuals.SameSetsKeepFit | src/metaheuristic/individual.cpp:64-172 | rank changes keep the schedule layout |
| Individuals.FitnessVector | src/metaheuristic/individual.cpp:316-328 | no_entities+2 entries: the periods first, the energy at size-2, the memory violations at size-1, other entries 0 |
| Individuals.BuildFitness | src/metaheuristic/individual.cpp:316-328 | the loops lay out FitnessVector |
| Individuals.CountViolations | src/metaheuristic/individual.cpp:323-326 | the count of negative memory slacks |
| Individuals.EncodedElementsBelow | src/metaheuristic/individual.cpp:307-311 | an encoded position's schedules meet what `get_next` needs |
| Individuals.NeedCountAtMost | src/metaheuristic/individual.cpp:252-263 | at most one needing processor per processor |
| Individuals.RoomForAll | src/metaheuristic/individual.cpp:268-282 | with no more processors than slots the reduction loop always ends |
| Individuals.SeededRepaired | src/metaheuristic/individual.cpp:235-283 | a repaired allocation enters the reduction loop unchanged and stays as it is |
| Individuals.RepairedStable | src/metaheuristic/individual.cpp:51-63 | a repaired position is mapped, its mapping is its own clamp, and a second repair's reduction loop ends |
| Individuals.RepairAgain | src/metaheuristic/individual.cpp:51-63 | repairing a repaired position again changes neither mapping, modes nor TDMA allocation |
| Individuals.Generate | src/metaheuristic/individual.cpp:220-221 | n values, each in [0, max] |
| Individuals.DrawModes | src/metaheuristic/individual.cpp:224-229 | processor i's mode lies in 0..modes[i]-1 |
| Individuals.Individual.constructor | src/metaheuristic/individual.cpp:2-16 | both positions new with the weights and mode; no invalid moves |
| Individuals.Individual.Create | src/metaheuristic/individual.cpp:2-22 | fails when the weights are not one per application plus two; succeeds with enough slots; the result is encoded and has no invalid moves |
| Individuals.Individual.CopyOf | src/metaheuristic/individual.cpp:23-36 | both positions copied; the invalid-move counter restarts at 0 |
| Individuals.Individual.InitRandom | src/metaheuristic/individual.cpp:193-234 | draws mappings, modes and TDMA from their ranges, lays out schedules, zero fitness per objective, and repairs; `ok` iff the repair ends |
| Individuals.Individual.SetBestGlobal | src/metaheuristic/individual.cpp:371-374 | only the guide position changes |
| Individuals.Individual.Dominate | src/metaheuristic/individual.cpp:360-364 | whether this current position dominates the other's |
| Individuals.Individual.GetChannelBySrc | src/metaheuristic/individual.cpp:173-182 | the channels whose source actor is on the processor, ascending |
| Individuals.Individual.GetChannelByDst | src/metaheuristic/individual.cpp:183-192 | the channels whose destination actor is on the processor, ascending |
| Individuals.Individual.BuildSchedules | src/metaheuristic/individual.cpp:37-50 | one schedule per processor in each list, holding the actors or channels on it, with a dummy and ranks that are permutations; nothing else changes |
| Individuals.Individual.RepairTdma | src/metaheuristic/individual.cpp:235-283 | succeeds iff the reduction ends; then only the allocation changes, as TdmaRepaired describes |
| Individuals.Individual.RepairSched | src/metaheuristic/individual.cpp:64-89 | only the actor schedules change, keep their elements and dummies, and end ranked |
| Individuals.Individual.RepairSendSched | src/metaheuristic/individual.cpp:90-133 | only the sending schedules change, keep their elements and dummies, and end ranked |
| Individuals.Individual.RepairRecSched | src/metaheuristic/individual.cpp:134-172 | only the receiving schedules change, keep their elements and dummies, and end ranked |
| Individuals.Individual.Repair | src/metaheuristic/individual.cpp:51-63 | fails iff the TDMA reduction would not end; otherwise the result is repaired, mapped and keeps its layout |
| Individuals.Individual.RepairSchedules | src/metaheuristic/individual.cpp:60-62 | the three schedule passes keep every layout and end ranked |
| Individuals.Individual.GetNext | src/metaheuristic/individual.cpp:284-303 | succeeds iff every lookup does; the result is the successor array |
| Individuals.Individual.CalcFitness | src/metaheuristic/individual.cpp:304-341 | fails, changing nothing, iff the design analysis fails; otherwise the fitness takes the layout and the invalid-move counter grows on a non-positive first entry and resets otherwise |
| Chromosomes.Crossover | src/metaheuristic/chromosome.cpp:122-135 | the result is the first parent up to some cut in 0..\|v1\|-1 and the second parent from it on |
| Chromosomes.CrossedEntries | src/metaheuristic/chromosome.cpp:122-135 | as long as the first parent; each entry from one parent at the same index; the last entry always from the second |
| Chromosomes.CrossedWithin | src/metaheuristic/chromosome.cpp:122-135 | crossing two vectors within bounds stays within them |
| Chromosomes.CrossedSelf | src/metaheuristic/chromosome.cpp:122-135 | crossing a vector with itself gives it back, wherever the cut falls |
| Chromosomes.Mutation | src/metaheuristic/chromosome.cpp:137-148 | the vector itself, or one entry shifted by an offset in -2..2 |
| Chromosomes.MutationBounded | src/metaheuristic/chromosome.cpp:137-148 | the length is kept, no entry moves by more than 2, and at most one entry moves |
| Chromosomes.CrossMutatedBySteps | src/metaheuristic/chromosome.cpp:64-74 | a crossover followed by a mutation is what `cross_mut` does to each decision vector |
| Chromosomes.CrossOne | src/metaheuristic/chromosome.cpp:156-163 | succeeds iff every element finds its rank in its donor schedule; then the schedule keeps its elements and dummy and has no rank twice |
| Chromosomes.DonorsUpToAll | src/metaheuristic/chromosome.cpp:156-163 | when all elements were served, every donor lookup succeeded |
| Chromosomes.CrossSchedules | src/metaheuristic/chromosome.cpp:149-166 | for a cut in 0..no_elems-1, succeeds iff every element finds its donor rank; then every schedule is reranked |
| Chromosomes.DonorsHoldElements | src/metaheuristic/chromosome.cpp:149-166 | when every element sits in its donor schedule the schedule crossover cannot fail |
| Chromosomes.HoldsIndices | src/metaheuristic/chromosome.cpp:149-166 | schedules laid out by a processor map hold every element in its processor's schedule |
| Chromosomes.LaidOut | src/metaheuristic/individual.cpp:37-50 | the layout of `build_schedules` puts every actor and channel in the schedule of its processor |
| Chromosomes.CrossMutVector | src/metaheuristic/chromosome.cpp:64-74 | `mutation(crossover(v1, v2))` |
| Chromosomes.CrossMutatedLength | src/metaheuristic/chromosome.cpp:64-74 | a crossed and mutated vector is as long as the first parent |
| Chromosomes.EndpointMappings | src/metaheuristic/chromosome.cpp:83-103 | each channel's source (or destination) processor |
| Chromosomes.CrossAllSchedules | src/metaheuristic/chromosome.cpp:79-107 | only the three schedule lists change, each schedule reranked from its parents |
| Chromosomes.MutateRanks | src/metaheuristic/chromosome.cpp:113-115 | `set_rank(mutation(get_rank()))` on one schedule |
| Chromosomes.MutateAllSchedules | src/metaheuristic/chromosome.cpp:111-116 | only the schedules change, each with mutated, repaired ranks |
| Chromosomes.RerankedSameSets | src/metaheuristic/chromosome.cpp:149-166 | reranking keeps every schedule's elements and dummy |
| Chromosomes.RankMutatedSameSets | src/metaheuristic/chromosome.cpp:111-116 | rank mutation keeps every schedule's elements and dummy |
| Chromosomes.CrossedInherits | src/metaheuristic/chromosome.cpp:10-57 | after `crossover()` every actor sits on a processor one of the parents chose |
| Chromosomes.CrossMutatedNear | src/metaheuristic/chromosome.cpp:64-74 | each entry of a crossed and mutated vector is at most 2 away from a parent's entry |
| Chromosomes.ClampStaysNear | src/metaheuristic/individual.cpp:53 | clamping into a range that holds v moves no value farther from v |
| Chromosomes.CrossMutStaysNear | src/metaheuristic/chromosome.cpp:58-121 | after `cross_mut` every actor sits on a processor at most 2 away from one a parent chose |
| Chromosomes.BredPosition | src/metaheuristic/chromosome.cpp:58-121 | the repaired offspring of `cross_mut` is a CrossMutPosition |
| Chromosomes.CrossMutDecisions | src/metaheuristic/chromosome.cpp:62-74 | a new position whose three decision vectors are crossed with the best position's and mutated |
| Chromosomes.CrossDecisions | src/metaheuristic/chromosome.cpp:14-20 | a new position whose three decision vectors are crossed with the best position's; the mapping stays valid |
| Chromosomes.CrossedPositionOf | src/metaheuristic/chromosome.cpp:10-57 | the repaired offspring of `crossover()` is a CrossedPosition |
| Chromosomes.Chromosome.constructor | src/metaheuristic/chromosome.cpp:2-5 | wraps the given individual |
| Chromosomes.Chromosome.CopyOf | src/metaheuristic/chromosome.cpp:7-8 | a fresh copy of the individual, invalid-move counter at 0 |
| Chromosomes.Chromosome.Update | src/metaheuristic/chromosome.cpp:168-171 | one `cross_mut` |
| Chromosomes.Chromosome.CrossMut | src/metaheuristic/chromosome.cpp:58-121 | fails without a best position; succeeds with enough slots; the new position is a CrossMutPosition of the current and best ones |
| Chromosomes.Chromosome.Bred | src/metaheuristic/chromosome.cpp:62-118 | the offspring of `cross_mut` before it is assigned |
| Chromosomes.Chromosome.BredDecisions | src/metaheuristic/chromosome.cpp:62-76 | the crossed and mutated decisions, then repaired |
| Chromosomes.Chromosome.BredSchedules | src/metaheuristic/chromosome.cpp:77-116 | schedules built for the repaired mapping, crossed and rank-mutated |
| Chromosomes.Chromosome.RepairBred | src/metaheuristic/chromosome.cpp:118 | the second repair cannot fail and changes only the schedules |
| Chromosomes.Chromosome.CrossWithBest | src/metaheuristic/chromosome.cpp:10-57 | fails without a best position; succeeds with enough slots; the new position is a CrossedPosition of the current and best ones |
| Chromosomes.Chromosome.Crossed | src/metaheuristic/chromosome.cpp:14-54 | the offspring of `crossover()` before it is assigned |
| Archive.RemoveDominated | src/metaheuristic/population_data.cpp:65-71 | the filtered front still holds evaluated members only |
| Archive.RemoveDominatedMembers | src/metaheuristic/population_data.cpp:65-71 | the filter keeps exactly the members p does not dominate |
| Archive.EraseStep | src/metaheuristic/population_data.cpp:65-71 | one pass of the erase loop keeps its state: a filtered prefix and an untouched rest |
| Archive.EraseFrom | src/metaheuristic/population_data.cpp:65-71 | the erase loop, examining every member, computes RemoveDominated |
| Archive.UpdatedFront | src/metaheuristic/population_data.cpp:60-76 | the updated front ends with p |
| Archive.EraseSkipping | src/metaheuristic/population_data.cpp:65-71 | the loop as written keeps evaluated members only |
| Archive.UpdateKeepsNonDominated | src/metaheuristic/population_data.cpp:60-76 | an undominated evaluated p yields a front free of dominance that holds p, and every other member was in the front and is not dominated by p |
| Archive.RemovedStaysNonDominated | src/metaheuristic/population_data.cpp:65-71 | removing members keeps the rest pairwise non-dominating |
| Archive.Point | src/metaheuristic/population_data.cpp:60-76 | a two-objective evaluated position in multi-objective mode |
| Archive.WorseFirstNoDominance | src/metaheuristic/position.cpp:115-126 | between two-objective points, a worse first objective rules out dominating and equality |
| Archive.PointDominance | src/metaheuristic/population_data.cpp:60-76 | (5,1) and (1,5) are incomparable and neither dominates nor equals (0,0); (0,0) dominates both |
| Archive.PointsIncomparable | src/metaheuristic/population_data.cpp:60-76 | (5,1), (1,5) and (0,0) do not dominate in the directions that keep (0,0) insertable |
| Archive.OriginDominates | src/metaheuristic/position.cpp:115-126 | (0,0) dominates every point with non-negative objectives |
| Archive.EraseSkippingRun | src/metaheuristic/population_data.cpp:65-71 | the written loop on [(5,1), (1,5)] with (0,0) erases (5,1) and skips (1,5) |
| Archive.EraseSkippingKeepsDominated | src/metaheuristic/population_data.cpp:60-76 | the written update turns the dominance-free front [(5,1), (1,5)] into [(1,5), (0,0)], where (0,0) dominates (1,5) |
| Archive.IncomparableFront | src/metaheuristic/population_data.cpp:60-76 | [(5,1), (1,5)] is free of dominance and does not dominate (0,0) |
| Archive.LeftBehindDominated | src/metaheuristic/population_data.cpp:60-76 | [(1,5), (0,0)] is not free of dominance |
| Archive.ParetoFront.constructor | src/metaheuristic/population_data.cpp:2-4 | an empty front |
| Archive.ParetoFront.DominateAt | src/metaheuristic/population_data.cpp:20-33 | true for an empty or invalid p; false on an empty front; otherwise whether p dominates `pareto[indx]` |
| Archive.ParetoFront.DominateFront | src/metaheuristic/population_data.cpp:46-59 | some member dominates or equals p, with the empty-front case of DominateAt |
| Archive.ParetoFront.UpdateParetoAsWritten | src/metaheuristic/population_data.cpp:60-76 | as written: updates iff the front does not dominate p; the skipping erase loop, then p appended |
| Archive.ParetoFront.UpdatePareto | src/metaheuristic/population_data.cpp:60-76 | corrected: updates iff the front does not dominate p; exactly the members p dominates are removed and p is appended |
| Archive.WorstFrom | src/metaheuristic/population_data.cpp:115-126 | the chosen index is a member's index |
| Archive.WorstOfPairIsDominated | src/metaheuristic/population_data.cpp:115-126 | of two members where the second strictly dominates the first, the first is removed |
| Archive.Memory.constructor | src/metaheuristic/population.hpp:80-87 | an empty memory of size 1 |
| Archive.Memory.ExistsInMem | src/metaheuristic/population_data.cpp:106-114 | true iff some member has the same fitness |
| Archive.Memory.RemoveWorst | src/metaheuristic/population_data.cpp:115-126 | erases exactly the member WorstFrom chooses |
| Archive.Memory.UpdateMemory | src/metaheuristic/population_data.cpp:82-105 | a valid position fills a free slot; an equal one is refused; a dominating one is appended and the worst removed; the memory never grows beyond its size; the answer and the new memory are Archive.MemoryAccepts and Archive.MemoryAfter |
| Archive.MemoryAfter | src/metaheuristic/population_data.cpp:82-105 | the memory `update_memory` leaves stays evaluated and within its size, and a refused position leaves it unchanged |
| Archive.SingleSlotReplacement | src/metaheuristic/population_data.cpp:82-126 | in single-objective mode a full one-slot memory that accepts a position holds exactly it |
| Populations.NoObjectives | src/metaheuristic/population.cpp:7 | one objective per application plus two, so at least two |
| Populations.ChunkOf | src/metaheuristic/population.cpp:225-235 | the worker of an individual is one of the workers |
| Populations.BelowIffQuotient | src/metaheuristic/population.cpp:14 | `t * k <= i` exactly when t does not exceed `i / k` |
| Populations.ChunkBounds | src/metaheuristic/population.cpp:225-235 | every worker's chunk lies inside the population |
| Populations.ChunkOfExactly | src/metaheuristic/population.cpp:225-235 | individual i lies in worker t's chunk iff t is its worker, so each individual is handled by exactly one worker |
| Populations.ISqrt | src/metaheuristic/ga_population.cpp:9 | the integer square root: r*r <= n < (r+1)*(r+1) |
| Populations.RowsContents | src/metaheuristic/ga_population.cpp:10-18 | the first i rows hold i*t pairs: every (a, b) with a < i and b < t exactly once, and nothing else |
| Populations.PossibleParents | src/metaheuristic/ga_population.cpp:9-18 | thresh = sqrt(n)+1 and all pairs below thresh, row after row |
| Populations.ThreshWithin | src/metaheuristic/ga_population.cpp:9-18 | with at least two individuals sqrt(n)+1 does not exceed n, so every parent index names an individual |
| Populations.SelectParents | src/metaheuristic/ga_population.cpp:111-122 | n parents, each one of the pairs, no pair drawn twice |
| Populations.Population.constructor | src/metaheuristic/population.cpp:3-16 | no_apps+2 objectives, particle_per_obj individuals per objective, the chunk size, no reinitialisation, empty archives of size 1; the GA also builds more pairs than individuals (ga_population.cpp:3-20) |
| Populations.Population.CalcFitness | src/metaheuristic/population.cpp:225-235 | worker t evaluates exactly the individuals of its chunk |
| Populations.Population.ArchiveGeneration | src/metaheuristic/population.cpp:62-81 | every current position is archived in population order: the short-term memory, the front (multi-objective) or the long-term memory and the history are the folds of `update_memory` and `update_pareto` over the positions; the last improvement moves to g exactly when one of them was accepted; without one nothing but the short-term memory changes |
| Populations.Population.ArchivePosition | src/metaheuristic/population.cpp:64-80 | one position: the short-term memory takes it by `update_memory`; the front by `update_pareto` in multi-objective mode, otherwise the long-term memory, whose acceptance pushes the new memory to the history; the other archive is untouched |
| Populations.Population.ArchivePositions | src/metaheuristic/population.cpp:62-81 | the archives after the loop are the folds of the updates over the current positions |
| Populations.FrontFold | src/metaheuristic/population.cpp:64-69 | the front after `update_pareto` on each position in turn stays evaluated and free of dominance |
| Populations.FrontFoldKeepsLast | src/metaheuristic/population.cpp:64-69 | a position the front accepts is in the front after its call |
| Populations.MemoryFold | src/metaheuristic/population.cpp:66-73 | a memory after `update_memory` on each position in turn stays evaluated and within its size |
| Populations.HistoryFold | src/metaheuristic/population.cpp:73-77 | snapshots are pushed exactly when some update was accepted, and the last one is the final memory |
| Populations.FrontFoldSteady | src/metaheuristic/population.cpp:64-69 | with no accepted update the front is unchanged; after one it is not empty |
| Populations.MemoryFoldSteady | src/metaheuristic/population.cpp:70-80 | with no accepted update the memory is unchanged; after one it is not empty |
| Populations.Population.ArchiveNext | src/metaheuristic/population.cpp:62-80 | one round of the archiving loop: archiving individual `p`'s position after the first `p` extends every fold by it and keeps the archives well formed |
| Populations.ArchivedStart | src/metaheuristic/population.cpp:61 | before the loop the folds over no position are the starting archives |
| Populations.ArchivedStep | src/metaheuristic/population.cpp:62-81 | archiving one more position as ArchivePosition does extends every fold by that position |
| Populations.Population.GaInit | src/metaheuristic/ga_population.cpp:22-38 | one more reinitialisation at the current generation; n new chromosomes in the population, old and next population alike |
| Populations.Population.SwarmInit | src/metaheuristic/swarm.cpp:9-28 | one more reinitialisation; particle i serves objective i mod no_objectives and is also in the opposition set |
| Populations.Population.Init | src/metaheuristic/population.cpp:41-45 | `init()` dispatched on the strategy |
| Populations.Population.GaUpdate | src/metaheuristic/ga_population.cpp:49-68 | worker t fills its chunk of the next population with the offspring of the drawn parents; the population itself is untouched; the parents must have been drawn, since the loop reads `parents[i]` for every i of the chunk |
| Populations.Population.SwarmUpdate | src/metaheuristic/swarm.cpp:39-74 | each particle of worker t's chunk takes some guide and moves; with no guide it stays; other chunks are untouched |
| Populations.Population.Update | src/metaheuristic/population.cpp:88-91 | `update(t)` dispatched on the strategy; the GA needs drawn parents as GaUpdate does |
| Populations.Population.EvaluateAll | src/metaheuristic/population.cpp:47-57 | every individual is evaluated exactly once |
| Populations.Population.UpdateAll | src/metaheuristic/population.cpp:84-97 | the GA fills the whole next population with offspring of the drawn parents; every particle moves once |
| Populations.Population.Termination | src/metaheuristic/ga_population.cpp:75-79 | the generation counter advances by one; stop iff it is more than no_generations past the last update |
| Populations.Population.NewPopulation | src/metaheuristic/ga_population.cpp:99-103 | the next population replaces the current one |
| Populations.Population.SortPopulation | src/metaheuristic/ga_population.cpp:104-122 | no_individuals distinct pairs drawn from the possible parents, each naming two individuals (the sort before the draw is left out) |
| Populations.Population.Generation | src/metaheuristic/population.cpp:37-101 | one loop pass: reinitialise when needed, evaluate, archive, update; an improvement leaves a non-empty archive; corrected for the GA: an update step draws the parents first and installs the offspring after, so after it the parents are drawn and the population is the next one |
| Populations.Population.Advance | src/metaheuristic/population.cpp:60-97 | the second half of a loop pass: archive, then update while within `noGenerations` of the last improvement; after a GA update the parents are drawn and the population is the next one; an improvement leaves a non-empty archive |
| Populations.Population.Restart | src/metaheuristic/population.cpp:39-45 | afterwards the population has its full size; the short-term memory is cleared exactly on convergence; one reinitialisation on convergence and one more when both archives are empty |
| Populations.Population.Breed | src/metaheuristic/population.cpp:84-97 | corrected update step: for the GA the parents are drawn, every slot of the next population gets the offspring of its pair, and the next population replaces the current one; every particle moves once |
| Populations.Population.EmptyParentsOutOfRange | src/metaheuristic/ga_population.cpp:49-67 | as written the parents are never drawn: with the constructor's empty `parents`, the GA update reads `parents[i]` past the end for every individual i |
| Populations.Population.Search | src/metaheuristic/population.cpp:22-138 | the run lasts exactly until the counter passes last_update + no_generations, because the improvement is kept in a local variable; the last improvement lies before the end |
| Platforms.GetMaxModes | src/platform/platform.cpp:177-186 | the running maximum bounds every node's mode count and is attained by some node (or is 0) |
| Platforms.MaxModesIsMax | src/platform/platform.cpp:177-186 | the recursive maximum is the least bound some node attains |
| Platforms.IsFixed | src/platform/platform.cpp:208-214 | fixed iff no node has more than one mode |
| Platforms.FixedIffMaxModes | src/platform/platform.cpp:177-214 | fixed exactly when the largest mode count is at most 1 |
| Platforms.AllProcsFixed | src/platform/platform.cpp:254-259 | true iff no node is of type "flexProc" |
| Platforms.HomogeneousNodesSingleMode | src/platform/platform.cpp:217-225 | homogeneous nodes have at most one mode each, and the relation is symmetric |
| Platforms.Homogeneous | src/platform/platform.cpp:246-251 | true iff every adjacent pair of nodes is homogeneous |
| Platforms.HomogeneousIsFixed | src/platform/platform.cpp:208-251 | a homogeneous platform of two or more nodes is fixed |
| Platforms.HomogeneousModeNodes | src/platform/platform.cpp:228-243 | the same number of modes and every mode equal in cycle length, memory, power, area and cost |
| Platforms.ModeHomogeneousSingle | src/platform/platform.cpp:217-243 | two single-mode nodes of one type that are mode-homogeneous are homogeneous |
| MetaTools.CeilMonotone | src/platform/platform.cpp:118-139 | ceil is monotone |
| MetaTools.CeilOfSum | src/platform/platform.cpp:109-166 | the ceiling of a sum is at most the sum of the ceilings and at least one less |
| Platforms.MaxBlockingTimes | src/platform/platform.cpp:130-142 | tdmaSlots+1 entries: 0 for no slot, then the blocking time for 1..tdmaSlots slots |
| Platforms.MaxTransferTimes | src/platform/platform.cpp:147-166 | tdmaSlots+1 entries: 0 for no slot, then the transfer time for 1..tdmaSlots slots |
| Platforms.MaxCommTimes | src/platform/platform.cpp:109-125 | tdmaSlots+1 entries: -1 for no slot, then blocking plus transfer for 1..tdmaSlots slots |
| Platforms.BlockingNonIncreasing | src/platform/platform.cpp:130-142 | more slots never lengthen the blocking time |
| Platforms.BlockingEnds | src/platform/platform.cpp:130-142 | one slot blocks for a whole round; all slots block for one slot length, rounded up |
| Platforms.CommBetweenParts | src/platform/platform.cpp:109-166 | each communication time lies between blocking plus transfer less one and blocking plus transfer |
| Platforms.ProcModelAdmitsEnd | src/platform/platform.cpp:261-266 | the written guard accepts id = nodes(), which names no node |
| Platforms.GetProcModel | src/platform/platform.cpp:261-266 | corrected: succeeds iff the id names a node, with that node's model |
| Plots.NatToString | src/metaheuristic/plot.cpp:70 | at least one digit and no leading zero |
| Plots.IntToString | src/metaheuristic/plot.cpp:70 | a non-empty numeral: an optional minus sign, then digits |
| Plots.NatRoundTrip | src/metaheuristic/plot.cpp:70 | reading the digits back gives the number |
| Plots.IntRoundTrip | src/metaheuristic/plot.cpp:70 | reading a rendered cell back gives the cell |
| Plots.HeaderNoNewline | src/metaheuristic/plot.cpp:63-64 | with newline-free titles the header has no newline |
| Plots.RowNoNewline | src/metaheuristic/plot.cpp:68-71 | a row's cells have no newline |
| Plots.RowsNewlines | src/metaheuristic/plot.cpp:66-73 | one newline per row |
| Plots.CsvLines | src/metaheuristic/plot.cpp:60-74 | the CSV has a header line plus one line per row |
| Plots.FigureCountWraps | src/metaheuristic/plot.cpp:83 | with fewer than two titles the unsigned bound `titles.size()-2` wraps round and exceeds the number of titles |
| Plots.FigureCount | src/metaheuristic/plot.cpp:83 | corrected: at most the number of titles, equal to the written bound whenever that does not wrap |
| Plots.TexFrame | src/metaheuristic/plot.cpp:75-98 | the document opens with its class line and ends with its closing line |
| Plots.FiguresInOrder | src/metaheuristic/plot.cpp:83-95 | figure k plots title k: the figures follow the titles in order |
| Plots.Plot.constructor | src/metaheuristic/plot.cpp:45-53 | stores the titles and values and renders both texts |
| Plots.Plot.CreateCsv | src/metaheuristic/plot.cpp:60-74 | the CSV text is the header line then one line per row; nothing else changes |
| Plots.Plot.AppendRow | src/metaheuristic/plot.cpp:68-72 | one row's cells and a newline are appended |
| Plots.Plot.CreateTex | src/metaheuristic/plot.cpp:75-98 | the TeX text is the preamble, one figure per plotted title and the closing line; nothing else changes |
| DesignData.BoundariesFacts | src/system/design.cpp:24-28 | the boundaries ascend and are exactly the actors followed by an actor of the next application |
| DesignData.AppIndexContents | src/system/design.cpp:24-29 | `appIndex` ascends, ends with the last actor, and holds exactly the actors where the application number goes up by one |
| DesignData.GroupedMonotone | src/system/design.cpp:24-29 | on actors grouped by application, application numbers grow by at most one per actor |
| DesignData.BoundariesAreLastActors | src/system/design.cpp:24-28 | the k-th boundary is the last actor of application k |
| DesignData.AppIndexLastActors | src/system/design.cpp:24-29 | one `appIndex` entry per application, entry k the last actor of application k |
| DesignData.FirstAtLeast | src/system/design.cpp:647-651 | the first entry not below the actor, every earlier entry below it, or -1 when there is none |
| DesignData.FirstAtLeastAt | src/system/design.cpp:647-651 | an entry not below the actor with every earlier one below it is the one found |
| DesignData.AppIndexEntry | src/system/design.cpp:24-29 | entry k exists for each application k and is an actor of it |
| DesignData.EarlierEntriesBelow | src/system/design.cpp:647-651 | the entries of earlier applications lie before the actor |
| DesignData.AppOfActor | src/system/design.cpp:642-652 | getApp's search finds the actor's own application |
| DesignData.ChargeTotalCount | src/system/design.cpp:839-852 | a channel's message size is charged once per distinct processor among its endpoints |
| DesignData.ChannelChargedPerEndpoint | src/system/design.cpp:839-852 | over all processors a channel between two processors is charged twice, one on a single processor once |
| DesignData.AppIndexLoop | src/system/design.cpp:24-29 | the constructor's loop builds exactly the boundaries then the last actor |
| DesignData.ChargeStep | src/system/design.cpp:844-851 | one channel's step adds its message size to the memory of each of its endpoints' processors |
| DesignData.TimesStep | src/system/design.cpp:839-854 | one channel's step extends the sending time, latency, receiving time and buffer vectors by that channel's entries |
| DesignData.ChannelVectors | src/system/design.cpp:833-855 | per channel: the transfer and blocking times for the source processor's slots across processors, 0 and an emptied send buffer on one processor, receiving time 0; the channels' memory per processor |
| DesignData.InitVectors | src/system/design.cpp:829-867 | succeeds exactly when no actor's WCET is negative, and then gives every vector entry by entry |
| Msag.Interconnect | src/system/design.cpp:78-82 | only channels with a positive sending time, in channel order |
| Msag.Find | src/system/design.cpp:619-620 | `std::find`: the first position holding the value, or -1 when none does |
| Msag.InterconnectBounds | src/system/design.cpp:116-124 | `channelMapping` has three entries per interconnect channel, each naming one |
| Msag.PrefixesKept | src/system/design.cpp:115-124 | later channels only append to the interconnect list and `channelMapping` |
| Msag.ChannelVertices | src/system/design.cpp:118-124 | the k-th interconnect channel's block, send and receive vertices are `noActors + 3k`, `+1`, `+2`, and getBlock/Send/RecActor find them |
| Msag.MappingTriples | src/system/design.cpp:122-124 | `channelMapping` names the k-th interconnect channel at entries 3k, 3k+1 and 3k+2 |
| Msag.MappingAt | src/system/design.cpp:122-124 | each of the three entries of a triple names the same interconnect channel |
| Msag.MappingLength | src/system/design.cpp:122-124 | `channelMapping` is three times the interconnect |
| Msag.CoLocatedHasNoVertices | src/system/design.cpp:618-640 | a channel not on the interconnect has no block, send or receive vertex (-1) |
| Msag.SizeCounts | src/system/design.cpp:77-82 | `n_msagActors` is the actors plus three per channel with positive sending time, and the interconnect holds exactly those channels |
| Msag.InitialLoops | src/system/design.cpp:94-103 | one self-loop per vertex |
| Msag.BufferCycles | src/system/design.cpp:125-322 | an interconnect channel's edges form three two-edge cycles holding the send buffer, the TDMA slot and the receive buffer |
| Msag.SetLoops | src/system/design.cpp:116-322 | only the three communication self-loops are rewritten |
| Msag.NextReceiver | src/system/design.cpp:273-293 | only the destination's `receivingActors` entry may change, only to the new receive vertex, and it does when it was -1 |
| Msag.ReceiverSet | src/system/design.cpp:274-291 | recording a receive vertex keeps `receivingActors` well formed |
| Msag.InterconnectIndex | src/system/design.cpp:118-120 | an interconnect channel's three vertices fit within the graph |
| Msag.InterconnectOrder | src/system/design.cpp:118-124 | earlier interconnect channels get earlier vertices |
| Msag.BlockOf | src/system/design.cpp:118-120 | a block vertex is a communication vertex with its send and receive vertices after it |
| Msag.Step1Loops | src/system/design.cpp:115-357 | step 1 keeps one self-loop per vertex |
| Msag.Receivers | src/system/design.cpp:115-357 | step 1's `receivingActors` stays well formed |
| Msag.SelfLoopsKept | src/system/design.cpp:94-357 | after step 1 each vertex still has its one-token self-loop in its place |
| Msag.LoopsKept | src/system/design.cpp:94-357 | step 1's self-loops stay in place |
| Msag.LoopDelaysFinal | src/system/design.cpp:116-322 | after step 1 an interconnect channel's block, send and receive self-loops carry its sending latency, sending time and receiving time |
| Msag.LoopDelaysInLoops | src/system/design.cpp:116-322 | the same for the self-loop part of the edge list |
| Msag.InitialLoopsAt | src/system/design.cpp:94-103 | the initial self-loops are in place with one token |
| Msag.LoopsSet | src/system/design.cpp:116-322 | rewriting three communication delays keeps every self-loop in place |
| Msag.LoopsSetDelays | src/system/design.cpp:116-322 | the rewritten self-loops carry the given delays |
| Msag.LoopDelaysKept | src/system/design.cpp:115-357 | delays already set survive later channels |
| Msag.ChannelEdgesAdded | src/system/design.cpp:115-357 | the edges after the self-loops are exactly the step-1 edges of the channels |
| Msag.AddedMembers | src/system/design.cpp:115-357 | an added edge comes from some channel, and every channel's edges are added |
| Msag.DummyOf | src/system/design.cpp:553-560 | the end-of-order entry leads to a dummy entry of the processor range |
| Msag.SendWalk | src/system/design.cpp:362-437 | a found successor is an interconnect channel, with 0 or 1 token |
| Msag.RecWalk | src/system/design.cpp:440-503 | a found successor is an interconnect channel into the same destination, or -1 |
| Msag.SendEdgeShape | src/system/design.cpp:362-437 | at most one sending-order edge, from the send vertex to another channel's block vertex, with that channel's sending latency |
| Msag.RecEdgeShape | src/system/design.cpp:440-503 | the receiving-order edge leaves the receive vertex with no token for the destination or another receive vertex into it |
| Msag.IntoActor | src/system/design.cpp:512-537 | an edge into an actor enters its receive vertex when it has one |
| Msag.NextEdge | src/system/design.cpp:505-616 | a decided successor gets a tokenless edge to it or its receive vertex; at the end of a processor's order the edge goes, with one token, to the entry the dummy names, and the call fails exactly when that entry is not an actor |
| Msag.DummyOfPrevious | src/system/design.cpp:553-560 | processor p's end marker leads to the dummy entry of processor p - 1, cyclically |
| MsagBuild.OrderWrapsToFirst | src/system/design.cpp:553-572 | with the successor array `get_next` builds, an actor at the end of processor p's order gets its one-token edge to p's lowest-ranked scheduled entry, and fails exactly when that entry is not an actor |
| Msag.AppendIn | src/system/design.cpp:72-616 | well-formed edge lists stay well formed when joined |
| Msag.ChannelEdgesIn | src/system/design.cpp:115-357 | a channel's step-1 edges join vertices of the graph |
| Msag.AddedIn | src/system/design.cpp:115-357 | all step-1 edges join vertices of the graph |
| Msag.VerticesOfChannel | src/system/design.cpp:618-640 | an interconnect channel's block and receive vertices are communication vertices of the graph |
| Msag.SendEdgeIn | src/system/design.cpp:362-437 | sending-order edges join vertices of the graph |
| Msag.RecEdgeIn | src/system/design.cpp:440-503 | receiving-order edges join vertices of the graph |
| Msag.SendPhaseIn | src/system/design.cpp:362-437 | the whole sending-order pass adds well-formed edges |
| Msag.RecPhaseIn | src/system/design.cpp:440-503 | the whole receiving-order pass adds well-formed edges |
| Msag.NextPhaseIn | src/system/design.cpp:505-616 | steps 2 and 3 add well-formed edges |
| Msag.EdgesInRange | src/system/design.cpp:72-616 | every edge of a constructed MSAG joins two of its vertices and belongs to one of them |
| MsagBuild.CountVertices | src/system/design.cpp:77-82 | computes `channelMapping` and `n_msagActors` as specified |
| MsagBuild.AddVertices | src/system/design.cpp:94-103 | adds every vertex with its self-loop |
| MsagBuild.ChannelsStep | src/system/design.cpp:115-357 | step 1's loop builds the step-1 edge list and `receivingActors` |
| MsagBuild.Step1Next | src/system/design.cpp:115-357 | one more channel extends step 1 by that channel's edges and nothing else |
| MsagBuild.InterconnectChannel | src/system/design.cpp:116-324 | step 1a sets the three delays, appends the six edges and records the receive vertex |
| MsagBuild.RecordReceiver | src/system/design.cpp:273-293 | the `receivingActors` update as specified |
| MsagBuild.FindNextSend | src/system/design.cpp:366-400 | the search loop is the sending-order walk |
| MsagBuild.FindNextReceive | src/system/design.cpp:443-470 | the search loop is the receiving-order walk |
| MsagBuild.SendEdgeAt | src/system/design.cpp:362-437 | one send vertex's edge as specified |
| MsagBuild.SendPass | src/system/design.cpp:362-437 | the sending-order pass as specified |
| MsagBuild.RecEdgeAt | src/system/design.cpp:440-503 | one receive vertex's edge as specified |
| MsagBuild.ReceivePass | src/system/design.cpp:440-503 | the receiving-order pass as specified |
| MsagBuild.NextEdgeAt | src/system/design.cpp:505-616 | one actor's step-2 or step-3 edge as specified |
| MsagBuild.NextPass | src/system/design.cpp:505-616 | steps 2 and 3 over all actors as specified |
| MsagBuild.SendPhaseNext | src/system/design.cpp:362-437 | the pass fails at the first failing vertex, else appends that vertex's edge |
| MsagBuild.RecPhaseNext | src/system/design.cpp:440-503 | the same for the receiving-order pass |
| MsagBuild.SendPhaseFails | src/system/design.cpp:362-437 | once the sending-order pass fails it stays failed |
| MsagBuild.RecPhaseFails | src/system/design.cpp:440-503 | once the receiving-order pass fails it stays failed |
| MsagBuild.NextPhaseFails | src/system/design.cpp:505-616 | once steps 2 and 3 fail they stay failed |
| MsagBuild.ConstructMsag | src/system/design.cpp:72-616 | constructMSAG builds exactly the specified MSAG, or fails where the source would not terminate or would read past `receivingActors` at the end of an order |
| CoMapping.NoApps | src/system/design.cpp:673-675 | at least one and at most one per actor |
| CoMapping.AppRange | src/system/design.cpp:642-652 | every actor's application is an application of the design |
| CoMapping.GetApp | src/system/design.cpp:642-652 | getApp returns the first `appIndex` entry not below the actor, never -1 |
| CoMapping.AppOfVertex | src/system/design.cpp:642-652 | a vertex's application is an application of the design |
| CoMapping.AppIndexShape | src/system/design.cpp:24-29 | one `appIndex` entry per application, the last the last actor |
| CoMapping.VertexApp | src/system/design.cpp:642-652 | getApp on an MSAG vertex gives its application, a communication vertex its channel's destination's |
| CoMapping.CoMapped | src/system/design.cpp:668-697 | one set of co-mapped applications per application |
| CoMapping.CoMappedMeans | src/system/design.cpp:668-697 | b is co-mapped with a exactly when some actor links the two |
| CoMapping.CoMappedStep | src/system/design.cpp:676-696 | one actor adds to a exactly the application it links a to |
| CoMapping.CoMappedPair | src/system/design.cpp:668-697 | co-mapping is symmetric and irreflexive |
| CoMapping.CoMapLoop | src/system/design.cpp:668-697 | the loop computes `coMappedApps` as specified |
| CoMapping.CoMappedOk | src/system/design.cpp:668-697 | `coMappedApps` is a symmetric relation on the applications |
| CoMapping.CountLess | src/system/design.cpp:703-721 | checking off an application lowers `sum_unchecked` |
| CoMapping.CountMono | src/system/design.cpp:703-721 | checking off never raises it |
| CoMapping.CountZero | src/system/design.cpp:705 | a zero count means every application is checked off |
| CoMapping.CountNone | src/system/design.cpp:703-705 | with every application checked off the count is zero |
| CoMapping.CheckApp | src/system/design.cpp:654-660 | checks off `app`, adds exactly the applications it checks off to the group, leaves every one of them with its co-mapped applications checked off, and every one of them is transitively co-mapped with `app` |
| CoMapping.NeighboursAfterCall | src/system/design.cpp:657-659 | after a recursive call only `app` may still have unchecked neighbours |
| CoMapping.NeighboursClose | src/system/design.cpp:657-659 | after the loop every checked-off application's neighbours are checked off |
| CoMapping.UnionMember | src/system/design.cpp:700-725 | a group's member is in the union |
| CoMapping.UnionWitness | src/system/design.cpp:700-725 | a member of the union is in some group |
| CoMapping.SumUnchecked | src/system/design.cpp:703-704 | `sum_unchecked` counts the unchecked applications |
| CoMapping.GroupApps | src/system/design.cpp:700-725 | the groups partition the applications, are closed under co-mapping, and each group is exactly the applications transitively co-mapped with any of its members |
| CoMapping.ConnectedRefl | src/system/design.cpp:654-660 | every application is transitively co-mapped with itself |
| CoMapping.ConnectedPrepend | src/system/design.cpp:654-660 | co-mapping followed by transitive co-mapping is transitive co-mapping |
| CoMapping.ConnectedSymmetric | src/system/design.cpp:654-660 | transitive co-mapping is symmetric, because co-mapping is |
| CoMapping.ConnectedTransitive | src/system/design.cpp:654-660 | transitive co-mapping is transitive |
| CoMapping.WalkStaysInGroup | src/system/design.cpp:700-725 | no walk along co-mapping leaves a group closed under it |
| CoMapping.GroupsAreComponents | src/system/design.cpp:700-725 | in a closed partition whose groups are connected, each group is the component of each of its members |
| CoMapping.GroupPass | src/system/design.cpp:707-720 | one pass leaves every application checked off in some group |
| CoMapping.StatePartition | src/system/design.cpp:700-725 | once all are checked off the groups are a closed partition |
| CoMapping.GroupAdded | src/system/design.cpp:707-716 | a new group keeps the groups disjoint, non-empty and closed |
| Periods.MsagMapLoop | src/system/design.cpp:733-738 | `msagMap` maps every application to its group's number |
| Periods.Numbers | src/system/design.cpp:733-738 | group k has number k |
| Periods.LabelGroup | src/system/design.cpp:735-737 | writes the group's value at each of its applications, keeping earlier groups' |
| Periods.InOneGroup | src/system/design.cpp:733-738 | an application lies in exactly one group |
| Periods.HasGroup | src/system/design.cpp:733-738 | every application has a group |
| Periods.MsagIds | src/system/design.cpp:1043-1045 | `msagId` of a vertex is the group number of its application |
| Periods.GroupEdges | src/system/design.cpp:1019-1578 | graph k gets a sub-list of the edges |
| Periods.GroupEdgesMember | src/system/design.cpp:1019-1578 | an edge goes to graph k exactly when its home vertex has `msagId` k |
| Periods.EdgesOfGroup | src/system/design.cpp:1019-1578 | a group's graph is a sub-list of the edges |
| Periods.GroupEdgesOfGroup | src/system/design.cpp:1019-1578 | selecting by `msagId` selects the edges of the group's applications |
| Periods.SplitEdges | src/system/design.cpp:1019-1578 | one graph per group, each with the edges selected by `msagId` |
| Periods.McrLoop | src/system/design.cpp:763-782 | one maximum cycle ratio per group's graph |
| Periods.AssignPeriods | src/system/design.cpp:783-787 | every application of a group gets the group's cycle ratio |
| Periods.CalcPeriods | src/system/design.cpp:662-825 | fails exactly when the MSAG cannot be built; the groups are a closed partition, each the transitive co-mapping component of its members, and every application gets its group's cycle ratio |
| Periods.GroupPeriods | src/system/design.cpp:733-787 | the periods are those of the groups' graphs |
| Periods.SingleGroup | src/system/design.cpp:790-803 | one application forms a single closed group, which is its own component |
| Periods.SingleEdges | src/system/design.cpp:790-803 | one application's graph is the whole MSAG |
| Periods.PeriodsShared | src/system/design.cpp:662-825 | fails exactly when the MSAG cannot be built; otherwise every application's period is the cycle ratio of the MSAG edges of its transitive co-mapping component, so co-mapped applications get one period |
| Periods.ComponentPeriods | src/system/design.cpp:733-825 | periods given group by group, with the groups the components, are the cycle ratios of each application's component |
| Periods.SharedFromGroups | src/system/design.cpp:700-787 | periods given group by group over closed groups agree on co-mapped applications |
| Periods.CoMappedSamePeriod | src/system/design.cpp:700-787 | co-mapped applications lie in one group and so get the same period |
| Energy.Utilization | src/system/design.cpp:1606-1611 | with a positive period, the rounded-up scaled share of the period the WCETs take; otherwise 0 |
| Energy.SumWcetLoop | src/system/design.cpp:1590-1591 | per processor, the WCETs of its actors |
| Energy.ProcPeriodLoop | src/system/design.cpp:1602-1603 | per processor, the period of its highest-numbered actor's application |
| Energy.CalcEnergy | src/system/design.cpp:1587-1613 | each processor's utilization, and the energy as the sum of utilization times mode power |
| Energy.NoActorsNothing | src/system/design.cpp:1590-1603 | a processor without actors sums no WCET and has no period |
| Energy.NoActorsNoEnergy | src/system/design.cpp:1587-1613 | such a processor adds nothing to the energy |
| Energy.ProcPeriodIsLast | src/system/design.cpp:1602-1603 | the last actor on a processor decides its period |
| Energy.SumWcetBounds | src/system/design.cpp:1590-1591 | with non-negative WCETs a processor's sum lies between 0 and the total |
| Energy.EnergyNonNegative | src/system/design.cpp:1587-1613 | with non-negative WCETs, utilization bound and powers the energy is non-negative |
| Designs.CheckInputs | src/system/design.cpp:59-71 | succeeds exactly when every vector has the size the applications and platform demand; the mapping's message comes first |
| Designs.Design.constructor | src/system/design.cpp:4-30 | stores the decisions and derived vectors; no periods, energy 0 |
| Designs.Design.InputFits | src/system/design.hpp:81-108 | a valid design's vectors fit the MSAG construction |
| Designs.Design.GetPeriods | src/system/design.cpp:1614-1624 | fails exactly when the MSAG cannot be built, else keeps the periods: each application's is the cycle ratio of its transitive co-mapping component's edges, so co-mapped applications agree |
| Designs.Design.GetEnergy | src/system/design.cpp:1625-1629 | the energy of the stored periods, kept in `energy` |
| Designs.NewDesign | src/system/design.cpp:4-30 | succeeds exactly when the inputs fit and no WCET is negative; then a fresh valid design storing exactly the given decisions, the application index and the init_vectors vectors, with no periods and energy 0 |
| Designs.NewDesignDefaultBuffers | src/system/design.cpp:32-58 | as NewDesign with every send buffer 10 and every receive buffer 1: the same stored decisions and vectors |

## Left out

- Threads: `calc_fitness(t)` and `update(t)` run one chunk after another; the chunks are proved disjoint and covering, so no interleaving is modelled. The constructor requires at least one worker: `std::thread::hardware_concurrency()` may return 0, and src/metaheuristic/population.cpp:14 then divides by zero, which the model does not represent.
- Console and file output (`printDebug`, `cout`, the dot and CSV/TeX files written to disk): the plot texts are modelled, their writing is not.
- The Boost maximum cycle ratio: a parameter `mcr` from an edge list to an integer. Its `double` result stored in an `int` is that parameter's business.
- Per-group vertex renumbering of `constructMSAG(msagMap)`: each group's graph is its edge list on the global vertex numbers, which the cycle ratio does not depend on.
- The self-assignment `curr_graph = *b_msags[...]` in `constructMSAG(msagMap)` (src/system/design.cpp:1099): `curr_graph` is a reference to that same graph (a channel's source and its block vertex belong to one application), so the copy-assignment assigns the graph to itself and changes nothing; the model reads it as selecting that graph.
- `calc_periods` is modelled for one call per design; `b_msags` is never cleared in the source, so a second call would append further graphs.
- MsagBuild.ConstructMsag: the sending- and receiving-order searches run on fuel larger than the number of their states; where the source would loop for ever (an order that never returns to the interconnect) the model fails. It also fails where an actor's order wraps to an entry that is not an actor, which the source would read past `receivingActors` (Msag.NextEdge). In both cases Designs.Design.GetPeriods leaves every period 0.
- `unordered_map` and `std::set` iteration in `calc_periods` is taken as ascending; a different order only renumbers the groups.
- The `else` branches that insert a missing `coMappedApps` entry (src/system/design.cpp:684-688, 692-696) cannot run, because every application gets an entry first.
- getApp's final `return -1` is unreachable: `appIndex` ends with the last actor (CoMapping.GetApp proves the search always finds an entry).
- `channelMapping` and `receivingActors` are values of the MSAG result, not fields of Designs.Design.
- Energy.Utilization: `ceil` of a `float` quotient is computed over exact reals; single-precision rounding is not modelled.
- The TDMA timing tables and the dominance weights use exact reals for `slotLength`, `max_utilization` and the weights.
- `tdmaAlloc` holding a slot count per processor and the buffer vectors holding one entry per channel are caller guarantees (Designs.CallerGuarantees), as the callers in individual.cpp always pass them so.
- Every processor has at least one mode: an assumption on the platform input, which is what makes `bring_to_bound(mode, 0, modes-1)` land in range.
- particle.cpp: the PSO float move (`rank_diff`, `rank_add`, which read an uninitialised index), `opposite` (a no-op), `evaluate_oppositions`, `average_speed`, `no_converged_*` and `replace_converged_particles` are not part of this model; Speeds.NewSpeed models only the initial speed.
- `std::sort` with `dominate` as comparator (`select_fittest`, `merge_main_opposite`): not a strict weak order, and unused by the search loop.
- Populations.Population.SortPopulation: the `std::sort` of the population with `dominate` (src/metaheuristic/ga_population.cpp:106) is left out, as `dominate` is not a strict weak order; the pairs are drawn among the first `thresh` individuals in the population's current order, not among the fittest.
- Populations.Population.ArchiveGeneration: archives with the corrected `update_pareto` (Archive.ParetoFront.UpdatePareto, first row of the findings), so its front never keeps a member the new position dominates, as the code as written can. The same holds for Populations.Population.ArchivePosition, Populations.Population.ArchiveNext, Populations.Population.ArchivePositions, Populations.ArchivedStep and the folds FrontFold and FrontImproves.
- adse.cpp, the `Platform` constructors and XML reading, `speedUp` and the other plain getters are not part of this model.
- Functions declared but not defined in the source (`get_slack_memory`, `is_converged`, the violation counters, `cross_proc_deadlock`) are parameters of the model.
- `random_weight` and the random-number library: every random draw is nondeterministic choice, so every property holds for every outcome.
- Individuals.Individual.InitRandom: the TDMA allocation is drawn with the processor distribution, as written, not with a slot distribution.

## Where the code and its documentation differ

- Positions.Dominate: in multi-objective mode a position dominates an equal one (all objectives `<=`), so dominance is reflexive there rather than a strict order; the model follows the code and proves Positions.MultiObjectiveReflexive.
- Populations.Population.Search keeps `last_update` in a local variable (src/metaheuristic/population.cpp:30) while `termination()` reads the member; the model follows the code, so termination sees the member's value, which the search loop never updates.
- `update_pareto` is documented to replace dominated members (src/metaheuristic/population_data.hpp:58-60); the code can keep one (first row of the findings).
- Msag.NextReceiver models the `receivingActors` update as written, including the last test, which compares a channel number with a vertex number.
- Energy.ProcPeriodLoop: a processor takes the period of its highest-numbered actor's application, as written; the comment above that loop relies on co-mapped applications sharing a period, which Periods.CoMappedSamePeriod proves.

## Findings

| source | as written | input that shows it | evidently intended | confidence | as-written member | corrected member |
|---|---|---|---|---|---|---|
| src/metaheuristic/population_data.cpp:65-71 | `pareto.erase(pareto.begin()+i)` inside an index loop that then increments `i`, so the member after each erased one is never tested | front `[(5,1), (1,5)]` and new position `(0,0)`: `(5,1)` is erased, `(1,5)` moves to index 0 and is skipped, and the new front keeps it although `(0,0)` dominates it | every member the new position dominates is removed | high, not executed | Archive.ParetoFront.UpdateParetoAsWritten, Archive.EraseSkippingKeepsDominated | Archive.ParetoFront.UpdatePareto, Archive.UpdateKeepsNonDominated |
| src/platform/platform.cpp:263 | `if(id > compNodes.size())` throws only past the end | `id == nodes()` passes the guard and reads `compNodes[nodes()]` | `id >= compNodes.size()` throws | high, not executed | Platforms.ProcModelAdmitsEnd | Platforms.GetProcModel |
| src/metaheuristic/position.cpp:501 | `if(indx > (int) domain.size())` | index 2 on a two-value domain (or index -1) is accepted, and `value()` then reads outside the domain | `indx < 0 \|\| indx >= domain.size()` throws | high, not executed | Domains.Domain.SetIndexAsWritten, Domains.SetIndexAdmitsEnd | Domains.Domain.SetIndex, Domains.SetIndexAcceptedHasValue |
| src/metaheuristic/plot.cpp:83 | `i < titles.size()-2` on `size_t` | one title: the bound wraps round to 2^64 - 1 and the loop reads `titles[1]` past the end | at most `titles.size()-2` figures, none with fewer than two titles | high, not executed | Plots.FigureCountWraps | Plots.FigureCount, Plots.Plot.CreateTex |
| src/metaheuristic/population.cpp:84-97 | the search never calls `sort_population` or `new_population` (defined at src/metaheuristic/ga_population.cpp:99-122), so `parents` stays the empty vector the constructor leaves and the offspring never replace the population | any genetic search with at least one individual and `no_generations >= 2` (so that the update step of generation 0 runs): that update step reads `parents[start_id]` of an empty vector (src/metaheuristic/ga_population.cpp:58-60) | each update step draws the parents first and installs the offspring after | high, not executed | Populations.Population.EmptyParentsOutOfRange | Populations.Population.Generation, Populations.Population.Breed |
