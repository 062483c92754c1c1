# Trip planner: a verified model

This project models the planning engine of the trip planner and its job queue, and proves what they
promise. A brief (days, month, budget, interests or an anchor) is turned into an itinerary in five
stages: retrieve candidates from the database, compose a draft, validate it, route it, assemble it. A
language model may compose, but nothing it says is trusted. A greedy composer of our own is the fall-back.
Plans are made by workers that take jobs from a PostgreSQL table.

Code that works step by step is written as methods and classes over mutable fields (the composer's day
loop, the validator, the repair driver, the job table, the leg resolver and its memo table, the region
loader, the road matrix, the migration runner, the itinerary store). Each is proved equal to a
specification function or against a declarative rule, and the theorems are about those. What such a function
means is said once more without it, in the columns, minutes and metres it works on (`Preferences`,
`DayMinutes`, `RetrievedRows`, `Diagnosis`, `RoutedBeds`, `ItineraryFacts`, `QueueWaits`).

| file | subject |
|---|---|
| `Util`, `Domain`, `Tour` | library pieces, the entities, the repeated-nearest order |
| `Validate`, `DayMinutes` | stage 3: the rules of a draft, and the loop that checks them; the minutes of a day |
| `ComposeGreedy`, `ComposeProofs`, `Preferences` | stage 2: the greedy composer, why its drafts are valid, whom it prefers |
| `NoBeds`, `MisfitTrips`, `Counterexamples` | the trip without a bed: when no day is empty, trips with items that fit no day, accepted briefs it fails |
| `Pipeline` | the try / repair / fall-back driver around an arbitrary model |
| `Retrieval`, `RetrievedRows` | stage 1, and what it hands over in terms of the rows |
| `Feasibility`, `Diagnosis` | the pre-flight diagnosis, its advice, and what each reason means |
| `RegionPaths`, `LikePrefix`, `RegionScope` | the materialised region paths, ancestry by `LIKE`, the scope of retrieval over a loaded tree |
| `Routing`, `RoutedBeds`, `TravelStore`, `Replay`, `Osrm` | stage 4, the beds of a plan, the leg table, planning twice, the road matrix |
| `EndToEnd`, `Engine` | the stages joined up |
| `Assemble`, `ItineraryFacts`, `AuditTrail` | stage 5, what its times, prices and warnings come from, saving and the audit trail |
| `JobQueue`, `Worker`, `WorkerTurns` | the job table, what a worker does with a job, each call as a step of the protocol |
| `QueueProtocol`, `QueueProgress`, `QueueLimit`, `QueueWaits` | every interleaving of workers and crashes, progress, the limit on attempts, the waits between them |
| `Migrations` | the checksummed migration log |

How things are represented:

- A distance between two points is an abstract function to the reals: only comparisons matter. Leg
  distances are whole hundredths of a kilometre, since every provider rounds to two decimals. Minutes
  and paise are integers.
- The model is an oracle whose k-th answer is any draft or none. The table service's response, the SQL
  of a migration and the clock are arbitrary inputs.
- Each SQL statement is one atomic step. `ORDER BY` ties keep the table's order.
- What the tables' constraints guarantee (positive durations, ordered prices, ids as keys) is assumed
  only where a contract says so.

## What the proofs found

- **A reclaim is what breaks the queue.** No write of a worker checks who holds the row, so exclusivity
  holds throughout a run exactly when no reclaim hits a live holder (`ExclusiveIffLeaseKept`).
  `LateFailureReopensJob` is a run of ten steps in which a late failure re-queues a succeeded job, which
  then succeeds again.
- **Crashing jobs do not stop at `max_attempts`.** The comment in `reclaim_stale` says they do. For every n
  and every limit there is a run, each lease kept, in which a job that crashes its worker is started n
  times and waits to be started again (`CrashingJobNeverStops`). A job passes its limit exactly when it is
  claimed after it was put back with its attempts spent (`LimitPassedIff`); with the leases kept only a
  reclaim does that, so the guard it lacks, attempts < max_attempts, is the whole of the defect
  (`LimitPassedIffReclaimedSpent`). Claims never exceed the limit plus the reclaims (`RetriesAreBounded`),
  and that bound is attained for every number of reclaims (`BoundIsAttained`).
- **A slug with `_`, `%` or `\` breaks ancestry by `LIKE`.** Among regions with ordinary slugs the pattern of
  one picks out its subtree exactly when its path has none of those characters (`LikeMeansAncestryIff`).
  Nothing in the loader refuses them: for any two districts of a state that differ in one character, an
  underscore in the first, a brief for the first retrieves from the second (`ScopeTakesSibling`).
- **A slug with a slash breaks ancestry by prefix**, and exactly such a slug (`PrefixMeansAncestryIff`); the
  loader accepts it (`SlashForgesAncestry`). An empty slug or one with a slash, and nothing else, spoils
  the recovery of an ancestry from its path (`SegmentsRecoverAncestryIff`); when an anchor's district is still
  right is `DistrictIsSecondAncestorIff`.
- **Without a single stay our own draft can be invalid.** One lonely place in one region and m >= 3 in another,
  m + 1 days: the brief is accepted, and whatever the distances our own draft has an empty day
  (`LonelyPlaceBreaksTrip`). The comment on the day's share says front-loading is over; items that fit no
  day are counted in the share, so it is not (`MisfitsEatTheShare`). What suffices on every input
  (`BedlessPlanSuffices`), what is needed on every input (`BedlessPlanNeeds`), and the exact condition when
  everything fits where a region is visited again (`BedlessPlanIff`), or when only the share limits a day
  (`RoomyTripIff`).
- **From the second repair on, the model is misquoted.** It is sent its first draft with the newest
  draft's violations. Whatever the brief, two bad answers show it (`SecondRepairMisquotes`); every call
  of every job quotes its own draft exactly when at most one repair is allowed
  (`RepairsQuoteTheirDraftIff`). The default allows one.
- **A job can save its itinerary and still be retried.** When only its last call raises, the itinerary is there
  and the job is queued again (`RunJob`).
- **The suggested radius promises three places, not enough places.** It makes the brief feasible exactly
  when there are as many as days (`RadiusAdviceFeasibility`); for every trip of four days or more it can
  fall short (`RadiusAdviceCanFallShort`).
- **Month advice is empty talk for an interest brief without interests**, which stage 0 refuses
  (`NoInterestsNoMonth`); for every other brief it works (`MonthAdviceWorks`).
- **A free lower end of a night's price is lost**: a range from 0 to a positive price is charged as that
  price at both ends (`NightKeepsRange`).

## Model

| member | source | states |
|---|---|---|
| Validate.Validate | api/src/tripplan/engine/validate.py:82-241 | The loops report exactly the violations the rules call for, each code with its severity, ref and day; and the result is ok exactly when the draft meets the declarative rules |
| DayMinutes.StopAddsItsMinutes | api/src/tripplan/engine/validate.py:186-232 | One known stop more makes a day longer by just the minutes it takes |
| DayMinutes.LongDayIsReported | api/src/tripplan/engine/validate.py:186-232 | A day of known stops is reported as over the time budget, as an advisory naming that day, when its stops together take longer than a day lasts; for a valid draft exactly then |
| Validate.OkMeansValid | api/src/tripplan/engine/validate.py:58-71 | No fatal violation, exactly when: all refs known, day numbers a permutation of 1..days, stays are stays, items are not, nothing non-repeatable twice anywhere, no day with neither items nor bed |
| Validate.CoverIsPermutation | api/src/tripplan/engine/validate.py:105-137 | Pigeonhole behind the day-number checks: as many numbers as days that cover 1..days are exactly 1..days |
| Validate.DayNumbersOk | api/src/tripplan/engine/validate.py:105-137 | Count, duplicate and missing checks all silent, exactly when the numbers are a permutation of 1..days |
| Validate.CheckItems | api/src/tripplan/engine/validate.py:186-219 | The inner loop with its early continues: violations of the day's items, the set of refs seen so far across days, and the minutes added up |
| Validate.ValidImpliesOk | api/src/tripplan/engine/validate.py:82-241 | Whatever is reported against a valid draft is advisory |
| Tour.Greedy | api/src/tripplan/engine/routing.py:102-117 | The repeated-nearest loop returns a permutation in which every stop is at least as near as all later ones; removing by equality removes the chosen element |
| Tour.FromIsGreedy | api/src/tripplan/engine/compose_greedy.py:281-292 | The order is nearest-first from wherever one stands |
| Tour.FromPermutes | api/src/tripplan/engine/compose_greedy.py:281-292 | Nothing is lost or added by ordering |
| ComposeGreedy.BuildClusters | api/src/tripplan/engine/compose_greedy.py:67-75 | Grouping loop equals the specification of clusters by region |
| ComposeGreedy.ClustersPartition | api/src/tripplan/engine/compose_greedy.py:67-75 | The clusters partition places and activities by region: no region twice, none empty, each holding all of its region in order |
| ComposeGreedy.NearestStay | api/src/tripplan/engine/compose_greedy.py:98-106 | None exactly without stays, otherwise a stay no other is nearer than |
| ComposeGreedy.OrderClusters | api/src/tripplan/engine/compose_greedy.py:78-95 | Of any list of clusters: `days` of them or all, none left out stronger than one taken, each step to the nearest centroid among those still to come; and it is the tour the specification names |
| ComposeProofs.TourIsStrongestAndGreedy | api/src/tripplan/engine/compose_greedy.py:78-95 | The tour visits min(days, n) clusters once each, none left out scores higher than one taken in, each step goes to the nearest centroid |
| ComposeGreedy.FillDay | api/src/tripplan/engine/compose_greedy.py:180-195 | The day-fill loop with its two exits: picks, minutes spent and the updated `used` set |
| ComposeProofs.FillFacts | api/src/tripplan/engine/compose_greedy.py:180-195 | Never over the share or the budget, only pool items; fewer picks than the share means no unpicked pool item still fits |
| ComposeProofs.FillPicksOnce | api/src/tripplan/engine/compose_greedy.py:180-195 | Whatever the share and budget, nothing is picked twice on a day |
| ComposeProofs.FillStart | api/src/tripplan/engine/compose_greedy.py:180-195 | The day is empty exactly when no pool item fits; otherwise the first pick is the best of those that fit |
| ComposeGreedy.ComposeDay | api/src/tripplan/engine/compose_greedy.py:137-233 | One day from the `used` set of the days before it: its draft day and the `used` set after it |
| ComposeGreedy.Compose | api/src/tripplan/engine/compose_greedy.py:109-248 | The whole composer equals its specification, including the empty draft when there is nothing to do |
| ComposeProofs.DayFill | api/src/tripplan/engine/compose_greedy.py:154-195 | For each day of a composed trip: empty exactly when no item still to be had fits what the approach drive leaves; the first pick is one no fitting item is ranked above; fewer stops than the share means nothing left over fits |
| Preferences.BestComeFirst | api/src/tripplan/engine/compose_greedy.py:160-195 | For each composed day, by the candidates' columns: no open item that fits has a greater match weight than the first stop, nor at equal weight a greater confidence, nor at equal confidence an earlier name; an open item left out that outranks some stop by weight or confidence did not fit beside the stops picked before it |
| Preferences.ShareIsLeast | api/src/tripplan/engine/compose_greedy.py:164-178 | The day's intake is the least number, one at least, that taken on every day left would empty the pool |
| Preferences.DriveIsTakenOff | api/src/tripplan/engine/compose_greedy.py:137-158 | A day is left what its opening drive leaves of it, never less than nothing: from the origin on day 1, else from the day before's cluster, each cluster standing where its member nearest to its middle is |
| Preferences.MeanBalances | api/src/tripplan/engine/compose_greedy.py:55-58 | The middle of some candidates is the one point around which their latitudes and longitudes balance |
| ComposeProofs.StopsFacts | api/src/tripplan/engine/compose_greedy.py:154-195 | For each day of a composed trip: only items still to be had, none twice, within the share and within the budget |
| ComposeProofs.PickedOnce | api/src/tripplan/engine/compose_greedy.py:137-195 | A stop picked on two days is repeatable |
| ComposeProofs.BedsResolve | api/src/tripplan/engine/compose_greedy.py:202-233 | Every composed day names a real stay, none nearer to the middle of its stops, when there is one, and none otherwise |
| ComposeProofs.DayVisitsNearestFirst | api/src/tripplan/engine/compose_greedy.py:197-200 | The composed day's stops, three or more, are visited nearest-first from the origin on day 1 and from the cluster's middle later; one or two as they were picked |
| ComposeProofs.ScoreIsTopThree | api/src/tripplan/engine/compose_greedy.py:61-64 | A cluster's strength is the sum of its three greatest match weights |
| ComposeProofs.ComposedValidIff | api/src/tripplan/engine/compose_greedy.py:109-248 | The deterministic draft passes validation exactly when there is something to do and either a stay or a stop on every day |
| ComposeProofs.MinutesAtMostSpend | api/src/tripplan/engine/validate.py:186-232 | The validator's minutes (unknown is 0) never exceed the composer's (unknown or 0 is 90) |
| DayMinutes.SpendIsMinutesAndNineties | api/src/tripplan/engine/compose_greedy.py:180-195 | The composer's minutes are the validator's and ninety for each stop of unknown or zero duration; with all durations known and positive the two are equal |
| ComposeProofs.ComposedNeverOverfull | api/src/tripplan/engine/validate.py:186-232 | The deterministic draft never draws the time-budget warning |
| NoBeds.ShareLeavesEnough | api/src/tripplan/engine/compose_greedy.py:164-178 | With m items for each visit, taking the day's share leaves m for each visit to come, for every m |
| NoBeds.FirstVisitEmptyIff | api/src/tripplan/engine/compose_greedy.py:137-195 | On every input: the first day in each cluster is empty exactly when nothing in the cluster fits that day |
| NoBeds.EnoughToSpare | api/src/tripplan/engine/compose_greedy.py:137-195 | On every input: a cluster with something repeatable that always fits, or with one item more than its misfits for each visit, has none of its days empty |
| NoBeds.NoEmptyDayNeeds | api/src/tripplan/engine/compose_greedy.py:137-195 | On every input: if no day is empty, each toured cluster has something repeatable or an item for each visit, and each day's cluster holds something that fits the day |
| NoBeds.LeftCoversVisits | api/src/tripplan/engine/compose_greedy.py:137-195 | Invariant across all days: with m items per visit to begin with, the pool left always holds m for each visit left |
| NoBeds.VisitsArePaidFor | api/src/tripplan/engine/compose_greedy.py:137-195 | Conversely, if no day is empty, a cluster without repeatables has given up an item per visit |
| NoBeds.NoEmptyDayIff | api/src/tripplan/engine/compose_greedy.py:137-195 | When every item fits where its cluster is visited again: no day is empty exactly when each cluster visited once has an item that fits, and each visited more often has something repeatable or an item per visit |
| MisfitTrips.RoomyTripIff | api/src/tripplan/engine/compose_greedy.py:164-195 | One region, nothing repeatable, only the share limiting a day: no day is empty exactly when there are days * (misfits + 1) items |
| Counterexamples.LonelyPlaceBreaksTrip | api/src/tripplan/engine/compose_greedy.py:137-195 | For every m >= 3 and all distances, travel times and day lengths: a retrievable two-region brief without beds that the pre-flight accepts and our own draft fails |
| Counterexamples.MisfitsEatTheShare | api/src/tripplan/engine/compose_greedy.py:164-178 | For every u >= 1 and f <= u + 1: f short places and u that fit no day, two days, no driving; the brief is accepted, and the share leaves the second day empty |
| Pipeline.AcceptedIsFirstGood | api/src/tripplan/engine/pipeline.py:213-254 | Which answer is taken: the first valid one with no refusal before it; none exactly when a refusal or the end comes first |
| Pipeline.TryModel | api/src/tripplan/engine/pipeline.py:213-254 | Exactly as many calls as it takes: up to the first good answer or the first refusal, at most 1 + max_repair_attempts; each asks for a first draft or for a repair of the first answer quoting the latest one's fatal violations; the answer taken, or the reason to fall back |
| Pipeline.ComposeAndValidate | api/src/tripplan/engine/pipeline.py:192-270 | For any model: what leaves stage 3 is valid, it is the model's exactly when an answer was accepted, otherwise our own, and it fails exactly when our own draft would have a hole |
| Pipeline.FallbackNeverFails | api/src/tripplan/engine/pipeline.py:256-270 | With something to do and a stay our own draft is always accepted, and nothing but an empty day is ever held against it |
| Pipeline.RepairsQuoteTheirDraftIff | api/src/tripplan/engine/pipeline.py:230-237 | Every call of every job, whatever the model answers, quotes violations of the draft it sends exactly when at most one repair is allowed |
| Pipeline.SecondRepairMisquotes | api/src/tripplan/engine/pipeline.py:230-237 | For every brief and all candidates: after an empty draft and one with day 1 twice, the second repair quotes a violation the draft it sends does not have |
| Retrieval.FetchCandidates | api/src/tripplan/store/pois.py:143-244 | Filtered, ranked, capped rows numbered from 1 under the kind's letter; nothing for an unknown district |
| RetrievedRows.SelectedRowIsWanted | api/src/tripplan/store/pois.py:163-205 | Every row selected is published, of the kind, without best months or open in the month asked for, without a cost band or within the budget, inside the radius or under the district's path, and carries a requested tag where one is needed |
| RetrievedRows.FiltersAreExact | api/src/tripplan/store/pois.py:163-205 | A row selected for one month, budget or radius is selected for another exactly when it is open in that month, no dearer than that budget, within that radius |
| RetrievedRows.TagsAreExact | api/src/tripplan/store/pois.py:163-205 | With other tags: places and activities of an interest brief exactly when they carry one, stays and everything in the other modes regardless |
| RetrievedRows.FetchedAreRows | api/src/tripplan/store/pois.py:143-244 | As many candidates as the cap allows of the rows selected; the i-th is its row column by column, under the kind's letter and the number i in decimal |
| RetrievedRows.FetchedInOrder | api/src/tripplan/store/pois.py:106-140 | In the order of the mode: weight then distance near an anchor, confidence then weight for a district, weight then confidence otherwise, then by name |
| RetrievedRows.LeftOutComesLater | api/src/tripplan/store/pois.py:143-244 | A selected row that is not handed over was cut off by a full cap and could have stood before none of those handed over |
| RetrievedRows.MatchWeightIsGreatest | api/src/tripplan/store/pois.py:166-190 | The match weight is the greatest weight of a requested tag the row carries, or zero |
| Retrieval.RefInjective | api/src/tripplan/store/pois.py:213-219 | Letter plus decimal number: two refs are equal only for the same kind and index |
| Retrieval.RetrievedIsWellFormed | api/src/tripplan/store/pois.py:322-345 | All refs of a candidate set are distinct and each list is of its own kind |
| Retrieval.RankedKeepsBest | api/src/tripplan/store/pois.py:106-140 | The cap never drops a row that ranks before one it keeps, in each of the three orders |
| Feasibility.RadiusThatWouldWork | api/src/tripplan/store/pois.py:751-780 | The least offered radius, wider than the one asked for, with three places inside; none exactly when there is no such radius |
| Feasibility.Diagnose | api/src/tripplan/store/pois.py:573-748 | The whole verdict in every case, one cause each, with the months and interests it suggests, and that the last else is unreachable |
| Diagnosis.ReasonIsTheBlocker | api/src/tripplan/store/pois.py:573-675 | For a brief nothing matches, each reason exactly when it is the case: nothing in scope at all (by radius or not); something, but nothing of interest; something of interest, but all closed in the month; something open, but all dearer than the budget |
| Diagnosis.MonthsAreThoseOnOffer | api/src/tripplan/store/pois.py:678-715 | A brief defeated by its interests, the season or the budget is told all the months from 1 to 12 in which something in scope, affordable and carrying a requested tag, if any is, would be open, and no others |
| Feasibility.CarryingIsExact | api/src/tripplan/store/pois.py:718-748 | What a suggestion is counted by is what asking for that interest alone would match |
| Feasibility.SuggestedInOrder | api/src/tripplan/store/pois.py:718-748 | Most on offer first, then by display order |
| Feasibility.InterestAdviceWorks | api/src/tripplan/store/pois.py:718-748 | Asking for a suggested interest instead leaves at least three matches |
| Feasibility.SuggestionsAreBest | api/src/tripplan/store/pois.py:718-748 | An interest with enough on offer is left out only when six are named, none with less on offer |
| Feasibility.NoInterestHelpsElsewhere | api/src/tripplan/store/pois.py:718-748 | Outside interest mode a brief that matches nothing is suggested no interest |
| Feasibility.ExactIsWhatIsRetrieved | api/src/tripplan/store/pois.py:590-632 | In all three modes the count behind the verdict is the uncapped number of retrieved places and activities |
| Feasibility.BudgetAdviceWorks | api/src/tripplan/store/pois.py:667-669 | The band named is above the one asked for, and a band leaves a match exactly when it is at least that one |
| Feasibility.MonthAdviceWorks | api/src/tripplan/store/pois.py:678-715 | Adopting a suggested month leaves a match, and the asked month is not suggested when nothing matches |
| Feasibility.MonthAdviceIsComplete | api/src/tripplan/store/pois.py:678-715 | For an interest brief the suggestions are all the months that would work |
| Feasibility.NoInterestsNoMonth | api/src/tripplan/store/pois.py:690-699 | For an interest brief without interests no month works |
| Feasibility.MaxDaysIsLongestFeasible | api/src/tripplan/store/pois.py:646-649 | The length named is feasible, shorter than asked, and the longest that is |
| Feasibility.RadiusAdviceFeasibility | api/src/tripplan/store/pois.py:751-780 | Adopting the radius counts what the advice counted, at least three: feasible for trips of up to three days |
| Feasibility.RadiusAdviceCanFallShort | api/src/tripplan/store/pois.py:751-780 | For every trip of four days or more, over a symmetric distance that is zero only between equal points, data for which the advised radius is not enough |
| EndToEnd.EnoughRetrieved | api/src/tripplan/store/pois.py:632-645 | A feasible verdict and caps of at least `days`: retrieval keeps an entry per day |
| EndToEnd.FeasibleBriefIsPlannable | api/src/tripplan/engine/compose_greedy.py:109-248 | Unchanged data and a feasible verdict: our own draft is valid whenever there is a stay, or one region with everything fitting or one item more than there are misfits for each day |
| EndToEnd.BedlessPlanSuffices | api/src/tripplan/engine/compose_greedy.py:137-195 | Every trip without beds: enough to spare in each toured region, misfits and all, makes our own draft valid |
| EndToEnd.BedlessPlanNeeds | api/src/tripplan/engine/compose_greedy.py:137-195 | Every trip without beds: what a valid draft of our own requires of each toured region and each day |
| EndToEnd.BedlessPlanIff | api/src/tripplan/engine/compose_greedy.py:137-195 | For the retrieved candidates of a brief without stays, when everything fits where a region is visited again: our own draft is valid exactly when there is something to do and each toured region can serve its visits |
| RegionPaths.Loader.Upsert | api/src/tripplan/store/seed.py:157-196 | The recursion writes each node's path under its slug, counts it, and fails exactly at a slug already seen |
| RegionPaths.Loader.LoadRegions | api/src/tripplan/store/seed.py:144-201 | One transaction: all paths written and other rows kept, or, on a repeated slug, nothing |
| RegionPaths.FreshIffDistinct | api/src/tripplan/store/seed.py:159-165 | The trees rejected are exactly those with a repeated slug |
| RegionPaths.EntriesMatchTree | api/src/tripplan/store/seed.py:157-196 | What the recursion writes is, node for node, the path of the node's ancestry |
| RegionPaths.PathPrefixIffParts | api/src/tripplan/store/seed.py:167-168 | For any slugs at all: a path is a prefix of another exactly when its slash-separated parts are a prefix of the other's |
| RegionPaths.PrefixIffAncestry | api/src/tripplan/store/seed.py:167-168 | Slugs without a slash: a path is a prefix of another exactly when its ancestry is a prefix of the other's |
| RegionPaths.PrefixMeansAncestryIff | api/src/tripplan/store/seed.py:167-168 | The prefix test of a node is ancestry among slash-free regions exactly when its own slugs have no slash |
| RegionPaths.SlashForgesAncestry | api/src/tripplan/store/seed.py:157-196 | For any x and y the loader accepts roots x and x/y, and the first one's path is a prefix of the unrelated other's |
| RegionPaths.SegmentsRecoverAncestryIff | api/src/tripplan/store/pois.py:440-444 | Splitting a path and dropping empties gives back the exact ancestry exactly when every slug is non-empty and has no slash |
| RegionPaths.DistrictIsSecondAncestor | api/src/tripplan/store/pois.py:440-444 | The anchor's district is its depth-1 ancestor, or the root itself, whatever the deeper slugs are |
| RegionPaths.DistrictIsSecondAncestorIff | api/src/tripplan/store/pois.py:440-444 | For any slugs r and d: every anchor below them is given the district d exactly when r is one segment and d is clean, or r itself holds d as its second segment |
| RegionPaths.LoadedPathsMeanAncestry | api/src/tripplan/store/seed.py:144-201 | After loading any accepted forest: a stored prefix means a prefix of parts; between slash-free nodes, ancestor or same node; and splitting a stored path gives the node's ancestry exactly when its slugs are clean |
| LikePrefix.LikeIsAncestry | api/src/tripplan/store/pois.py:124-127 | Slash-free slugs and a path without `%`, `_` and `\`: LIKE path plus percent means ancestor or same node |
| LikePrefix.LikeMeansAncestryIff | api/src/tripplan/store/pois.py:124-127 | For a region with clean slugs: LIKE picks out its subtree among all clean paths exactly when its path has none of LIKE's special characters |
| LikePrefix.LoneBackslashMatchesNothing | api/src/tripplan/store/pois.py:124-127 | A slug that is a single backslash: the region's pattern matches no clean path, not even its own |
| LikePrefix.UnderscoreClaimsSibling | api/src/tripplan/store/pois.py:124-127 | For any state and any two of its districts that differ in one character, an underscore in the first: the loader accepts them and the first one's pattern matches the second's path |
| RegionScope.ScopeIsSubtree | api/src/tripplan/store/pois.py:100-140 | Over a loaded forest, by district or by interest: a row is in scope of retrieval exactly when its region is the district or below it, given slash-free slugs and a plain district path |
| RegionScope.ScopeTakesSibling | api/src/tripplan/store/pois.py:100-140 | A brief for a district with an underscore retrieves the rows of such a sibling |
| TravelStore.TravelTable.SaveLeg | api/src/tripplan/store/travel.py:81-100 | Upsert by (from, to, source); a self-pair changes nothing |
| TravelStore.TravelTable.LoadLegs | api/src/tripplan/store/travel.py:21-78 | Folding the rows in any order yields, per pair of the places, the usable row of the best source not worse than the floor, and no other pair |
| TravelStore.LoadedIsBest | api/src/tripplan/store/travel.py:21-78 | For two of the places: the row of the maps service, else of the road matrix, else the estimate, no further down than the provider now measuring; nothing when there is no such row |
| Routing.LegResolver.Between | api/src/tripplan/engine/routing.py:71-99 | A leg depends on the hop alone; the cache is what was loaded plus what was computed, no pair computed twice, no self-pair |
| Routing.Weakest | api/src/tripplan/engine/routing.py:231-244 | The worst-ranked source present; the placeholder for none |
| Routing.RouteDay | api/src/tripplan/engine/routing.py:141-212 | One day's loop equals its specification: order, legs, totals, sources, where it ends |
| Routing.Route | api/src/tripplan/engine/routing.py:120-228 | All days and the run home equal the plan's specification, with the resolver left coherent |
| Routing.DayConservesAndOrders | api/src/tripplan/engine/routing.py:141-212 | A routed day holds exactly the draft day's items, nearest-first from where the day starts, labelled with the worst source of all its legs including the run to the bed |
| Routing.KnownItemsAllResolve | api/src/tripplan/engine/routing.py:141-144 | When every ref is known, as in a validated draft, every item is routed: one candidate per item, in the draft's order before sorting |
| RoutedBeds.DayKeepsItsBed | api/src/tripplan/engine/routing.py:141-228 | The plan of a validated draft has one day for each of the draft's under its number, with the same stops and exactly the stay it names, none for no name or an empty one; its travel includes the drive to that bed, the next day sets out from it, and after the last day the way home does |
| Routing.PlanIsClosedWalk | api/src/tripplan/engine/routing.py:120-228 | The plan is one closed walk from the origin through all stops and beds in day order; its totals are those of the walk |
| Routing.PersistComputedLegs | api/src/tripplan/engine/routing.py:272-275 | All computed legs are saved, and counted |
| Routing.ReloadAgrees | api/src/tripplan/engine/routing.py:254-275 | After saving, loading with the same floor returns exactly the resolver's cache without the legs worse than the floor: estimates saved under a better provider do not resurface |
| Replay.ReplanIsStable | api/src/tripplan/engine/routing.py:254-275 | The same draft routed from the reloaded legs gives the same plan |
| Engine.MeasurePlan | api/src/tripplan/engine/pipeline.py:125-129 | Load, route, persist: the plan is the specified one, and any later load from the table measures it the same |
| Engine.DaysAreMeasured | api/src/tripplan/engine/pipeline.py:112-123 | The composer's time left of a day is what the provider's own minutes for its opening drive leave of it |
| Engine.DaysAreNearestFirst | api/src/tripplan/engine/routing.py:141-212 | By the store's own distance each routed day's stops lie nearest first from where the day sets out |
| Engine.Generate | api/src/tripplan/engine/pipeline.py:61-129 | A plan comes out exactly when there is something to do and either an accepted answer or a draft of our own without holes; its draft is valid; a failure leaves the leg table alone; planning again from the legs left behind gives the same plan |
| Osrm.UniqueKeepsFirsts | api/src/tripplan/routing/osrm.py:93-120 | The points sent: the first point of every key, no key lost |
| Osrm.OsrmProvider.Warm | api/src/tripplan/routing/osrm.py:93-159 | Any ragged, null or missing response: exactly the ordered pairs of the first ninety places with both cells present are learned, each counted once |
| Osrm.CellsAreLearned | api/src/tripplan/routing/osrm.py:121-159 | For two places sent: with both cells there, the leg is the distance cell in hundredths of a kilometre and the duration cell in minutes; otherwise the pair is as it was |
| Osrm.SentIsCapped | api/src/tripplan/routing/osrm.py:93-120 | The places sent are the first ninety of different key, or all |
| Osrm.OsrmProvider.Leg | api/src/tripplan/routing/osrm.py:82-91 | A leg is called measured exactly when the ends are one place or the pair was learned; otherwise it is the estimate, labelled as one, and one miss |
| Osrm.MeasuredIff | api/src/tripplan/routing/osrm.py:82-159 | From an empty matrix, a pair is measured exactly when both places were sent and both cells came back |
| Assemble.AssembleDay | api/src/tripplan/engine/assemble.py:128-210 | The time cursor: each stop's slot and clamped start, when the day ends, and its late-finish and long-travel warnings |
| Assemble.AssembleAll | api/src/tripplan/engine/assemble.py:104-283 | All pages, the trip's cost, and the whole list of warnings in order: days too late or too long, every advisory of stage 3 under its own code, unmet interests, permits by day, unverified entries, the fall-back composer |
| Assemble.AdvisoriesAreForeseen | api/src/tripplan/engine/assemble.py:211-227 | No advisory the validator can report falls through to the default code |
| ItineraryFacts.WarningsHaveCause | api/src/tripplan/engine/assemble.py:167-283 | Each warning is there exactly when there is cause, and names just what gives it: a day over after 19:30, travel over the limit, each advisory of stage 3, the unmet interests, the stops needing a permit that day, the stops and beds not verified, the fall-back composer |
| Assemble.TimesAscend | api/src/tripplan/engine/assemble.py:128-156 | Slots are 1..n; clamped start times never decrease |
| ItineraryFacts.StartsAddUp | api/src/tripplan/engine/assemble.py:128-156 | A stop's time is the day's start, all legs up to it and the time at all stops before it added up, shown as 23:59 at the latest |
| Assemble.HhmmReadsBack | api/src/tripplan/engine/assemble.py:49-58 | A formatted time parses back to the clamped minute |
| Assemble.RoomsIsLeast | api/src/tripplan/engine/assemble.py:82-84 | The least number of rooms, at least one, that holds the party |
| Assemble.NightKeepsRange | api/src/tripplan/engine/assemble.py:61-66 | A night's price keeps its upper end, and its lower end unless that is zero under a positive price |
| Assemble.EstimateIsOrdered | api/src/tripplan/engine/assemble.py:87-101 | With prices the tables accept, the estimate's lower end is never above its upper end |
| ItineraryFacts.StopCostsPerHead | api/src/tripplan/engine/assemble.py:87-95 | A stop more costs its row's range for each of the party; one end stands for both where the other is missing, nothing where both are |
| ItineraryFacts.NightCostsPerRoom | api/src/tripplan/engine/assemble.py:82-101 | A night costs its rate for each of the least number of rooms that holds the party, two to a room where the row does not say; no stay or no rate costs nothing |
| AuditTrail.ItineraryStore.Save | api/src/tripplan/store/itineraries.py:63-118 | The next version of the request, and an audit row per reference with conflicts ignored |
| AuditTrail.LatestIsMax | api/src/tripplan/store/itineraries.py:75-78 | The version a save counts on from is the greatest of the request's versions, zero when it has none |
| AuditTrail.SaveKeepsContiguous | api/src/tripplan/store/itineraries.py:75-78 | A request's versions stay 1..n through any saves |
| AuditTrail.NothingDropped | api/src/tripplan/store/itineraries.py:107-118 | With distinct (day, slot) keys the trail is exactly the references, other itineraries untouched |
| AuditTrail.ConflictsAreIgnored | api/src/tripplan/store/itineraries.py:107-118 | A row that is there stays as it is, whatever is saved; a new one holds some reference under its own key |
| AuditTrail.ValidatedIsAudited | api/src/tripplan/domain/models.py:400-411 | For a validated draft every stop and bed of every routed day is found in the trail, and a bedless day has no bed row |
| JobQueue.JobTable.Enqueue | api/src/tripplan/jobs/queue.py:49-55 | A fresh queued row: due at once, never started, nobody's, with the table's limit on attempts |
| JobQueue.JobTable.Claim | api/src/tripplan/jobs/queue.py:58-96 | None exactly when nothing is runnable; otherwise a queued and due row, none such with an earlier run_after or, at the same, an earlier creation, is locked and its attempt counted, its error cleared, and no other row changes |
| JobQueue.JobTable.Succeed | api/src/tripplan/jobs/queue.py:103-112 | The row is closed whoever holds it |
| JobQueue.JobTable.Fail | api/src/tripplan/jobs/queue.py:115-185 | Retried with doubling back-off unless permanent or on the final attempt, else parked; attempts unchanged |
| QueueWaits.RetryWaits | api/src/tripplan/jobs/queue.py:134-160 | With every lease kept: after a failure the job waits, by its row and the clock, ten seconds doubled once for each time it had gone back to the queue before |
| QueueWaits.FirstRetryWaitsTen | api/src/tripplan/jobs/queue.py:134-160 | So its first retry waits ten seconds |
| QueueWaits.LaterRetryWaitsTwice | api/src/tripplan/jobs/queue.py:134-160 | And a later one twice as long as the one before it |
| QueueWaits.ScheduleIsAttained | api/src/tripplan/jobs/queue.py:134-160 | For every max_attempts: a run with every lease kept in which a job uses up its retries and waits exactly 10 * (2^(max_attempts-1) - 1) seconds, the clock showing that |
| JobQueue.JobTable.ReclaimStale | api/src/tripplan/jobs/queue.py:188-212 | Exactly the running rows with too old a lock are re-queued |
| Worker.PlanAndSave | api/src/tripplan/jobs/worker.py:95-98 | Up to the last call: nothing saved, or the next version of a valid draft with every stop and bed on record; no other job's row touched |
| Worker.RunJob | api/src/tripplan/jobs/worker.py:81-119 | For every exception at every call: a missing request and an engine error park at once, anything else is retried, attempts unchanged; an itinerary is saved exactly when the job finishes or only its last call raises |
| Worker.ExceptionsAreHandled | api/src/tripplan/jobs/worker.py:81-119 | The row after each exception at each call: parked as request_missing or engine_error whatever attempts are left; retried under the exception's own name if it is a database, network or time-out error, as unexpected otherwise, while attempts are left; else succeeded |
| WorkerTurns.EnqueueIsStep | api/src/tripplan/jobs/queue.py:49-55 | Inserting a job is an enabled step of the protocol, with the table's limit on attempts |
| WorkerTurns.ClaimIsStep | api/src/tripplan/jobs/queue.py:58-96 | A claim is an enabled step, and nothing is claimed exactly when no job is runnable |
| WorkerTurns.ReclaimIsStep | api/src/tripplan/jobs/queue.py:188-212 | A reclaim is a step, and the ids it returns are those the history records |
| WorkerTurns.SetStageIsStep | api/src/tripplan/jobs/queue.py:99-100 | Setting the stage of a held job is the holder's step |
| WorkerTurns.SucceedIsStep | api/src/tripplan/jobs/queue.py:103-112 | Reporting a success is the holder's step |
| WorkerTurns.FailIsStep | api/src/tripplan/jobs/queue.py:115-185 | Reporting a failure is the holder's step, recorded as a retry exactly when the call says it retries |
| WorkerTurns.Turn | api/src/tripplan/jobs/worker.py:58-119 | One pass of the loop, undisturbed: a legal run that reclaims, claims, works and writes what its ending demands, leaving the worker without a job |
| QueueProtocol.StepKeepsExclusiveIff | api/src/tripplan/jobs/queue.py:99-212 | From an exclusive state a step leads to an exclusive state exactly when it does not reclaim a live holder's row |
| QueueProtocol.StepKeepsInv | api/src/tripplan/jobs/queue.py:49-212 | Every step of every worker keeps the invariant that ties rows, holders and history together, lease or not |
| QueueProtocol.ExclusiveIffLeaseKept | api/src/tripplan/config.py:145-147 | Over every interleaving: each live holder owns its row throughout exactly when no reclaim ever hits one |
| QueueProtocol.TerminalIsAbsorbing | api/src/tripplan/jobs/queue.py:103-185 | Under the lease, a succeeded or failed row never changes again |
| QueueProtocol.JobsCompleteOnce | api/src/tripplan/jobs/queue.py:103-185 | Under the lease, a job is finished for good at most once |
| QueueProtocol.RetriesAreBounded | api/src/tripplan/jobs/queue.py:134-204 | In every run: attempts are claims, at most max_attempts plus reclaims; back-off in all at most 10 * (2^(max_attempts-1) - 1) seconds |
| QueueLimit.CrashingJobNeverStops | api/src/tripplan/jobs/queue.py:188-212 | For every n and every max_attempts: a run with every lease kept in which a crashing job is claimed n times and queued again |
| QueueLimit.BoundIsAttained | api/src/tripplan/jobs/queue.py:188-212 | For every max_attempts and every number of reclaims: a run, leases kept, with exactly max_attempts plus reclaims claims |
| QueueLimit.LimitPassedIff | api/src/tripplan/jobs/queue.py:58-212 | In every run: a job was started more often than allowed exactly when it was claimed after being put back with its attempts spent |
| QueueLimit.OnlyReclaimsPutBack | api/src/tripplan/jobs/queue.py:134-212 | With every lease kept, only a reclaim puts such a job back |
| QueueLimit.LimitPassedIffReclaimedSpent | api/src/tripplan/jobs/queue.py:188-212 | With every lease kept: started more often than allowed exactly when claimed after a reclaim at attempts >= max_attempts, the case the missing guard would exclude |
| QueueProgress.LateFailureReopensJob | api/src/tripplan/jobs/queue.py:134-177 | Without the lease: a run in which a late failure re-queues a succeeded job, which then succeeds again |
| QueueProgress.CrashFreeRunsProgress | api/src/tripplan/jobs/worker.py:49-119 | Without crashes no reclaim touches a job and every claim or ending uses up a bounded measure |
| QueueProgress.CrashFreeJobsTerminate | api/src/tripplan/jobs/queue.py:58-185 | Without crashes a job is claimed at most max_attempts times, and once claimed that often and not running it is finished for good |
| QueueProgress.NothingOvertakes | api/src/tripplan/jobs/queue.py:64-154 | Once a job is overdue no step but a reclaim puts another ahead of it |
| QueueProgress.NoStarvation | api/src/tripplan/jobs/queue.py:64-154 | Between reclaims an overdue job is passed over by at most as many claims as jobs were ahead of it, and some claim is always possible |
| Migrations.Database.ApplyMigrations | api/src/tripplan/db.py:138-171 | One run, cut off after any number of commits or not, equals its specification: log, schema, names applied, how it ended |
| Migrations.CrashesDoNotMatter | api/src/tripplan/db.py:138-171 | However often runs are cut off, one that is not ends with the same log, schema and verdict as one uninterrupted run |
| Migrations.RerunIsNoOp | api/src/tripplan/db.py:138-171 | A further run on unchanged files changes and applies nothing |
| Migrations.AppliesPendingInOrder | api/src/tripplan/db.py:152-171 | Pending files are applied in filename order without gaps, all of them on completion |
| Migrations.LogGainsApplied | api/src/tripplan/db.py:164-171 | The log gains exactly the applied files, with the content they have on disk |
| Migrations.RefusedIffChanged | api/src/tripplan/db.py:153-160 | Unless a migration itself fails, the run is refused exactly when an applied file still on disk has changed, and the pending files before that one were applied |
| Migrations.DiscoverIsCanonical | api/src/tripplan/db.py:125-135 | The apply order does not depend on the order of the directory listing |
| Migrations.DiscoveredByName | api/src/tripplan/db.py:125-135 | The order is by name: where two names first differ, the earlier file's has ended or has the smaller character |

## Left out

- The HTTP layer, the command line, the front end, rendering, logging and connection pools: plumbing.
- Prompts, the adapters of the language models, photographs, bookings, the marketplace, guides, publishing and the other seed loaders: remote calls, or members with one branch.
- Titles, narratives, reasons, messages and the wording and order of violations: prose; `Validate` is exact about which violations are reported.
- The sines of `haversine_km`, floating-point rounding of coordinates and sums, and route geometry: distances are abstract, legs are integers.
- Ties in `ORDER BY` and collations: equal keys keep the table's order and names compare by code point; the database may choose otherwise. The claim statement's ties are arbitrary in the model too.
- `FOR UPDATE SKIP LOCKED` overlaps inside one statement: statements are atomic here, so two claims in flight are two steps in some order.
- `search_anchors`: a search by name; its results meet the planner only through `resolve_anchor`.
- The UNIQUE constraint on region paths while rows of an older tree are still stored.
- A call of a worker that raises halfway, after part of its effect: a call that raises has had none here.
- A lost acknowledgement: a `succeed` that took effect while its caller saw an error, and would then report a failure.
- The deletion of requests with their jobs, smallint overflow of attempts, and the polling loop with its signals.
- `region_ref` failing after candidates were found: the district was known to retrieval, so that branch cannot be reached on unchanged data.
- A row of the table service's answer that is itself null, or a body that is not an object: the source raises there; rows are lists here.
- Two saves of one request at the same moment, which the UNIQUE constraint on (request, version) turns into an error.
- A migration that cannot run in a transaction, and the creation of the log table itself.
- Feasibility.MonthAdviceIsComplete: claims completeness only in interest mode, because outside it the suggestions ask for tags that retrieval would not require, so a month that works may go unmentioned.
- EndToEnd.FeasibleBriefIsPlannable: needs caps of at least `days` on both lists, because retrieval may otherwise drop below the count the verdict was based on.
- EndToEnd.BedlessPlanIff: is exact only when everything fits where a region is visited again, because otherwise which items are left depends on the order of the pool and on what each day can hold; BedlessPlanSuffices and BedlessPlanNeeds hold on every input.
- NoBeds.NoEmptyDayIff: the same restriction; EnoughToSpare and NoEmptyDayNeeds have none.
- WorkerTurns.Turn: takes a pass with no other worker's write in between; the calls one by one are steps in any state.
- LikePrefix.LikeIsAncestry: is about slash-free slugs; the other slugs are covered by PathPrefixIffParts.
