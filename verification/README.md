# InWheel API: a verified model

A Dafny model of the parts of the InWheel API whose correctness does not show in any one function:

1. **Identity resolution and the retry queue.** Records from external sources are matched against places (`Normalization`, `Score`, `Matching`), attached or queued (`Sweeping`, `Unmatched`), and re-matched after each canonical ingest, but only near the places that ingest touched (`Batching`, `Pipeline`, `MissedSweeps`). The main results: the 50 m candidate fetch decides as if every compatible place were scored; the touched-only sweep drains the same rows, with the same band and confidence, as a sweep of the whole queue; and over every error-free run the queue holds only records that no current place matches.
2. **Accessibility profiles under concurrency.** `UpsertProfile` and `UpsertProfileIngestion` run as statements under READ COMMITTED, any number of them interleaved (`ProfileRace`, `ProfilePatches`), over the JSON Merge Patch algebra (`MergePatch`) and the rule engine (`A11y`, `Profiles`, `PlaceApi`). The main results: the committed row is always that of some serial order of the calls that returned; two attempts suffice; exactly one call creates; non-conflicting PATCHes all survive; audit flags are always current; an ingestion can overwrite a verified row exactly when a PATCH commits between its read and its write, and otherwise only PATCHes change one.
3. **Paging, search and rate limits.** Keyset pages over a table that changes between requests, with cursors that go through their text form (`Paging`, `Pagination`, `Numerals`, `Base64`), ILIKE search over escaped text (`LikePattern`), and token buckets with idle eviction (`RateLimiting`).

`Folds` reorders commuting updates, `Models` and `Wrappers` hold shared types. Objects that the program updates in place are classes whose methods are proved against specification functions; what is promised of those functions is proved as lemmas.

`dafny verify dfyconfig.toml` checks everything.

## Assumptions

- Scores, distances and token counts are exact reals; rounding is not modelled. Haversine and PostGIS distance are arbitrary functions. Where a result needs them non-negative, symmetric, or haversine at least 0.9 times the PostGIS distance, its `requires` says so.
- The Unicode tables are a parameter (`Alphabet`): a character-wise fold that is idempotent and leaves spaces alone. Case folding in ILIKE is character-wise and neither makes nor changes `\`, `%` and `_`.
- PostgreSQL: one statement is atomic; transactions run under READ COMMITTED; `SELECT ... FOR UPDATE` waits for the row lock; an INSERT waits for a rival uncommitted INSERT of the same unique key; a unique violation rolls the transaction back; ties in `ORDER BY` and rows of an unordered SELECT come in any order. UUIDs the database draws are fresh.
- Merge patches follow section 2 of RFC 7396; token buckets follow the rule golang.org/x/time/rate documents; base64url follows section 5 of RFC 4648.
- Marshalling a profile to JSON and back is a parameter (`Codec`). Where patches are followed through typed rows, the result requires that what the server writes shows under its own members only (`KeepsServerMembers`) and that a patch names none of these and comes through unmarshalling unaltered (`Carries`).
- Every database call may fail (the `fault` parameters); a failed call has no effect. Clocks are parameters: one reading per operation, and one per row of a sweep.
- A *clean* sweep, ingest or run is one in which no database call fails and no candidate fetch is cut by its limit of 32. A queued record is *hopeless* when no eligible place reaches 0.55.

## Where the documentation and the code disagree

- `internal/place/README.md:50` says that `UpsertBatch` does not touch `external_ids`. The code lists the column among those it overwrites (`internal/place/repository.go:57-59`): `Places.ReingestReplacesRefs`.
- `internal/identity/README.md:89` says that the next ingest reconsiders the queue rows of a failed sweep. The code considers only rows near places that the next ingest touches: `MissedSweeps.FailedSweepIsNotCaughtUp` is a run in which the row stays behind, `Pipeline.MissedRowIsNotReconsidered` the general fact.
- The `user_verified` gate reads without a lock (`internal/place/repository.go:217`, unlike line 148), so under READ COMMITTED an ingestion can overwrite the components of a profile that a PATCH has just verified: `ProfilePatches.UnlockedReadLosesPatch`; `ProfileRace.GateHoldsIffNoPatchBetween` says exactly when.

## Model

| member | source | states |
|---|---|---|
| Normalization.Normalize | internal/identity/normalize.go:32-65 | the loop over runes and the suffix filter return the tokens the specification names |
| Normalization.TokensAreClean | internal/identity/normalize.go:17-65 | every token is a non-empty run of folded letters and digits, and none is a business suffix |
| Normalization.TokensSplitAtSeparator | internal/identity/normalize.go:32-65 | any character that folds to neither letter nor digit separates: the tokens of both sides, in order, and no others |
| Normalization.TokensOfWord | internal/identity/normalize.go:17-65 | a text that folds to letters and digits is the one token it folds to, unless that is one of the eight suffixes or empty |
| Normalization.FieldsSplitAtSpace | internal/identity/normalize.go:50 | splitting distributes over a space between any two texts; with FieldsOfWord this determines it everywhere |
| Normalization.FieldsOfWord | internal/identity/normalize.go:50 | a non-empty text without spaces is its own single field |
| Normalization.NormalizeIsIdempotent | internal/identity/normalize.go:32-65 | normalizing the joined tokens of any text gives the same tokens |
| Score.DistanceScoreRange | internal/identity/score.go:34-42 | in [0,1], and at least d exactly when the distance is at most 50(1-d) metres |
| Score.TokenSet | internal/identity/score.go:78-84 | the loop returns the set of its tokens |
| Score.IntersectionSize | internal/identity/score.go:65-70 | the counting loop returns the size of the intersection |
| Score.NameScore | internal/identity/score.go:57-76 | equals the Jaccard similarity of the two token sets, empty sides included |
| Score.JaccardRange | internal/identity/score.go:57-76 | name similarity is in [0,1], symmetric, and 1 exactly for equal non-empty token sets |
| Score.JaccardIsShare | internal/identity/score.go:57-76 | name similarity times the number of all tokens is the number of shared ones |
| Score.JaccardTriangle | internal/identity/score.go:57-76 | 1 minus the name similarity satisfies the triangle inequality for all names |
| Score.StreetsMatch | internal/identity/score.go:101-113 | true exactly when both streets normalize to the same token sequence |
| Score.AddressMeans | internal/identity/score.go:86-99 | dropped exactly when a street is missing; 0 when the streets differ, 1 exactly when the house numbers agree too, otherwise 0.5 |
| Score.DroppedRescales | internal/identity/score.go:115-126 | without an address the score is (0.5 distance + 0.4 name) / 0.9 |
| Score.PresentWeighs | internal/identity/score.go:115-126 | with an address the signals weigh 0.5, 0.4 and 0.1 |
| Score.CombinedScoreRange | internal/identity/score.go:115-126 | signals in [0,1] give a score in [0,1] |
| Score.CombinedScoreMonotone | internal/identity/score.go:115-126 | the score is monotone in every signal |
| Score.ComputeScore | internal/identity/matcher.go:51-60 | scoring with the loops above equals the specified score of a candidate |
| Score.ScoreMeans | internal/identity/matcher.go:51-60 | a candidate's score case by case, from both positions, both names, and the street and house number tags |
| Score.ScoreRange | internal/identity/matcher.go:51-60 | every candidate scores in [0,1] |
| Score.ScoreBoundsDistance | internal/identity/score.go:14-32 | 0.55 or more forces at most 45 m; 0.80 or more forces at most 20 m and name similarity of at least 1/2 |
| Matching.CompatibleIsEquivalence | internal/identity/compat.go:14-36 | compatibility of categories is reflexive, symmetric and transitive |
| Matching.CompatibleMeans | internal/identity/compat.go:14-36 | categories are compatible exactly when equal or both among cafe, restaurant and bar |
| Matching.Decide | internal/identity/matcher.go:31-48 | the argmax loop picks the first candidate of maximal score, in the band of its score; NoMatch exactly when none reaches 0.55 |
| Matching.ChoiceIsUnique | internal/identity/matcher.go:31-48 | scores determine the decision |
| Matching.ChosenMeans | internal/identity/decision.go:11-43 | NoMatch: every candidate is below 0.55; otherwise the named candidate has the reported confidence and at least 0.55 |
| Matching.ChoiceMeans | internal/identity/matcher.go:31-48 | a decision names the first candidate that no other beats; Confident from 0.8, LowConfidence from 0.55, NoMatch exactly when none reaches 0.55 |
| Matching.Match | internal/identity/matcher.go:20-49 | reaches the decision of some answer the database may give; fails exactly when the fetch fails |
| Matching.AnswerMeans | internal/identity/matcher.go:20-60 | every answer of Match: its kind by its confidence, a stored active compatible place within 50 m; Confident means within 20 m and name similarity of at least 1/2 |
| Matching.BlockingLosesNoMatch | internal/identity/matcher.go:20-49 | with at most 32 places in the circle, matching within 50 m gives the kind and confidence of scoring every active compatible place in any order |
| Matching.UncutAnswersAgree | internal/identity/matcher.go:20-49 | with at most 32 places in the circle, every order of ties gives the same kind and confidence |
| Places.PlaceRepository.UpsertBatch | internal/place/repository.go:42-66 | all rows of the batch are written and their ids returned, or nothing changed; fails exactly on a fault, a repeated key in the batch or a taken primary key |
| Places.UpsertRowSound | internal/place/repository.go:42-66 | an upsert keeps ids and OSM keys unique, and a row without an id never fails |
| Places.UpsertRowPicks | internal/place/repository.go:42-66 | an upsert writes the row of the same non-zero OSM id and type, else a new one under the id brought or drawn; it fails exactly for an id already used |
| Places.UpsertRowEffect | internal/place/repository.go:42-66 | only the row of the returned id changes; it holds the incoming columns and key, and an existing row keeps its source |
| Places.ReingestReplacesRefs | internal/place/repository.go:49-60 | a place that comes again keeps id, key and source but loses every attached reference it does not bring along |
| Places.UpsertAllEffect | internal/place/repository.go:42-66 | returned ids name the only rows a batch changed or added; no row disappears |
| Places.LastPlaceWins | internal/place/repository.go:42-66 | after a batch each row it wrote holds what the last place written to it brought |
| Places.UpsertAllConcat | internal/place/repository.go:42-66 | one batch and its halves one after the other do the same and return the same ids |
| Places.UpsertAllSucceeds | internal/place/repository.go:42-66 | places without ids never violate the primary key |
| Places.PlaceRepository.FindCandidates | internal/place/repository.go:68-93 | the nearest active places of the categories within the radius, nearest first, at most 32; none left out is nearer |
| Places.FetchMeans | internal/place/repository.go:68-93 | at most 32 active compatible rows within the radius by ascending distance; one that is missing is no nearer, and none is missing from fewer than 32 |
| Places.UncutFetch | internal/place/repository.go:68-93 | with at most 32 eligible places the fetch returns them all |
| Places.PlaceRepository.AttachExternalRef | internal/place/repository.go:95-123 | sets one key of one row's references and changes no other modelled column or row; fails for a missing place |
| Places.AttachesCommute | internal/place/repository.go:95-123 | attaches for different sources or to different places commute and all stay, as the package documentation promises |
| Unmatched.UnmatchedRepository.Enqueue | internal/unmatched/repository.go:30-59 | inserts, or refreshes the row of the same source key, whichever applies |
| Unmatched.EnqueuedEffect | internal/unmatched/repository.go:30-59 | afterwards one row carries the record's whole signal, its attempts went up by one or start fresh, and no other row changed |
| Unmatched.UnmatchedRepository.FindCandidatesNearTouched | internal/unmatched/repository.go:61-84 | each queue row within the radius of a touched place, once, and no other |
| Unmatched.ListedMeansNear | internal/unmatched/repository.go:61-84 | a row is listed exactly when a touched place that still exists lies within the radius |
| Unmatched.UnmatchedRepository.BumpAttempts | internal/unmatched/repository.go:86-102 | one more attempt on that row, or an error and no change |
| Unmatched.UnmatchedRepository.Delete | internal/unmatched/repository.go:104-117 | that row leaves, or an error and no change |
| Unmatched.AttemptsCountVisits | internal/unmatched/repository.go:30-102 | over every sequence of statements a row's attempts are 1 plus its re-enqueues and bumps since the statement that inserted it |
| Unmatched.CountVisitsMeans | internal/unmatched/repository.go:30-102 | the count used there is the number of statements that visit the row |
| Sweeping.AnswerIgnoresRefs | internal/identity/matcher.go:20-60 | attaching references never changes what Match may answer |
| Sweeping.Resolve | internal/identity/resolve.go:35-82 | a match attaches the reference to the named place, NoMatch enqueues; on an error nothing changed |
| Sweeping.EnqueueRoundTrips | internal/identity/sweep.go:60-70 | the record a sweep rebuilds from a queue row is the one Resolve enqueued, with {} for a missing payload |
| Sweeping.QueuedColumns | internal/identity/resolve.go:57-78 | each column of the row a record is queued as: its own fields, attempts 1, last tried now |
| Sweeping.SweepRow | internal/identity/sweep.go:58-109 | one iteration ends as its faults and the match call for; attach before delete, bump on NoMatch |
| Sweeping.OutcomeFollows | internal/identity/sweep.go:71-107 | which faults and which answer of Match each outcome of an iteration comes from |
| Sweeping.Sweep | internal/identity/sweep.go:43-112 | each row near a touched place is visited once, every outcome is what matching against the swept table calls for, and the counters count the outcomes |
| Sweeping.SweepAccounting | internal/identity/sweep.go:25-111 | Considered = Confident + LowConfidence + NoMatch + Errors for every pattern of faults |
| Sweeping.CountersMean | internal/identity/sweep.go:25-111 | each counter is the number of iterations that ended its way |
| Sweeping.SweepIsStatements | internal/identity/sweep.go:58-109 | what a sweep does to the queue is one delete per drained row and one bump per row without a match, in order |
| Sweeping.ReplayProgress | internal/identity/sweep.go:58-111 | a sweep changes places in their references only, rows in their attempts only, and removes exactly the drained rows |
| Sweeping.EachRowIsSweptOnce | internal/identity/sweep.go:58-109 | a listed row ends drained, or with one more attempt at the time of its iteration, or exactly as it was when its iteration failed |
| Sweeping.UnlistedRowIsKept | internal/identity/sweep.go:58-109 | a row the sweep does not list is not touched |
| Sweeping.LastAttachWins | internal/identity/sweep.go:79-88 | every reference of every place after a sweep is the one the last iteration to attach there wrote, also if its row could not be deleted, or the one it had |
| Sweeping.DeletedOnlyAfterAttach | internal/identity/sweep.go:58-111 | a row that left the queue was drained in one iteration that first put its own reference on the place Match named |
| Batching.Batcher.Sink | cmd/ingestion/batcher.go:28-35 | the stream grows by exactly this place and profile; the buffer stays below the batch size |
| Batching.Batcher.FlushNow | cmd/ingestion/batcher.go:37-65 | everything sunk so far is in the tables as if written in one go, and the buffer is empty |
| Batching.Batcher.FlushPlaces | cmd/ingestion/batcher.go:41-43 | the statement for one batch continues the ones before it and gives every buffered place an id |
| Batching.Batcher.WritePending | cmd/ingestion/batcher.go:45-61 | each profile is written to the id its own place got, and only writes that happened are counted |
| Batching.Batcher.WriteOne | cmd/ingestion/batcher.go:45-61 | one profile is written to its place's id and counted if it was written; a place without an id is passed over |
| Pipeline.FlushAll | cmd/ingestion/main.go:106-125 | the tables after a stream do not depend on the batch size; it cannot fail when OSM keys are distinct and no statement fails |
| Pipeline.RunCanonical | cmd/ingestion/main.go:106-159 | flush everything, each profile to its own place, then sweep near everything touched; a sweep that cannot start leaves the queue as it was and does not fail the run |
| Pipeline.RecordSink.Accept | cmd/ingestion/main.go:231-255 | a record is resolved in one step or changes nothing, and counts once under its outcome |
| Pipeline.MatchedRecordIsAttached | internal/identity/resolve.go:47-56 | a matched record's reference stands on the place Match named; every other reference, place and the queue are as they were |
| Pipeline.UnmatchedRecordIsQueued | internal/identity/resolve.go:57-78 | an unmatched record is queued column by column under its source key, with one attempt more than before or one; places and other rows are as they were |
| Pipeline.HopelessMeansNoMatch | internal/identity/matcher.go:20-49 | when no eligible place reaches 0.55 every answer of Match is NoMatch; if the fetch is not cut, NoMatch conversely means that none does |
| Pipeline.FarRowStaysHopeless | internal/unmatched/repository.go:61-84 | a hopeless row away from every touched place stays hopeless, even when places move away from it |
| Pipeline.SurvivesIffHopeless | internal/identity/sweep.go:46-112 | a row survives a clean sweep exactly when it was not considered or no place matches it |
| Pipeline.ResolveKeepsInvariant | internal/identity/resolve.go:35-82 | resolving a record keeps every queued row unmatchable |
| Pipeline.IngestKeepsInvariant | cmd/ingestion/main.go:106-159 | so does upserting any places and sweeping near the touched ones |
| Pipeline.QueueStaysDrained | internal/identity/sweep.go:43-112 | over every error-free run that cuts no fetch, Match answers NoMatch for every row in the queue |
| Pipeline.AttemptsOverRuns | internal/identity/sweep.go:43-112 | over every run, whatever fails in it, a queued row's attempts are 1 plus the arrivals of its record and the sweeps that found nothing for it since it was queued |
| Pipeline.TouchedSweepIsFullSweep | internal/identity/sweep.go:43-60 | sweeping near the touched places and sweeping the whole queue drain the same rows in the same band with the same confidence |
| Pipeline.ArrivalDrainsWaitingRow | internal/identity/sweep.go:43-112 | a clean ingest that brings or moves a place matching a queued record drains that record |
| Pipeline.MissedRowIsNotReconsidered | internal/identity/sweep.go:46-60 | a queued row that a place matches stays queued and matchable through any ingest that touches nothing near it and not that place |
| MissedSweeps.FailedSweepIsNotCaughtUp | cmd/ingestion/main.go:126-138 | for every world, record, matching place and other place away from it there is a run: queued on arrival, the matching place comes but its sweep fails, a clean ingest brings the other place, and the record is still queued though every answer of Match attaches it |
| MissedSweeps.SomeFailedSweepIsNotCaughtUp | cmd/ingestion/main.go:126-138 | and such worlds, records and places exist |
| MergePatch.MergeTwice | internal/place/repository.go:154-165 | applying a patch twice is applying it once |
| MergePatch.MergeCommutesIffAgree | internal/place/repository.go:154-165 | two patches commute on a document exactly when they never disagree at a shared path |
| MergePatch.MergeKeepsUnmentioned | internal/place/repository.go:154-165 | a path the patch does not reach keeps its value |
| MergePatch.MergeObeysPatch | internal/place/repository.go:154-165 | null removes, an object leaves an object, any other value is stored |
| MergePatch.OmitMember | internal/place/repository.go:154-165 | which members leaving some out removes, and that it does so at every depth |
| MergePatch.OmitMerge | internal/place/repository.go:154-165 | a patch that names no server member merges alike before and after leaving those members out |
| MergePatch.MergeAllAnyOrder | internal/place/repository.go:154-165 | pairwise agreeing patches give one document in every order |
| MergePatch.EveryPatchSurvives | internal/place/repository.go:154-165 | and each of them is still in effect in it |
| A11y.WithAuditFlags | internal/a11y/engine.go:62-83 | the profile object gets the flags of its own facts and keeps everything else |
| A11y.ComputeEffectiveProfile | internal/a11y/engine.go:85-149 | a fresh object: own components win, missing ones come from the parent and are marked with it; neither argument changes |
| A11y.FlaggedSettles | internal/a11y/engine.go:62-83 | flags after the rules are current, and the rules change nothing exactly when they already were |
| A11y.InheritanceFillsGaps | internal/a11y/engine.go:85-149 | each own component stays; each missing one, all of them without an own profile, is the parent's, marked as inherited from it |
| A11y.EffectiveKeepsTheRest | internal/a11y/engine.go:94-115 | everything else is the child's or zero, and the submitter is never shown |
| A11y.EffectiveIsCurrent | internal/a11y/engine.go:85-149 | inheriting from current profiles gives a current profile |
| A11y.EntranceFlagConditions | internal/a11y/engine.go:151-164 | each entrance flag fires exactly on its own bad value |
| A11y.SingleFlagConditions | internal/a11y/engine.go:166-194 | the pathway and the parking flag fire exactly on their own bad value |
| A11y.RestroomFlagConditions | internal/a11y/engine.go:174-186 | each restroom flag fires exactly on its own bad value |
| A11y.ElevatorFlagConditions | internal/a11y/engine.go:196-214 | each elevator flag fires exactly on its own bad value |
| A11y.OneFlagForEachBadValue | internal/a11y/engine.go:151-214 | the number of flags is the number of bad values |
| A11y.NoFlagsIffNoBadValue | internal/a11y/engine.go:151-214 | a current profile carries no flag exactly when no component holds a bad value: nothing unknown counts against a place |
| PlaceApi.Prepare | cmd/api/main.go:356-363 | what a PATCH does to the merged profile before it is stored |
| PlaceApi.PrepareCreated | cmd/api/main.go:301-309 | what CreatePlace does to a new place's profile before it is stored |
| PlaceApi.ReadAccessibility | cmd/api/main.go:323-344 | a place with a readable parent gets the effective profile under its own place id, any other its own profile |
| PlaceApi.PreparedIsCurrent | cmd/api/main.go:301-363 | API writes store current flags and are verified for every authenticated caller |
| Profiles.ProfileRepository.UpsertProfile | internal/place/repository.go:127-135 | with rivals inserting between its statements, the retry loop stores the merge of the row it found or lost to, and reports a violation only when the profile id is taken |
| Profiles.ProfileRepository.Attempt | internal/place/repository.go:137-205 | one attempt: place not found, rejected patch, unique violation or the merged row, each with the table it leaves |
| Profiles.PatchStores | internal/place/repository.go:172-202 | what a PATCH stores: merged facts and reports with current flags, stamps, and the id and place the row had |
| Profiles.PreparedMeans | cmd/api/main.go:301-363 | what every API write does to a profile, field by field |
| Profiles.ProfileRepository.UpsertProfileIngestion | internal/place/repository.go:207-253 | insert unverified, skip a verified row, or replace everything but id, place and verification |
| Profiles.WriteProfile | cmd/ingestion/main.go:114-117 | the ingestion binary flags a profile before it writes it |
| Profiles.IngestionRespectsVerified | internal/place/repository.go:207-253 | an ingestion write leaves verified rows and other places alone, never changes a verification and keeps flags current |
| Profiles.IngestionStores | internal/place/repository.go:220-247 | a write that is not skipped, field by field: a replaced row keeps id and place and loses its submission, a new one is unverified under its place |
| Profiles.WriteAllRespectsVerified | cmd/ingestion/batcher.go:45-61 | so does any number of them |
| Profiles.LastProfileWins | cmd/ingestion/batcher.go:45-61 | each unverified place ends with the last profile written for it |
| Profiles.WriteAllCounts | cmd/ingestion/batcher.go:45-61 | the profiles counted are those whose place was not verified |
| ProfileRace.RunKeepsInv | internal/place/repository.go:127-253 | in every reachable state locks, pending writes and results fit the committed row, which is that of the commit order |
| ProfileRace.TwoAttemptsSuffice | internal/place/repository.go:127-135 | in every interleaving a PATCH ends in a unique violation only if the id it would insert belongs to another place's profile |
| ProfileRace.FreshIdsNeverViolate | internal/place/repository.go:127-135 | in a run where inserted ids never belong to another place's profile no PATCH ends in a unique violation |
| ProfileRace.TakenIdFailsTwice | internal/place/repository.go:127-135 | a repository call with such an id and no row to update violates in both attempts; the HTTP schema makes the id read-only |
| ProfileRace.CommittedRowIsSerial | internal/place/repository.go:137-253 | the calls that returned, each once, run alone in commit order give the committed row |
| ProfileRace.ExactlyOneCreates | internal/place/repository.go:178-185 | if no profile existed exactly one returned call reports created, otherwise none does |
| ProfileRace.NoDeadlock | internal/place/repository.go:137-253 | while some call is unfinished, some call can take its next step |
| ProfileRace.CommittedRowKeeps | internal/place/repository.go:127-253 | what every call preserves holds of the committed row in every reachable state |
| ProfileRace.VerifiedSticks | internal/place/repository.go:210-253 | once verified, a row is verified for good, in every interleaving |
| ProfileRace.OverwriteMeetsVerified | internal/place/repository.go:217-236 | an ingestion that saw an unverified row is about to overwrite a verified one exactly when a PATCH committed after its read |
| ProfileRace.IngestWriteMeets | internal/place/repository.go:217-247 | an ingestion's write is pending over a verified row exactly when a PATCH has committed since its read |
| ProfileRace.GateHoldsIffNoPatchBetween | internal/place/repository.go:217-247 | over every run: no ingestion ever has a pending write over a verified row exactly when no PATCH commits between an ingestion's read and its write |
| ProfileRace.AtomicIngestionIsEnough | internal/place/repository.go:210-253 | ingestion writes that are one atomic step meet that condition |
| ProfileRace.VerifiedRowsAreSafe | internal/place/repository.go:207-253 | as long as no PATCH commits between an ingestion's read and its write, only PATCHes ever change a verified row; overlapping ingestions do no harm |
| ProfileRace.UnlockedReadOverwrites | internal/place/repository.go:217-247 | without that, this run overwrites what a PATCH has just committed |
| ProfilePatches.ConcurrentPatchesSurvive | internal/place/repository.go:127-205 | in every reachable state the document merges the patches of exactly the calls that have returned, once each, in commit order; if those pairwise agree, every order gives the same and each of them is still in effect |
| ProfilePatches.AllPatchesSurvive | internal/place/repository.go:127-205 | when all have returned, that is every patch once in some order, and agreeing patches all survive |
| ProfilePatches.PatchMergesInView | internal/place/repository.go:150-196 | a PATCH that reads, marshals, merges, unmarshals and stores a typed row merges its patch into what clients see of the row, and does nothing else to it |
| ProfilePatches.ProfilePatchesSurvive | internal/place/repository.go:127-205 | the result above on the stored typed rows: in every reachable state of any PATCHes the clients' view is the merge of exactly those that returned; rejected ones leave no trace |
| ProfilePatches.IngestCallIsRepositoryWrite | internal/place/repository.go:207-253 | an ingestion of the race run alone is the repository's write |
| ProfilePatches.PatchCallIsRepositoryWrite | internal/place/repository.go:137-205 | a PATCH of the race run alone is the repository's write |
| ProfilePatches.StoredFlagsAreCurrent | cmd/ingestion/main.go:114-117 | in every reachable state stored flags equal recomputed ones, and so do those of the effective profile read through any current parent |
| ProfilePatches.VerifiedProfileIsProtected | cmd/api/main.go:356-363 | a profile that an authenticated PATCH verified stays verified, and as long as no PATCH commits between an ingestion's read and its write only PATCHes change it |
| ProfilePatches.PatchBetweenBreaksGate | internal/place/repository.go:217-247 | in every run where a PATCH does commit in between, some ingestion has a pending write over a verified profile |
| ProfilePatches.UnlockedReadLosesPatch | internal/place/repository.go:207-253 | for every unverified row, ingested profile and merge there is a run that replaces the components a PATCH has just verified |
| RateLimiting.RateLimiter.Allow | internal/middleware/middleware.go:73-80 | admits exactly when the key, new or known, has a whole token, and then draws one |
| RateLimiting.RateLimiter.Sweep | internal/middleware/middleware.go:54-62 | the loop removes exactly the full buckets |
| RateLimiting.RateLimiter.RetryAfterSeconds | internal/middleware/middleware.go:64-71 | the ceiling of the refill period, 0 for a limiter that never refills |
| RateLimiting.RefillSeconds | internal/middleware/middleware.go:64-71 | the least whole number of seconds not below 1/rate |
| RateLimiting.AfterCallAvailable | internal/middleware/middleware.go:73-80 | a call costs its own key one token if admitted, and no other key anything |
| RateLimiting.AfterSweepAvailable | internal/middleware/middleware.go:54-62 | evicting full buckets, whichever of them are visited, changes what no key has available |
| RateLimiting.SweepLeaves | internal/middleware/middleware.go:54-62 | a sweep removes every full bucket it visits and leaves all others as they are |
| RateLimiting.EvictionIsInvisible | internal/middleware/middleware.go:54-80 | for every sequence of calls and sweeps with a non-decreasing clock the answers are those of a limiter that never evicts |
| RateLimiting.WindowBound | internal/middleware/middleware.go:73-80 | over every run, every key and every window of length T at most burst + rate * T calls are admitted |
| RateLimiting.FreshKeyGetsItsBurst | internal/middleware/middleware.go:73-80 | a new key is admitted exactly burst times at once |
| RateLimiting.RetryAfterIsEnough | internal/middleware/middleware.go:64-80 | after any run, a refused key that waits RetryAfterSeconds without other calls on it is admitted next |
| RateLimiting.RetryAfterIsLeast | internal/middleware/middleware.go:64-80 | a key that spent its last token is still refused any whole number of seconds earlier |
| LikePattern.EscapedMatchesItself | cmd/api/main.go:221-224 | escaped text followed by % matches exactly the texts that start with it |
| LikePattern.SearchMeansContains | cmd/api/main.go:256-258 | the ILIKE condition holds of a name exactly when q is a substring of it up to case, for every q and name |
| LikePattern.UnescapedOvermatches | cmd/api/main.go:221-224 | why q is escaped: a bare underscore finds every non-empty name, a bare percent sign every name |
| LikePattern.SearchNeverFails | cmd/api/main.go:256-258 | the pattern never ends in an escape, so PostgreSQL never rejects it |
| Base64.RoundTrip | internal/pagination/pagination.go:26-37 | decoding what was encoded gives every byte string back, through URL-safe characters only |
| Base64.TestVectors | internal/pagination/pagination.go:26-37 | known encodings of one, two and three bytes, without padding, and the two characters proper to base64url |
| Numerals.ReadWrite | internal/pagination/pagination.go:26-50 | fixed-width fields read back as written, whatever follows them |
| Numerals.RankIsInjective | cmd/api/main.go:248-254 | two texts of the same fields that order alike are equal |
| Numerals.RankIsMonotone | cmd/api/main.go:248 | the rank orders values by the first field in which they differ |
| Pagination.FractionRoundTrip | internal/pagination/pagination.go:29 | a fraction written without trailing zeros reads back exactly |
| Pagination.FractionText | internal/pagination/pagination.go:29 | no fraction for whole seconds, otherwise a point and digits that do not end in 0 |
| Pagination.TimeRoundTrip | internal/pagination/pagination.go:28-45 | every UTC time of years 0 to 9999 reads back exactly |
| Pagination.MonthLengths | internal/pagination/pagination.go:43 | the length of each month, leap years included |
| Pagination.TimeText | internal/pagination/pagination.go:29 | the text of a time, piece by piece |
| Pagination.UuidRoundTrip | internal/pagination/pagination.go:46-49 | every canonical UUID reads back exactly |
| Pagination.UuidText | internal/pagination/pagination.go:46-49 | the text of a UUID, group by group |
| Pagination.CursorRoundTrip | internal/pagination/pagination.go:26-51 | decoding an encoded cursor gives the time truncated to microseconds and the same id, and fails exactly when the id is no UUID |
| Pagination.TruncateMeans | internal/pagination/pagination.go:25-29 | truncation goes down to the microsecond and touches nothing else |
| Pagination.DecodeMeans | internal/pagination/pagination.go:33-51 | what each malformed cursor is rejected for and what a well-formed one means |
| Pagination.CursorIsUrlSafe | internal/pagination/pagination.go:28-31 | a cursor needs no escaping in a URL |
| Paging.ListPlaces | cmd/api/main.go:226-285 | rejects exactly the requests that validation rejects, fails when the query does, and otherwise returns the page that the request calls for |
| Paging.PlacesQueryMeans | internal/validation/validation.go:88-124 | validation accepts exactly the requests whose coordinates name one area, whose cursor decodes and whose q is not blank |
| Paging.AreaOf | cmd/api/main.go:263-270 | after validation the handler never reads a missing coordinate, and the condition it picks is the one area the request names |
| Paging.ReadPage | cmd/api/main.go:243-283 | fetching limit + 1 rows and truncating gives the first limit rows after the cursor, and a next cursor exactly when more are left |
| Paging.PageMeans | cmd/api/main.go:243-283 | a page row by row: at most limit or 20 rows, all asked for, after the cursor's row, in order; what is missing comes later, and exactly then there is a next cursor, to the last row |
| Paging.ListingsAreFaithful | cmd/api/main.go:248-282 | every next cursor decodes to the position of the last row, and ids break all ties |
| Paging.ListingIsOrdered | cmd/api/main.go:248-282 | across pages, whatever happens to the table, the listing is strictly ordered by its keys |
| Paging.InstantFollowsCalendar | cmd/api/main.go:248 | positions order exactly as calendar and clock do, to the microsecond |
| Paging.IdRankFollowsDigits | cmd/api/main.go:248 | and ids by their first differing group of digits |
| Paging.RowsAreListedInOrder | cmd/api/main.go:248-282 | across pages, whatever happens to the table, rows come by descending updated_at and within a microsecond by ascending id |
| Paging.StayingRowsAreListedOnce | cmd/api/main.go:248-282 | following next_cursor to the end lists every matching row that stays unchanged exactly once |
| Paging.SearchListsWhatWasAsked | cmd/api/main.go:226-285 | of the places that stay, exactly those that contain the search text in the area named are listed, once each |
| Paging.NoPlaceIsListedTwice | cmd/api/main.go:248-282 | while updated_at only moves forward no place is listed twice, however often it is edited |
| Paging.TraversalLength | cmd/api/main.go:278-283 | on a fixed table no traversal is longer than PagesNeeded pages, and it is complete exactly at that length: following next_cursor ends |
| Paging.PagesNeededIsCeiling | cmd/api/main.go:278-283 | which is max(1, ceil(n / limit)) |

## Left out

- HTTP routing, OpenAPI validation beyond the listing's limit, CORS, logging, audit log rows, configuration, registration and key revocation: no property beyond the code itself.
- PBF decoding, the OSM tag tables and rank rules, and the external source readers.
- PostGIS geometry, the haversine formula, floating-point rounding, Unicode normalization tables: parameters, see Assumptions.
- Completeness when more than 32 places lie in the circle: the fetch is cut, and the results that need an uncut fetch say so.
- A Resolver that runs while a Sweeper does, and sweeps by two processes at once: each Resolve and each canonical ingest is one step of a run.
- Races between evicting a bucket and a caller that has already loaded it: each call and each sweep is one step.
- Profiles.ProfileRepository.UpsertProfile: `merge` is any function; ProfilePatches.JsonMerge is the one the code uses. The returned profile is the stored row; in the code its id could differ if a client managed to patch the read-only id.
- Profiles.ProfileRepository.Attempt: what other transactions do between the look-up and the INSERT is summed up in the row they leave; ProfileRace interleaves them statement by statement.
- ProfileRace.VerifiedRowsAreSafe: the code does not enforce its condition; ProfileRace.GateHoldsIffNoPatchBetween shows it is exact.
- Places.PlaceRepository.UpsertBatch: created_at, updated_at, parent and geometry columns are not part of the place row; the places package's one Repository is split into PlaceRepository and ProfileRepository.
- Batching.Batcher.WritePending: a batcher without a profile writer is not modelled; the only caller always sets one.
- Pipeline.RunCanonical: the closing log line is dropped.
- RateLimiting.RateLimiter.RetryAfterSeconds: an overflowing conversion for rates near zero is not modelled.
- Pagination.CursorRoundTrip: years beyond 9999 are formatted with five digits by the code and rejected when read back; they are outside the model. Times with an offset and UUIDs in other forms are read by the parameter `Library`.
- Paging.ListPlaces: the PostGIS conditions are parameters, q comes trimmed, and the preloaded profiles are not part of the row.
- Places.PlaceRepository.AttachExternalRef: the statement also sets updated_at, a column the place row here does not have; the listing's row has it.
