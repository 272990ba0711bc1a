# A model of the MHED platform API

The Go API of the platform has four parts whose correctness is not visible in any one function.
This project models each of them in Dafny and proves what it is for.

* **E-mail verification** (`Mail*.dfy`). `MailModel` is a step system: the challenge and outbox
  tables, the `Enqueue` transactions in progress, the delivery workers and one clock. A run is any
  sequence of events, so that every interleaving of any number of callers and workers, every crash
  and every lost update is among the runs; an event that is not possible leaves the state alone.
  `MailService` is the same program as an object whose methods assign to the tables. It carries its run
  as a ghost field, so that its contracts can promise to callers what the theorems say of runs.
* **Evaluation of loadouts** (`GameData`, `Points`, `PointSources`, `Skills`, `CharmLegality`,
  `Evaluation`, `Fingerprint`, `Adapter`, `Reference`, `Acceptance`, `TotalSources`, `Remarks`, with `Folding`,
  `Sorting`, `Names`, `Verdicts`, `SmallGame`). `Evaluation.Evaluate`
  is a closed form over finite maps and sequences; `Adapter` and `Points.PointTable` are the program's
  loops, which take the entries of every Go map in an arbitrary order. The loops are proved to
  return the closed form, so that the result does not depend on the order. `Reference` says
  in terms of the loadout and the tables alone when a loadout is accepted, what its totals and points are
  and what is remarked about it; `Acceptance`, `TotalSources`, `PointSources` and `Remarks` prove that the
  closed form says the same.
* **The loadout store and its search** (`Loadout*.dfy`, `Text`). Again a step system and an object.
  A submission is validated and checked for duplicates first and written in a later transaction, and
  anything may happen in between.
* **Passwords** (`PasswordGenerator`, `PasswordHash`, `Base64`, `Text`). The shuffle in place, the
  policy, and printing and reading encoded hashes.

## What the model assumes

* There is one clock. `created_at`, `sent_at` and the like are start times of transactions, which may
  be earlier than the moment at which a transaction takes its lock or commits.
* Transactions commit atomically. Row locks, advisory locks, unique indexes and snapshots of single
  statements are those of PostgreSQL. A wrong guess and an outcome are saved by updates whose errors
  the program drops; the `saved` field of an event says whether the update took effect.
* `MailDelivery.LeaseKept` and `MailSources.OverlapKept` are assumptions about a run, named in the
  theorems that need them. The first: every worker records its outcome or is gone within the minute
  that its claim reserved. The second: at each moment at most k `Enqueue` transactions of one source
  are in progress.
* Digests, `lower`, the hash of a lock key and Argon2id are uninterpreted functions. A theorem that
  needs one to be injective, or of a certain length, says so.
* The game data and its version are fixed for a run: the update statement of `updateLoadout` does not
  write the `data_version` column (api/internal/httpapi/loadouts.go:185).

## What turned out not to hold

* Without the lease, an outbox row that was sent can return to the queue without its payload
  (`MailLateWorkers.LeaseNeeded`), or become a failed one (`MailLateWorkers.LateFailure`), because the
  outbox updates do not look at the status. A finished row stays as it is exactly as long as no saved
  outcome of a late worker writes something else over it (`MailLateWorkers.FinalRowsStayIff`). A row that
  has lost its payload this way is never delivered again (`MailLateWorkers.PoisonedStays`). Challenges are
  guarded, and their life cycle is proved without the lease.
* The documentation promises at most ten messages per source and hour (docs/EMAIL_ACCOUNT.md:26). The
  lock is on the address only. With at most k transactions of a source in progress the limit is 9 + k
  (`MailSources.OverlapBound`), which is reached (`MailOverlap.OverlapReached`), so that ten are guaranteed
  exactly when k is at most one (`MailOverlap.LimitMetIff`).
* Resolving a report changes a loadout's status and not its version. A versioned update replaces the
  row that was read, except that a moderator may have decided since (`LoadoutSafety.UpdateReplacesRow`), and
  undoes that decision exactly when it asks for another status (`LoadoutSafety.DecisionUndoneIff`).
  `LoadoutSafety.ModerationOverwritten` is such a run.

## Model

| member | source | states |
|---|---|---|
| `MailEnqueue.RequestsSpaced` | api/internal/mailservice/service.go:297-330 | in every run, two committed challenges for one folded address are created at least 60 s apart, in whatever order their transactions started and took the lock |
| `MailEnqueue.HourlyLimitHolds` | api/internal/mailservice/service.go:305-318 | in every run, every window of one hour holds at most five challenges of one folded address |
| `MailEnqueue.EnqueueInvHolds` | api/internal/mailservice/service.go:302-318 | in every run, a transaction past its lock holds the lock of its address and the counts it has read are still exact when it inserts |
| `MailSources.OverlapBound` | api/internal/mailservice/service.go:302-318 | if at most k transactions of a source are in progress at each moment, every window of one hour holds at most 9 + k of its challenges |
| `MailSources.SourceLimitHolds` | api/internal/mailservice/service.go:310-318 | without overlap, every window of one hour holds at most the ten challenges of one source that are promised |
| `MailOverlap.OverlapReached` | api/internal/mailservice/service.go:302-318 | a run with at most k overlapping transactions in which 9 + k challenges of one source have one creation time |
| `MailOverlap.LimitMetIff` | api/internal/mailservice/service.go:302-318 | with at most k overlapping transactions of a source the promised ten hold in every run exactly when k is at most one |
| `MailOverlap.ElevenInAnHour` | api/internal/mailservice/service.go:302-318 | an environment and a run with eleven challenges of one source in an hour, two of them overlapping |
| `MailChallenge.LifecycleHolds` | api/internal/mailservice/service.go:350-370 | between any two moments of any run, with late workers too, a challenge only moves queued, sent, used or failed in that order, keeps what was enqueued, keeps its dates once written, and is frozen once used or failed |
| `MailChallenge.MovesHold` | api/internal/mailservice/service.go:421-436 | a single event makes one of the four allowed moves or none, and removes no challenge |
| `MailChallenge.ChallengeInvHolds` | api/db/migrations/00004_email_accounts.sql:28-33 | status, attempts and the three dates of a challenge agree with one another in every reachable state |
| `MailChallenge.TallyHolds` | api/internal/mailservice/service.go:353-363 | the stored attempts are the comparisons of the run less the lost updates and the success, and a challenge is used exactly when one comparison succeeded |
| `MailChallenge.GuessesBounded` | api/internal/mailservice/service.go:353-361 | at most five comparisons besides those whose update was lost, at most one success, attempts in 0..5, and fewer than five while sent, so the guard on attempts never fires |
| `MailChallenge.NoComparisonAfterSuccess` | api/internal/mailservice/service.go:350-370 | after a success no continuation of the run compares a code with that challenge |
| `MailChallenge.SentAtRecorded` | api/internal/mailservice/service.go:421-431 | `sent_at` is the start time of a saved batch after an accepted delivery for that challenge in the run |
| `MailChallenge.SuccessFollowsAcceptance` | api/internal/mailservice/service.go:344-370 | a code verifies only with the stored digest and at most 600 s after an acceptance that the run recorded |
| `MailDelivery.OneWorkerPerRow` | api/internal/mailservice/service.go:398-411 | with the lease, at most one worker is in flight per row, its row is `sending` and carries its challenge, pending rows have payload and challenge, finished rows have no payload |
| `MailDelivery.FinalRowsStay` | api/internal/mailservice/service.go:421-441 | with the lease, a sent or failed row is never written again |
| `MailDelivery.DeliveriesBounded` | api/internal/mailservice/service.go:404-441 | with the lease, `attempt_count` is the number of claims, at most four more than the outcomes lost by crashes or failed updates, and successive claims are at least 15, 30, 60 and then 60 s apart |
| `MailDelivery.ProgressWithoutLoss` | api/internal/mailservice/service.go:433-441 | with the lease and nothing lost, at most four claims, and a row that nobody holds is finished or has 4 - attempts > 0 deliveries left |
| `MailDelivery.BackoffShiftBounded` | api/internal/mailservice/service.go:434-440 | a retry shifts by at most two, so the pause is 15, 30 or 60 s |
| `MailDelivery.GapValues` | api/internal/mailservice/service.go:406-439 | the least time to the next claim, by number of claims |
| `MailLateWorkers.FinalRowChangedIff` | api/internal/mailservice/service.go:421-441 | in any state, an event changes a finished row exactly when it is the saved outcome of a worker still working on it and its branch writes a different row |
| `MailLateWorkers.FinalRowsStayIff` | api/internal/mailservice/service.go:421-441 | in any continuation of any run, without the lease, a finished row stays exactly if no event of it does that |
| `MailLateWorkers.FinalRowRevivedIff` | api/internal/mailservice/service.go:433-441 | an event makes a finished row pending exactly when that outcome is a retry |
| `MailLateWorkers.PoisonedStays` | api/internal/mailservice/service.go:398-419 | a pending row without payload stays so in every continuation until a worker from before saves its outcome, and for ever if there is none |
| `MailLateWorkers.LeaseNeeded` | api/internal/mailservice/service.go:398-441 | a run in which a worker that outlives its lease puts a sent row back into the queue without payload |
| `MailLateWorkers.LateFailure` | api/internal/mailservice/service.go:433-437 | a run in which such a worker turns a sent row into a failed one |
| `MailContent.MailFitsChallenge` | api/internal/mailservice/service.go:289-322 | in every run, an outbox row goes to the address of its challenge, and the code and name in its payload are those the challenge stores, the code as its digest |
| `MailContent.DeliveredCodeVerifies` | api/internal/mailservice/service.go:333-420 | the code that a mail carries at any moment, entered later for its challenge with its purpose and user while that is sent and not expired, uses the challenge |
| `MailService.Service.CountSource` | api/internal/mailservice/service.go:310-312 | the number of committed challenges of the source in the hour before the transaction's start |
| `MailService.Service.Lock` | api/internal/mailservice/service.go:302-304 | granted exactly when the call waits and the key is free, and then no other call for the key is past its lock |
| `MailService.Service.Commit` | api/internal/mailservice/service.go:316-330 | refused exactly if the address has a challenge of the last minute or five of the last hour or the source's count is ten; otherwise both rows, with recipient, code and digest as requested, a minute from any other of the address and no hour with more than five; no other row changes and the lock is free |
| `MailService.Service.ClaimRow` | api/internal/mailservice/service.go:388-411 | the least due row is `sending` for a minute with one more attempt, no other row changes; with the lease a free worker claims whenever a row is due, is alone on its row, and attempts exceed four at most by the lost outcomes |
| `MailService.Service.FinishDelivery` | api/internal/mailservice/service.go:421-441 | which of sent, failed and retry is recorded, and what each writes: payload, dates, pause of 15, 30 or 60 s; with the lease no finished row is written again, and even without it no used or failed challenge changes |
| `MailService.Service.FailChallengeOf` | api/internal/mailservice/service.go:435-437 | the second update of a final failure changes at most one challenge, from queued to failed |
| `MailService.Service.RecordTest` | api/internal/mailservice/service.go:261-282 | a test message leaves a finished row without challenge and payload, sent without an error or failed with one |
| `MailService.Service.VerifyCode` | api/internal/mailservice/service.go:333-371 | another purpose or user is an invalid code and changes nothing; not sent or too late is expired; a wrong code counts and fails the challenge at the fifth; the right one is verified if saved, for the first time in the run and at most 600 s after a recorded acceptance |
| `MailService.Service.Run` | api/internal/mailservice/service.go:284-441 | any schedule of the methods reaches the state of the run that the theorems speak about |
| `Points.PointTable.AddPoint` | api/internal/game/mh3g/adapter.go:411-416 | one cell gains the points, missing rows and cells count as zero |
| `Points.PointTable.AddArmour` | api/internal/game/mh3g/adapter.go:262-264 | the armour's skills added in any order give one table |
| `Points.PointTable.ApplyTorsoUp` | api/internal/game/mh3g/adapter.go:417-432 | run in place over markers and rows in any order, it gives the closed form |
| `Points.TorsoUpTotals` | api/internal/game/mh3g/adapter.go:417-432 | each row but the markers gains its chest value once at each non-chest slot with a positive marker, so each total grows by the number of such slots times the chest value; chest cells and markers stay |
| `Points.DecorationOrderIrrelevant` | api/internal/game/mh3g/adapter.go:370-398 | permuted decorations add the same points, use the same holes and are all known or not |
| `Acceptance.AcceptedIff` | api/internal/game/mh3g/adapter.go:188-313 | a loadout is accepted exactly when header, six pieces and charm are in order, each condition spelled out on its fields and the tables, and every tree its equipment is about has a name |
| `Acceptance.RejectionJustified` | api/internal/game/mh3g/adapter.go:188-313 | every rejection names a reason that holds |
| `TotalSources.TotalsAccounted` | api/internal/game/mh3g/adapter.go:226-291 | each of the ten totals of an accepted loadout is the sum of its column over the rows of weapon and armour, with missing values 0 and unknown holes none, and over all decorations and the charm for the holes |
| `Remarks.DiagnosticsAccounted` | api/internal/game/mh3g/adapter.go:242-291 | the diagnostics are exactly the remarks that hold of the loadout and the tables, each once and in order; legal means that none holds |
| `Remarks.OneOrder` | api/internal/game/mh3g/adapter.go:242-291 | those two facts leave only one list of diagnostics |
| `Reference.FindDecorationIs` | api/internal/game/mh3g/adapter.go:376-378 | the decoration found for an id is the first confirmed row with it, else the first, and none exactly if no row has it |
| `PointSources.CellsAccounted` | api/internal/game/mh3g/adapter.go:262-294 | every cell of the final table is what its slot's piece, decorations or charm give the tree, plus the chest's once if the slot has torso-up |
| `PointSources.SummaryAccounted` | api/internal/game/mh3g/adapter.go:446-503 | each line of the summary: name from the tree's row, columns as accounted, points their sum, active skill and its name the ones that this sum selects |
| `PointSources.NoTreeMissing` | api/internal/game/mh3g/adapter.go:446-451 | a tree that some slot gives points to has a line |
| `Skills.ActiveIsBest` | api/internal/game/mh3g/adapter.go:467-489 | the selected row has the greatest positive threshold not above the total, else the least negative one not below it, else there is none; the two kinds never both qualify |
| `Skills.ActiveOrderIrrelevant` | api/internal/game/mh3g/adapter.go:463-489 | with distinct thresholds the selection does not depend on the order of the rows |
| `Skills.ActiveMonotone` | api/internal/game/mh3g/adapter.go:476-481 | a larger total never selects a lower positive threshold |
| `Skills.ScanActive` | api/internal/game/mh3g/adapter.go:467-488 | the scan with two running bests selects that row |
| `Skills.SumCells` | api/internal/game/mh3g/adapter.go:453-456 | the sum of a row taken in any order |
| `Skills.CollectTrees` | api/internal/game/mh3g/adapter.go:447-451 | keys collected in any order and sorted are the keys in increasing order |
| `Skills.FinishSkills` | api/internal/game/mh3g/adapter.go:446-503 | summaries of all trees in increasing order, or the first tree without a name |
| `Skills.SummariesInOrder` | api/internal/game/mh3g/adapter.go:490-501 | strictly increasing trees, and points that are the sum of the seven columns |
| `CharmLegality.ValidateCharm` | api/internal/game/mh3g/adapter.go:505-575 | rejection or the diagnostics, appended to those already drawn |
| `CharmLegality.NaturalIff` | api/internal/game/mh3g/adapter.go:525-573 | no diagnostic exactly when the full combination is recorded, a missing skill has no points and the two skills differ or are missing |
| `CharmLegality.PartImpliesCombination` | api/internal/game/mh3g/adapter.go:534-573 | a remark on slots, position, points or pair comes with the remark on the combination |
| `CharmLegality.CharmRules` | api/internal/game/mh3g/catalog.go:126-171 | increasing lists of exactly the recorded values, and the flag of the pair |
| `CharmLegality.RulesAgree` | api/internal/game/mh3g/catalog.go:126-171 | each remark of the charm check is drawn exactly when the list or flag of `CharmRules` does not admit the value |
| `Names.TrimIs` | api/internal/game/mh3g/adapter.go:189 | trimming takes away white space at both ends and leaves none there |
| `Names.TrimIdempotent` | api/internal/game/mh3g/adapter.go:189 | a trimmed name stays as it is when trimmed again |
| `Fingerprint.FingerprintEqualIff` | api/internal/game/mh3g/adapter.go:315-331 | fingerprints are equal exactly when all but the name agrees and decorations are permutations of each other |
| `Fingerprint.FingerprintIdempotent` | api/internal/game/mh3g/adapter.go:315-331 | the fingerprint has the loadout's gear and is its own fingerprint |
| `Sorting.SortEqualIff` | api/internal/game/mh3g/adapter.go:327-331 | sorted copies are equal exactly for permutations |
| `Evaluation.FingerprintVerdict` | api/internal/game/mh3g/adapter.go:188-313 | for any game data, loadouts with acceptable names and equal fingerprints are both rejected or both accepted |
| `Evaluation.FingerprintCongruence` | api/internal/game/mh3g/adapter.go:188-313 | accepted, they have the same summary, legality, equipment rows, skill rows and fingerprint |
| `Evaluation.EvaluateStored` | api/internal/game/mh3g/adapter.go:189-313 | evaluating the stored payload again gives the same result |
| `Evaluation.EquipmentFillsSlots` | api/internal/game/mh3g/adapter.go:273-292 | the equipment rows are those of the seven slots, each once, with the types and numbers worn |
| `Evaluation.EquipmentIs` | api/internal/game/mh3g/adapter.go:273-292 | weapon, head, chest, arms, waist, legs and the charm as type 6 with its class, in this order |
| `Evaluation.AcceptedSkillRows` | api/internal/game/mh3g/adapter.go:446-503 | the skill rows of an accepted loadout are its summary lines' trees, points and active skills; trees strictly increase and points are the sum of the columns |
| `Evaluation.LegalIff` | api/internal/game/mh3g/adapter.go:222-311 | an accepted loadout is legal exactly when all six pieces are confirmed, suit weapon and gender and hold their decorations, and the charm is natural and holds its own |
| `SmallGame.SmallLoadoutAccepted` | api/internal/game/mh3g/adapter.go:188-313 | there are game data and a loadout that is accepted and legal |
| `Evaluation.LegalFitsSlots` | api/internal/game/mh3g/adapter.go:230-291 | legal and with known hole counts, a loadout uses no more holes than it has |
| `Adapter.GameAdapter.FindEquipment` | api/internal/game/mh3g/adapter.go:340-368 | the row and the armour's points summed per tree |
| `Adapter.GameAdapter.InsertDecorations` | api/internal/game/mh3g/adapter.go:370-398 | the points and holes of all decorations, or the first unknown one |
| `Adapter.GameAdapter.ValidatePiece` | api/internal/game/mh3g/adapter.go:212-273 | one round of the loop: first error, or new totals, diagnostics and points |
| `Adapter.GameAdapter.Validate` | api/internal/game/mh3g/adapter.go:188-313 | for every order in which maps are visited, the whole result is the closed form `Evaluate` |
| `LoadoutSafety.StoreInvHolds` | api/internal/httpapi/loadouts.go:94-206 | in every run, rows and indexes match evaluation, drafts are accepted submissions, and build hashes of loadouts not deleted are unique |
| `LoadoutSafety.StoredMatchesEvaluation` | api/internal/httpapi/loadouts.go:94-281 | in every reachable state name, summary, legality, hash and both groups of index rows are those of the stored payload; `deleted_at` is set exactly when deleted, published implies `published_at` |
| `LoadoutSafety.NoDuplicateGear` | api/internal/httpapi/desktop_loadouts.go:19-80 | with a collision-free digest no reachable state holds two loadouts that are not deleted and have the same gear |
| `LoadoutSafety.RowsEvolve` | api/internal/httpapi/loadouts.go:185-281 | loadouts stay, `published_at` never changes once set, versions never fall, and an equal version means equal payload, name, remark and owner |
| `LoadoutSafety.NoLostUpdate` | api/internal/httpapi/loadouts.go:183-190 | two updates of one loadout with the same nonzero version never both commit |
| `LoadoutSafety.UpdateSeesItsVersion` | api/internal/httpapi/loadouts.go:183-190 | a versioned update never overwrites a payload changed since that version |
| `LoadoutSafety.ChangeRaisesVersionIff` | api/internal/httpapi/loadouts.go:461-463 | a change of a row raises its version by one unless it is the resolution of a report, which leaves it |
| `LoadoutSafety.OnlyDecisions` | api/internal/httpapi/loadouts.go:185-190 | while a loadout has the version it was read with, it differs from what was read only by the status and dates of the last moderator's decision, if there was one |
| `LoadoutSafety.DecisionIff` | api/internal/httpapi/loadouts.go:459-463 | there is such a decision exactly when a report on the loadout was resolved with an action that the unique index admits |
| `LoadoutSafety.UpdateReplacesRow` | api/internal/httpapi/loadouts.go:183-190 | a versioned update replaces exactly the row that was read if no moderator has decided since, and otherwise that row with the last decision; it writes the status it asks for |
| `LoadoutSafety.DecisionUndoneIff` | api/internal/httpapi/loadouts.go:183-190 | it undoes a decision exactly when there was one since the version was read and the last one gave another status |
| `LoadoutSafety.ModerationOverwritten` | api/internal/httpapi/loadouts.go:435-476 | a run in which a versioned update undoes a moderator's decision made after that version was read |
| `LoadoutSearch.PublicLoadoutFilters` | api/internal/httpapi/loadouts.go:324-356 | accepted exactly if there are at most eight values of each kind and all denote something in range, then as the normal forms of what they denote, else with the first error |
| `LoadoutSearch.ParseItemIff` | api/internal/httpapi/loadouts.go:332-344 | an item parameter denotes exactly the two numbers before and after its one colon, in 1..255 and 0..65535 |
| `LoadoutSearch.ParseActiveIff` | api/internal/httpapi/loadouts.go:347-353 | a skill parameter denotes exactly the number it reads as, in 1..65535 |
| `LoadoutSearch.PrintedAreWanted` | api/internal/httpapi/loadouts.go:324-356 | parameters printed from numbers denote those numbers |
| `LoadoutSearch.WantedUnique` | api/internal/httpapi/loadouts.go:324-356 | parameters denote at most one list of items and one of skills |
| `LoadoutSearch.ParseLimit` | api/internal/httpapi/api.go:378-384 | the number asked for if it lies in 1..100, else 30 |
| `LoadoutSearch.LimitAsAsked` | api/internal/httpapi/api.go:378-384 | the text of a number from 1 to 100 asks for that number |
| `LoadoutSearch.ItemKeyParses` | api/internal/httpapi/loadouts.go:333-344 | a normalised text reads back as its two numbers |
| `Text.ItemKeyEqualIff` | api/internal/httpapi/loadouts.go:298-301 | two texts `type:id` are equal exactly when both numbers are |
| `Text.AtoiItoa` | api/internal/httpapi/loadouts.go:338-344 | reading a printed 64-bit number gives it back |
| `Text.Signs` | api/internal/httpapi/loadouts.go:338-348 | a plus sign changes nothing and a minus sign negates |
| `LoadoutSearch.IndexedItem` | api/internal/httpapi/loadouts.go:141-152 | the equipment index has a text exactly when some slot of the loadout holds that item |
| `LoadoutSearch.IndexedSkill` | api/internal/httpapi/loadouts.go:153-157 | the skill index has an active skill exactly when some tree's total activates it |
| `LoadoutSearch.SearchIsRecomputation` | api/internal/httpapi/loadouts.go:283-306 | in every reachable state the indexes select a loadout exactly when it is published, its text matches, and its payload evaluated afresh is legal if asked, wears every item and activates every skill |
| `LoadoutSearch.NewerIs` | api/internal/httpapi/loadouts.go:306 | the order: the later publication first, of two of one moment the greater id |
| `LoadoutSearch.SkillEntries` | api/internal/httpapi/loadouts.go:153-157 | the skill index holds the points and active skill of every row, under its tree |
| `LoadoutSearch.EquipmentEntries` | api/internal/httpapi/loadouts.go:148-152 | the equipment index holds type and number of every row, under its slot |
| `LoadoutSearch.PageUnique` | api/internal/httpapi/loadouts.go:306 | there is only one sequence that is the first `limit` in the order `published_at`, id descending |
| `LoadoutSearch.NewestFirst` | api/internal/httpapi/loadouts.go:306 | picking the newest remaining loadout up to `limit` times gives that sequence |
| `LoadoutService.LoadoutServer.FindDuplicate` | api/internal/httpapi/desktop_loadouts.go:19-23 | a loadout with the hash that is not deleted and not excluded, or none exactly when there is none |
| `LoadoutService.LoadoutServer.SubmitLoadout` | api/internal/httpapi/loadouts.go:60-112 | each error exactly in its case, a duplicate exactly if another live loadout has the gear's hash; otherwise a draft of the evaluated submission |
| `LoadoutService.LoadoutServer.WriteIndexes` | api/internal/httpapi/loadouts.go:141-159 | old index rows are replaced by the new ones, and the insertion succeeds exactly when no primary key repeats |
| `LoadoutService.AcceptedDistinctKeys` | api/db/migrations/00001_platform.sql:90-103 | for accepted loadouts no primary key of either index repeats |
| `LoadoutService.LoadoutServer.WriteDraft` | api/internal/httpapi/loadouts.go:117-206 | not found, conflict or written, each exactly in its case; every column of the written row, owner and status and dates among them, from the request and its evaluation; no other row changes |
| `LoadoutService.LoadoutServer.UpdateStatus` | api/internal/httpapi/loadouts.go:248-281 | not found, conflict or written, each exactly in its case; status, dates and a version raised by one, nothing else |
| `LoadoutService.LoadoutServer.StatusStatement` | api/internal/httpapi/loadouts.go:263 | `published_at` is set once, `deleted_at` follows the status |
| `LoadoutService.LoadoutServer.DeleteOwnLoadout` | api/internal/httpapi/desktop_loadouts.go:101-124 | found exactly if the loadout is the actor's and not deleted; then it is deleted with its date and a version raised by one; no other row changes |
| `LoadoutPromises.HashIsGearHash` | api/internal/game/mh3g/adapter.go:303-310 | the stored build hash is the digest of the submitted loadout's fingerprint |
| `LoadoutPromises.OnlyOwnDeleted` | api/internal/httpapi/desktop_loadouts.go:106 | in every run such a call changes only a live loadout of its actor |
| `LoadoutService.LoadoutServer.CreateReport` | api/internal/httpapi/loadouts.go:402-411 | each refusal in its case, by reason, length and the count read before; otherwise one open report per loadout and source, for published loadouts |
| `LoadoutService.LoadoutServer.CloseReport` | api/internal/httpapi/loadouts.go:448-476 | the report is resolved or dismissed and hide, restore or delete gives the loadout that status, together or, if the unique index refuses, not at all; the version stays |
| `LoadoutService.LoadoutServer.PublicLoadouts` | api/internal/httpapi/loadouts.go:283-322 | accepted exactly if the parameters denote something; then the page read from the indexes is the unique page of the recomputed matches for what they denote, shown with the stored columns |
| `LoadoutService.LoadoutServer.PublicLoadout` | api/internal/httpapi/loadouts.go:357-378 | the detail view, with summary and legality calculated afresh, equals the stored ones |
| `LoadoutService.LoadoutServer.Run` | api/internal/httpapi/loadouts.go:94-476 | any schedule of the methods reaches the state of the run that the theorems speak about |
| `PasswordHash.ValidPassword` | api/internal/auth/password.go:42-60 | accepts exactly 8 to 16 characters of the three groups with one of each |
| `PasswordHash.VerifyPassword` | api/internal/auth/password.go:102-141 | true exactly when the text can be read and the key derived with its parameters and salt is its hash |
| `PasswordHash.ParseEncodedIff` | api/internal/auth/password.go:103-138 | a text can be read exactly if it is six parts between dollar signs with the two markers, parameters in order, last m, t and p within the limits, and decodable salt and hash, the hash not empty |
| `PasswordHash.ParseParameterIff` | api/internal/auth/password.go:111-118 | a parameter is a name, an equals sign and a number of 32 bits |
| `PasswordHash.LastOfIs` | api/internal/auth/password.go:119-126 | a later parameter of a name replaces an earlier one, a missing one is 0 |
| `PasswordHash.EncodedRoundTrip` | api/internal/auth/password.go:35-36 | reading a printed hash recovers m, t, p, salt and hash, for all parameters within the limits, every salt and every hash that is not empty |
| `PasswordHash.HashPassword` | api/internal/auth/password.go:26-37 | refused exactly when the policy or the random source fails; otherwise the text `$argon2id$v=19$m=19456,t=2,p=1$` with salt and hash, which reads back to its parts and verifies for the password |
| `PasswordHash.OnlySameKeyVerifies` | api/internal/auth/password.go:102-141 | a guess verifies against a new hash exactly when it derives the same key |
| `Base64.Base64RoundTrip` | api/internal/auth/password.go:131-136 | decoding an encoding gives every byte sequence back |
| `Base64.DigitsAreAlphabet` | api/internal/auth/password.go:36 | the 64 digits are the alphabet of RFC 4648 in its order |
| `Base64.DigitsAreNumber` | api/internal/auth/password.go:36 | bytes in base 256 and their digits in base 64 are the same number, the last group filled up with zero bits |
| `Base64.DecodeIff` | api/internal/auth/password.go:131-136 | a text is decoded exactly if, without its line breaks, it is digits and not one more than whole groups of four |
| `Base64.EncodeLength` | api/internal/auth/password.go:36 | no padding: the least number of digits that holds all bits |
| `Text.SplitParts` | api/internal/auth/password.go:103-110 | the parts hold no separator and joined give the text back |
| `Text.SplitJoin` | api/internal/auth/password.go:103-110 | splitting undoes joining |
| `PasswordGenerator.RandomPassword` | api/internal/auth/password.go:62-92 | errors exactly for a bad length or missing random numbers; otherwise the shuffled draws, of the given length and within the policy |
| `PasswordGenerator.ShuffleInPlace` | api/internal/auth/password.go:83-90 | the swaps in place give the permutation of the choices |
| `PasswordGenerator.ChoicesArePermutations` | api/internal/auth/password.go:83-90 | choice sequences and permutations of the positions correspond one to one |
| `PasswordGenerator.ShuffleIsPermutation` | api/internal/auth/password.go:83-90 | the choices put any elements in the order of their permutation |
| `PasswordGenerator.EveryPasswordPossible` | api/internal/auth/password.go:62-92 | every password within the policy is what some random numbers lead to |

## Left out

- MailService.Service.VerifyCode: comparison in constant time; only its result is modelled.
- MailService.Service.Commit: the check that the provider is configured, which precedes the transaction, and errors of single statements other than by aborting.
- MailEnqueue.HourlyLimitHolds: speaks of creation times, which is what the program counts, not of the times at which messages are sent.
- MailDelivery.FinalRowsStay: assumes the lease, without which it is false; `MailLateWorkers.FinalRowsStayIff` is the exact condition.
- MailSources.SourceLimitHolds: assumes that transactions of one source do not overlap; `MailOverlap.LimitMetIff` is the exact condition.
- LoadoutService.LoadoutServer.CreateReport: the reports that the earlier statement counts, whose number is a parameter because the code does not serialise it with the insertion, and the evidence columns.
- LoadoutService.LoadoutServer.CloseReport: the note, and which of the two errors a refusal is.
- LoadoutService.LoadoutServer.PublicLoadouts: owner names and likes in the result; ILIKE is a predicate on the two texts.
- LoadoutService.LoadoutServer.SubmitLoadout: the empty status that `createLoadout` reads as published, and JSON decoding.
- Acceptance.RejectionJustified: which of several reasons that hold is named; the closed form has it, in the order of the program.
- Adapter.GameAdapter.Validate: database errors other than a missing row, and the wording of messages; diagnostics carry the values that the messages are made of.
- PasswordHash.VerifyPassword: bytes that are not UTF-8, and comparison in constant time.
- PasswordGenerator.RandomPassword: the distribution of the random numbers; they are arbitrary.
- The outbox columns `created_at` and `updated_at`, and the metadata list in the admin settings.
- `content_hash`, which nothing reads back for a decision, and the column `data_version`, which is constant in a run.
- Widths of integers: smallint and integer columns and Go's 64-bit sums never overflow on the game data; numbers are unbounded, except in parsing.
- AES-GCM, HMAC, SHA-256 and Argon2id themselves, and the provider's HTTP interface, whose answer is an arbitrary outcome.
- Deletion of users and the rows that go with them, roles, sessions, likes, audit records, the dashboard and the catalogue searches by name: easy members.
- The order that SQLite gives to decorations that are equal under the query's order; the rows are taken in a fixed sequence.
- Upgrades of the game data during a run.
