# Verified models of the form-filling extension and the job-feed backend

This project models the stateful parts of the repository in Dafny and proves what they promise.
Check it with `dafny verify dfyconfig.toml`.

## What is modelled

**Arming store** (`ArmingStore.dfy`, `DurableArming.dfy`, `SessionArmingStore.dfy`, `ArmingRefinement.dfy`,
`ArmingAgreement.dfy`, `ArmingLifecycle.dfy`). The browser extension remembers for a short while that a tab was opened to be
filled. `ArmingStore` is the in-memory form and serves as the specification. `SessionArmingStore` keeps the
same information in three stores that outlive the worker: session metadata, CV payloads addressed by their
content, and one alarm. Its class follows the TypeScript statement by statement and records every awaited
write in a ghost log; the contract of an operation fixes the list of its writes (its `Plan`). A run is a
sequence of calls of which each performs any prefix of its writes, because the worker may be stopped between
two of them. The two stores agree on every run, exactly as long as the armed snapshots survive the way through bytes;
no persisted live arm ever lacks its payload, one arm is handed over at most once, and the expiry alarm empties the
stores.

**Background worker** (`Background.dfy`, `BackgroundRuns.dfy`). Open & Fill requests wait for their tab while clear
messages arrive. Every interleaving of requests, tabs, clears, queue steps, failures and restarts is a run of one step
relation, and the handlers are methods that refine it. A clear message forgets what was asked for before it for good,
and every stored arm is what its own request asked for.

**Submission guard** (`GuardModel.dfy`, `GuardClass.dfy`, `GuardTheorems.dfy`, `FormCredits.dfy`). A state machine over classified
events: trusted clicks and keys, native submissions with their nesting, submit events, microtasks, timers and
the passing of time. Which submissions are let through, which are blocked and when a credit comes back is told by the
events alone; credits are conserved in every event sequence, and no form spends another form's credit exactly as long as
the two share no naming attribute.

**Job feed** (`Text.dfy`, `FeedQuery.dfy`, `SearchText.dfy`, `Sql.dfy`, `FeedStore.dfy`, `ServedFeed.dfy`). `Index.Search` is the direct meaning of a
query. `feedWhere` compiles the same query to SQL clauses with positional parameters; the clauses are syntax trees
that are evaluated in three-valued logic, and both give the same page. A client that asks for page after page gets
every match exactly once if and only if its page size is within the served bounds. What the filters make of blanks and
capitals is stated about the typed text itself.

**Rate limiter** (`RateLimiter.dfy`). A fixed-window limiter with lazy eviction, compared with one that never evicts.
Every decision, resets included, follows from the times of the key's own attempts.

**Ingestion** (`ConditionalFetch.dfy`, `ListingStore.dfy`, `Runner.dfy`, `PassTheorems.dfy`, `RegionTheorems.dfy`,
`IngestionRuns.dfy`, `PresentListings.dfy`, `LocalFeed.dfy`). The 304 replay cache over heap-allocated slices, the listing store with its
staleness sweep, and the runner with a circuit breaker object per source. The theorems speak about whole runs of passes
and sweeps and end with one that leads from a listing at its source, through the cache, the runner, the store and the
sweeps, to a page of the feed.

**Salary text** (`Salary.dfy`, `SalaryTheorems.dfy`, `SalaryForms.dfy`). The printed rupiah range and the parser of free text, with the
patterns of the parser written out as predicates on positions.

A value that the programs take from outside (the clock, what a server or a tab answers, URL normalization,
base64, hashes, a decoder) is a parameter.

## Where code and documentation differ

- The limiter's comment says that attempt max + 1 of a window is refused. That holds on all traces exactly when max >= 1
  (`DocumentedBoundExactly`); below one, the first attempt of a window is still allowed, and the proved bound is
  max(1, max). The configuration replaces zero by a default (backend/internal/auth/service.go:55-63), so the case arises
  for negative settings, such as -1 (`NegativeLimitAllowsOne`).
- `ArmingStore` is called the storage-state model. It keeps the snapshot it is given, while the durable store rejects
  base64 text that does not decode and returns re-encoded bytes; the message check (extension/src/messaging.ts:103-110)
  lets such text through. The two stores answer alike exactly on snapshots that survive bytes (`StoresAreAlikeExactly`);
  the unpadded text "Y3Y" does not (`UnpaddedTextIsTold`). For other snapshots `RunRefinesInMemoryStore` still holds,
  with the snapshot in re-encoded form and a rejected arm as one that did not happen.
- Form keys are injective on the forms of a document, but a form outside the document can have the key of one inside it
  (`DetachedFormSharesAKey`). It does exactly when it carries the attribute that names the other (`KeysAgreeExactly`), and
  then, and only then, credits move between the two (`CreditsMoveExactly`).
- A client that goes on by the limit it asked for misses jobs when the service shortens its pages: with a limit of 101 the
  job at position 100 is on no page (`JobMissedAtLimit101`). The pages cover every match once exactly for limits from one
  to the maximum of 100, or when all matches fit on one page (`CoversOnceExactly`, `PageSizesExactly`).
- A printed range with a negative bound (`NegativeBoundIsLost`), or with bounds in descending order
  (`DescendingRangeIsSwapped`), does not survive the round trip; the round trip holds exactly for 0 <= lo <= hi.

## Model

| member | source | states |
|---|---|---|
| InMemoryArming.ArmingStore.constructor | extension/src/arming.ts:52-55 | a new store holds no arm |
| InMemoryArming.ArmingStore.Arm | extension/src/arming.ts:58-70 | the arm replaces whatever was stored under the tab's (or the URL's) key, with the normalized URL and the expiry |
| InMemoryArming.ArmingStore.ConsumeEntry | extension/src/arming.ts:76-91 | returns the live match and drops any match, live or expired; other tabs' arms stay |
| InMemoryArming.ArmingStore.Peek | extension/src/arming.ts:98-107 | returns the live match without dropping it; an expired match is dropped |
| InMemoryArming.ArmingStore.Sweep | extension/src/arming.ts:114-118 | keeps exactly the unexpired arms |
| InMemoryArming.ArmingStore.Clear | extension/src/arming.ts:120-128 | forgets everything, or exactly the arms of one tab |
| SessionArming.BinaryPayloadStore.PutBytes | extension/src/arming.ts:199-222 | stores the bytes under their hash; stored bytes stay, the later expiry wins |
| SessionArming.BinaryPayloadStore.Get | extension/src/arming.ts:224-230 | the stored bytes, or none |
| SessionArming.BinaryPayloadStore.SweepRecords | extension/src/arming.ts:240-265 | keeps exactly the unexpired and referenced payloads |
| SessionArming.SessionArmingStore.constructor | extension/src/arming.ts:341-349 | a starting store takes over what is persisted and has written nothing |
| SessionArming.SessionArmingStore.ArmTab | extension/src/arming.ts:351-379 | the awaited writes, in order: payload, metadata, deletes, payload sweep, alarm; an undecodable snapshot writes nothing and is rejected |
| SessionArming.SessionArmingStore.ConsumeTab | extension/src/arming.ts:381-406 | the arm is read with its payload first, then removed, then its payload is dropped; the writes in order and the answer |
| SessionArming.SessionArmingStore.PeekTab | extension/src/arming.ts:408-426 | a live arm is returned and only the alarm is set again; an expired one is removed |
| SessionArming.SessionArmingStore.SweepExpired | extension/src/arming.ts:432-440 | the writes of a sweep, in order |
| SessionArming.SessionArmingStore.Clear | extension/src/arming.ts:442-463 | the writes of a clear of everything and of one tab, in order |
| SessionArming.SessionArmingStore.ClearEverything | extension/src/arming.ts:444-450 | the metadata goes first, then every payload, then the alarm |
| SessionArming.SessionArmingStore.ClearOneTab | extension/src/arming.ts:452-461 | the metadata is written before the payload that the tab alone used is deleted |
| SessionArming.SessionArmingStore.StoreSnapshot | extension/src/arming.ts:465-482 | at most one payload put; the stored form refers to it by its hash |
| SessionArming.SessionArmingStore.MaterializeEntry | extension/src/arming.ts:484-506 | puts the payload bytes back into the snapshot; a missing payload becomes a null CV |
| SessionArming.SessionArmingStore.RemoveExpiredEntries | extension/src/arming.ts:508-520 | drops exactly the expired arms and lists their payloads |
| SessionArming.SessionArmingStore.CollectPayloadIds | extension/src/arming.ts:588-598 | lists exactly the referenced payloads, each once |
| SessionArming.SessionArmingStore.DeleteUnless | extension/src/arming.ts:527-530 | one delete for each candidate that is not in use, in order |
| SessionArming.SessionArmingStore.CleanUp | extension/src/arming.ts:522-532 | deletes the candidates that are not in use, then sweeps |
| SessionArming.SessionArmingStore.RescheduleAlarm | extension/src/arming.ts:534-548 | sets the alarm to the least expiry, or clears it |
| DurableArming.AlarmIsMinExpiry | extension/src/arming.ts:534-548 | after that write the alarm is the earliest stored expiry, or off when nothing is stored |
| ArmingRefinement.StepAgrees | extension/src/arming.ts:351-463 | one call, stopped after any number of its writes, keeps the agreement with the in-memory store, which performs the call exactly if it took effect |
| ArmingRefinement.PlanShape | extension/src/arming.ts:351-463 | apart from the one write of the metadata no write of any call removes a payload that a live arm needs |
| ArmingRefinement.NewArmIsBacked | extension/src/arming.ts:199-222 | when a new arm is written its bytes are already stored, with an expiry no earlier than its own |
| ArmingRefinement.RunRefinesInMemoryStore | extension/src/arming.ts:337-548 | on every run, with stops between any two writes and whatever snapshots are armed, the answers are those of the in-memory store performing the calls that took effect on re-encoded snapshots, and every persisted live arm has its payload |
| ArmingLifecycle.RunHasTrace | extension/src/arming.ts:337-343 | every run with stops has a sequence of persisted states, and its callers get the answers of the steps taken there |
| ArmingRefinement.DurableStoreAnswersLikeInMemoryStore | extension/src/arming.ts:465-506 | without stops the answers to every sequence of calls are those of the in-memory store on re-encoded snapshots |
| ArmingAgreement.Perform | extension/src/arming.ts:52-138 | the literal step of the comparison is what the class `ArmingStore` does |
| ArmingAgreement.StepsAgreeExactly | extension/src/arming.ts:465-506 | a call does the same with the snapshot as given and re-encoded if and only if the snapshot survives bytes |
| ArmingAgreement.SurvivesExactly | extension/src/arming.ts:465-506 | a snapshot survives if and only if it has no CV text, or its text decodes to bytes that are encoded as that text |
| ArmingAgreement.RunRefinesArmingStore | extension/src/arming.ts:337-548 | on every run that arms only surviving snapshots, stops included, the answers are those of `ArmingStore` itself performing the calls that took effect |
| ArmingAgreement.ArmAndConsumeTells | extension/src/arming.ts:351-406 | arming a snapshot and consuming it is answered alike by both stores if and only if the snapshot survives bytes |
| ArmingAgreement.UnpaddedTextIsTold | extension/src/messaging.ts:103-110 | unpadded base64 text passes the message check and comes back changed |
| ArmingAgreement.StoresAreAlikeExactly | extension/src/arming.ts:51-138 | for any set of snapshots, the durable store and `ArmingStore` answer every sequence of calls that arms only these alike if and only if each of them survives bytes |
| ArmingLifecycle.HandOverNeedsArm | extension/src/arming.ts:381-406 | a tab without an arm gets none until one is persisted |
| ArmingLifecycle.EachArmIsHandedOverOnce | extension/src/arming.ts:381-406 | between two successful consumes of a tab another arm of that tab was persisted, stops included |
| ArmingLifecycle.SweepTidiesAnything | extension/src/background.ts:37-38 | a completed sweep, from any state a stop left behind, removes all garbage and expired arms and sets the alarm right |
| ArmingLifecycle.ArmStoresExactly | extension/src/arming.ts:351-379 | a completed arm is stored under its tab until one lifetime from now, drops exactly the expired arms of other tabs and leaves no expired payload |
| ArmingLifecycle.ClearTabTidiesExactly | extension/src/arming.ts:451-461 | a completed clear of a tab leaves the stores tidy if and only if no payload was unreferenced before |
| ArmingLifecycle.StoppedArmLeavesGarbage | extension/src/arming.ts:351-379 | an arm stopped after its first write leaves a payload that a clear of the tab keeps and a sweep removes |
| ArmingLifecycle.ClearAllEmpties | extension/src/arming.ts:443-450 | a completed clear of everything leaves all three stores empty, from any state |
| ArmingLifecycle.CompletedTidiesExactly | extension/src/arming.ts:351-463 | which completed calls tidy any state, and when exactly a tab clear, a live peek and a call that writes nothing leave the stores tidy |
| ArmingLifecycle.LivePeekSetsAlarm | extension/src/arming.ts:408-426 | a completed peek at a live arm leaves arms and payloads as they are and sets the alarm to the earliest expiry |
| ArmingLifecycle.CompletedCallsKeepTidy | extension/src/arming.ts:351-463 | every completed call keeps the stores free of unreferenced payloads with the alarm at the least expiry |
| ArmingLifecycle.FiringShrinks | extension/src/arming.ts:160-167 | an alarm that fires at its time or later removes an arm |
| ArmingLifecycle.AlarmDrainsStores | extension/src/arming.ts:160-167 | an alarm stays pending while arms are left, and as many firings as there are arms empty all three stores |
| Background.ServiceWorker.constructor | extension/src/background.ts:35-38 | a starting worker keeps the stores, forgets the rest and queues a sweep |
| Background.ServiceWorker.OnOpenAndFill | extension/src/background.ts:48-54 | a request remembers the generation it began in |
| Background.ServiceWorker.OnTabCreated | extension/src/background.ts:54-57 | it goes on to arm exactly if the tab exists and no clear has arrived since |
| Background.ServiceWorker.OnClearState | extension/src/background.ts:112-116 | a clear starts a new generation and queues the clear of the store |
| Background.NextKeepsInv | extension/src/background.ts:48-133 | every step keeps the order of queued arms and clears, so that each stored arm stems from a request after the last completed clear |
| Background.NoArmOutlivesAClear | extension/src/background.ts:112-133 | in every interleaving, once the store's clear has completed, then and ever after no stored arm stems from a request that began before its message |
| BackgroundRuns.ClearForgetsForGood | extension/src/background.ts:106-133 | after any run, a clear message, and smooth events until the queue is empty, at that point and ever after, stops included, no stored arm stems from a request that began before the message |
| BackgroundRuns.ClearThenIdleIsEmpty | extension/src/background.ts:112-133 | when nothing else follows a clear message, no arm, no CV payload and no alarm is left |
| BackgroundRuns.DrainedInOrder | extension/src/arming.ts:604-611 | a queue that is worked off without a stop is carried out in order |
| BackgroundRuns.MessageIsCarriedOut | extension/src/background.ts:134-150 | a consume, a peek or a sweep is carried out after what was queued before it |
| BackgroundRuns.StoredArmIsRequested | extension/src/background.ts:48-57 | in every interleaving each stored arm has the page and the snapshot of its own request, lies under the tab that was opened for it and expires one lifetime after that; a page that cannot be opened is never armed |
| BackgroundRuns.RequestIsArmed | extension/src/background.ts:48-57 | a request whose tab opens before any clear message or stop is armed with exactly its page and snapshot once the queue is worked off |
| Background.RestartTidies | extension/src/background.ts:37-38 | after any run and a restart, while no further stop or rejected write comes, the stores are tidy whenever the queue is empty |
| SubmissionGuarding.SubmissionGuard.constructor | extension/src/guard.ts:27-31 | a new guard holds no credit, so every submission is blocked |
| SubmissionGuarding.SubmissionGuard.FormKey | extension/src/guard.ts:34-48 | a unique id, else a unique name, else a token that stays with the form |
| SubmissionGuarding.SubmissionGuard.ClearActivations | extension/src/guard.ts:202-209 | cancels the timer of every delayed credit and forgets the credits |
| SubmissionGuarding.SubmissionGuard.AuthorizeFromClick | extension/src/guard.ts:130-154 | a trusted click drops delayed credits and grants one credit to a submit control's form, or a delayed one to a plain button's form |
| SubmissionGuarding.SubmissionGuard.AuthorizeFromKeydown | extension/src/guard.ts:130-171 | a trusted plain Enter grants a credit for an implicit submission |
| SubmissionGuarding.SubmissionGuard.ClearActivationOnTrustedInteraction | extension/src/guard.ts:202-209 | a trusted interaction drops delayed credits and nothing else; an untrusted one does nothing |
| SubmissionGuarding.SubmissionGuard.OnTimer | extension/src/guard.ts:146-150 | a timer removes only the delayed credit that it belongs to |
| SubmissionGuarding.SubmissionGuard.ConsumeAuthorization | extension/src/guard.ts:172-177 | a credit is found and removed, or nothing happens |
| SubmissionGuarding.SubmissionGuard.AllowNativeSubmission | extension/src/guard.ts:178-194 | a native call spends a credit or a delayed one and is refused without |
| SubmissionGuarding.SubmissionGuard.FinishNativeSubmission | extension/src/guard.ts:195-198 | at its end its permission for a submit event is withdrawn |
| SubmissionGuarding.SubmissionGuard.OnSubmit | extension/src/guard.ts:210-237 | a submit event passes on a native call's permission or by spending a credit |
| SubmissionGuarding.SubmissionGuard.RestoreIfPrevented | extension/src/guard.ts:229-234 | the oldest watched submit gives its credit back if it was cancelled, as in `GuardTheorems.RestoredExactly` |
| GuardTheorems.KeyExactly | extension/src/guard.ts:34-48 | a form is named by its id if that is not empty and in one place of the document only, else by its name likewise, else by its token |
| GuardTheorems.CreditsAreConserved | extension/src/guard.ts:130-237 | in every event sequence spent plus held credits of a key never exceed granted plus restored ones |
| GuardTheorems.RestoresMatchTrustedPasses | extension/src/guard.ts:224-235 | every restored credit matches a distinct trusted submit event that spent one |
| GuardTheorems.RestoredExactly | extension/src/guard.ts:229-234 | a credit is given back if and only if the page cancelled the oldest watched trusted submit event, to that event's form |
| GuardTheorems.GrantedExactly | extension/src/guard.ts:130-171 | credits are granted exactly by a trusted click on a submit control, a trusted click on an active plain button and a trusted plain Enter; the second alone grants a delayed one |
| GuardTheorems.NativeCallsAdmitOneEventEach | extension/src/guard.ts:178-223 | each native call admits at most one submit event, and none after it has ended |
| GuardTheorems.EverySubmissionNeedsAGrant | extension/src/guard.ts:1-5 | submissions under a key, less the submit events that the page cancelled, never outnumber the human clicks and keys that grant to it |
| GuardTheorems.ActivationHolds | extension/src/guard.ts:136-151 | at every moment a delayed credit has a running timer of its own form whose deadline has not passed |
| GuardTheorems.AtMostOneDelayedCredit | extension/src/guard.ts:136-151 | there is never more than one delayed credit |
| GuardTheorems.StaleTimerRemovesNothing | extension/src/guard.ts:146-150 | a cancelled or superseded timer never removes a newer credit |
| GuardTheorems.DelayedCreditIsSpentInTime | extension/src/guard.ts:8-10 | a delayed credit is spent within 1000 ms of its grant, once, with no trusted interaction in between |
| GuardTheorems.DelayedCreditLasts | extension/src/guard.ts:143-151 | a delayed credit is there for 1000 ms from its grant unless it is used or a trusted interaction takes it away |
| GuardTheorems.AuthorizedExactly | extension/src/guard.ts:130-177 | a form holds a credit exactly if it has earned one since it last used one |
| GuardTheorems.NativeCallIsBlockedExactly | extension/src/guard.ts:182-194 | a native call goes on a credit if and only if one is left, on a delayed one if and only if there is no other, and is blocked if and only if there is neither |
| GuardTheorems.PermittedExactly | extension/src/guard.ts:190-198 | a submit event is permitted if and only if a native call of the form was let through, no submit event has used that and no native call of the form has ended since |
| GuardTheorems.SubmitEventIsBlockedExactly | extension/src/guard.ts:212-228 | the outcome of every submit event: admitted if a native call permits it, else passed on a credit if one is left, else blocked, as is one without a form |
| GuardTheorems.KeysAreInjective | extension/src/guard.ts:34-48 | on the forms of a fixed document equal keys mean the same form, also when computed at different times |
| GuardTheorems.DetachedFormSharesAKey | extension/src/guard.ts:34-48 | a form outside the document can have the key of one inside it |
| GuardTheorems.KeysAgreeExactly | extension/src/guard.ts:34-48 | any two forms, inside the document or not, have equal keys if and only if they are the same or share the naming attribute |
| GuardTheorems.SharingIsFromOutside | extension/src/guard.ts:34-48 | of two different forms that share it, one is outside the document |
| GuardTheorems.OutsideFormSpendsExactly | extension/src/guard.ts:172-188 | a form outside the document spends the credit of one inside it if and only if it carries the attribute that names the other |
| FormCredits.FormsSpendTheirOwn | extension/src/guard.ts:130-237 | in every event sequence what a form spends and still holds never exceeds its own human grants and its own cancelled submits, while no other acting form shares its key |
| FormCredits.Drive | extension/src/guard.ts:130-237 | asking for the form's key and passing it to the listener is one step on forms, blocked exactly when that step is |
| FormCredits.DocumentFormsSpendTheirOwn | extension/src/guard.ts:130-237 | so it is for every form of a fixed document whose forms alone act: credits never move between forms |
| FormCredits.SharedKeyMovesACredit | extension/src/guard.ts:139-141 | a click in one form lets another one that shares its key submit without a grant |
| FormCredits.CreditsMoveExactly | extension/src/guard.ts:34-48 | between any two forms no event sequence lets one overspend if and only if they do not share a naming attribute |
| Text.TrimLowerCommute | backend/internal/feed/query.go:79 | trimming the lower-cased text is lower-casing the trimmed text |
| Text.TrimDropsBlanks | backend/internal/feed/query.go:79 | the text is the trimmed text between two stretches of blanks, and the trimmed text neither starts nor ends with a blank |
| Text.TrimIgnoresPadding | backend/internal/feed/query.go:79 | blanks put around a text do not change what it is trimmed to |
| Text.LowerExactly | backend/internal/feed/query.go:79-81 | two texts have the same lower-cased form if and only if they differ in case only |
| Text.ContainsExactly | backend/internal/feed/query.go:81 | containment means that the text is something, the needle and something |
| Text.BeforeIsLexicographic | backend/internal/feed/query.go:52-55 | a text is before another exactly if it is a proper prefix of it or smaller at the first difference |
| Text.StrPosContains | backend/internal/ingest/pgxstore.go:194 | a positive strpos means containment |
| FeedQuery.CheckMatch | backend/internal/feed/query.go:78-144 | the early returns and search loops decide the conjunction of the ten filters |
| FeedQuery.CheckSkills | backend/internal/feed/query.go:121-142 | every skill that is not blank occurs in some requirement |
| SearchText.SearchIgnoresPadding | backend/internal/feed/query.go:79-84 | blanks around the search text do not change which jobs match |
| SearchText.LocationIgnoresPadding | backend/internal/feed/query.go:96-100 | nor do blanks around the location |
| SearchText.SkillIgnoresPadding | backend/internal/feed/query.go:126-130 | nor do blanks around a skill, such as one that was split off a list |
| SearchText.SearchIgnoresCase | backend/internal/feed/query.go:79-84 | the case of letters makes no difference to the search, in the query or in the job |
| SearchText.PartOfTitleFinds | backend/internal/feed/query.go:79-84 | any part of its title finds a job, padded with blanks and in any case |
| FeedQuery.CollectMatches | backend/internal/feed/query.go:39-44 | the matching jobs, in the order of the index |
| FeedQuery.LessIsTotal | backend/internal/feed/query.go:45-57 | the comparator is asymmetric, and total on distinct dedup keys |
| FeedQuery.LessIsTransitive | backend/internal/feed/query.go:45-57 | the comparator is transitive |
| FeedQuery.SortIsDetermined | backend/internal/feed/query.go:45-57 | on distinct dedup keys every correct sort gives one and the same order |
| FeedQuery.FeedIsNewestFirst | backend/internal/feed/query.go:45-57 | in the feed no job is older than a later one, undated jobs come last, and ties are settled by title and key, character by character |
| FeedQuery.SortSlice | backend/internal/feed/query.go:45-57 | a rearrangement with no pair out of order, dedup keys repeated or not |
| FeedQuery.Clip | backend/internal/feed/query.go:59-75 | the bounds never leave the result, whatever limit and offset are asked for |
| FeedQuery.Search | backend/internal/feed/query.go:38-76 | the page is the stretch of the sorted matches that is asked for, with their count as total; without repeated dedup keys it is determined |
| FeedQuery.PagesCoverEachMatchOnce | backend/internal/feed/query.go:59-76 | for any page size the index's own pages at offsets 0, L, 2L, ... hold every matching job exactly once in feed order, each with the total |
| Sql.JoinHolds | backend/internal/ingest/pgxstore.go:239 | the joined condition is true exactly when every clause is, under three-valued logic |
| Sql.OccursHolds | backend/internal/ingest/pgxstore.go:192-207 | the text clause is true exactly when the lower-cased text contains the lower-cased needle |
| Sql.RowOrderIsFeedOrder | backend/internal/ingest/pgxstore.go:160-165 | ORDER BY with NULLS LAST is the comparator of the in-memory search |
| Sql.QueryPage | backend/internal/ingest/pgxstore.go:157-165 | the stretch of the ordered selection that the limit and offset parameters name |
| FeedStore.WhereTextAndPay | backend/internal/ingest/pgxstore.go:192-207 | after these clauses a row is accepted exactly if it passes the first four filters |
| FeedStore.WhereExact | backend/internal/ingest/pgxstore.go:208-227 | after these exactly if it passes the first nine |
| FeedStore.WhereSkills | backend/internal/ingest/pgxstore.go:228-238 | after the loop exactly if it passes all of them |
| FeedStore.FeedWhere | backend/internal/ingest/pgxstore.go:185-240 | whatever arguments are appended, the clauses accept a row exactly when it is not stale and its job passes the in-memory filters |
| FeedStore.WhereKeeps | backend/internal/ingest/pgxstore.go:144-151 | with the user's clause appended, exactly the jobs that this user has not dismissed remain |
| FeedStore.SelectIsMatching | backend/internal/ingest/pgxstore.go:144-165 | the selected rows are the matching, visible, active jobs |
| FeedStore.ValidateJobQuery | backend/internal/ingest/feed_query.go:34-49 | a query is refused if and only if a bound is negative or the lower pay bound exceeds the upper one |
| FeedStore.OffsetsAreBounded | backend/internal/ingest/pgxstore.go:134-142 | a negative offset is the first page, and one past the matches an empty page with the same total |
| FeedStore.DefaultsOfThePage | backend/internal/feed/query.go:59-75 | in the index, too, no limit means 20 and a negative offset means none |
| FeedStore.SearchFeed | backend/internal/ingest/pgxstore.go:130-183 | an invalid query is refused; otherwise the page and the total are those of the in-memory search over the active jobs the user sees |
| FeedStore.FilterFirst | backend/internal/feed/service.go:124-141 | dropping dismissed jobs first and searching the rest gives the same page as the SQL path, in whatever order the jobs are listed |
| FeedStore.FeedPageIgnoresOrder | backend/internal/feed/query.go:38-76 | the page does not depend on the order in which the jobs are stored |
| ServedFeed.PositionServedExactly | backend/internal/feed/service.go:191-202 | for every requested limit, the job at feed position i is on a served page if and only if i modulo the limit is below 100 (i is below 20, without a limit) |
| ServedFeed.JobServedExactly | backend/internal/feed/service.go:103-157 | a job is on a served page if and only if it matches and its position is reached; for limits from one to the maximum, if and only if it matches |
| ServedFeed.ServedPagesCover | backend/internal/feed/service.go:191-202 | for these limits the served pages hold every match exactly once, newest first |
| ServedFeed.FirstMissedJob | backend/internal/feed/service.go:191-202 | for any other limit the first match past a page is on no page |
| ServedFeed.JobMissedAtLimit101 | backend/internal/feed/service.go:195-197 | 101 jobs, a limit of 101, and a matching job on no page |
| ServedFeed.CoversOnceExactly | backend/internal/feed/service.go:191-202 | for each store and query the served pages cover every match once if and only if the limit is from one to the maximum or all matches fit on one page |
| ServedFeed.PageSizesExactly | backend/internal/feed/service.go:191-202 | they do so over all stores and queries if and only if the limit is from 1 to 100 |
| ServedFeed.SqlPagesExactly | backend/internal/ingest/pgxstore.go:130-183 | the same for the pages that Postgres serves one user |
| RateLimiting.RateLimiter.constructor | backend/internal/auth/ratelimit.go:27-29 | a new limiter tracks no key |
| RateLimiting.RateLimiter.Sweep | backend/internal/auth/ratelimit.go:51-61 | at most once per window, exactly the expired windows go |
| RateLimiting.RateLimiter.Allow | backend/internal/auth/ratelimit.go:33-47 | the decision and the new windows, after the sweep |
| RateLimiting.RateLimiter.Reset | backend/internal/auth/ratelimit.go:64-68 | the key's window is forgotten and nothing else changes; what that means is stated by `RateLimiting.AllowedExactly` |
| RateLimiting.EvictionIsInvisible | backend/internal/auth/ratelimit.go:33-68 | on every trace with a clock that does not run backwards every decision is that of a limiter that never evicts |
| RateLimiting.AllowedExactly | backend/internal/auth/ratelimit.go:33-68 | on every trace, resets included, an attempt is allowed if and only if fewer than max(1, max) attempts of its key came before it in its window, counted since the key's last reset; other keys and sweeps do not matter |
| RateLimiting.ResetFrees | backend/internal/auth/ratelimit.go:63-68 | the first attempt after a reset is allowed |
| RateLimiting.OneBudgetPerWindow | backend/internal/auth/ratelimit.go:31-47 | within a window at most max(1, max) attempts of a key are allowed |
| RateLimiting.TwoBudgetsPerInterval | backend/internal/auth/ratelimit.go:33-47 | in any interval of one window length at most twice that |
| RateLimiting.CountIsExact | backend/internal/auth/ratelimit.go:37-46 | the counter of a window is the number of attempts allowed in it |
| RateLimiting.RefusedOnlyWhenSpent | backend/internal/auth/ratelimit.go:42-44 | an attempt is refused only after max(1, max) attempts of its key were allowed within one window length before it |
| RateLimiting.LimitBelowOneAllowsOne | backend/internal/auth/ratelimit.go:37-41 | every limit below one still allows an attempt in a window |
| RateLimiting.NegativeLimitAllowsOne | backend/internal/auth/service.go:55-63 | so does a limit of -1, which the configuration lets through |
| RateLimiting.DocumentedBoundExactly | backend/internal/auth/ratelimit.go:31-33 | at most max attempts are allowed in a window on all traces without resets if and only if max >= 1 |
| RateLimiting.TrackedKeysAreRecent | backend/internal/auth/ratelimit.go:49-61 | after each attempt every tracked window began less than two window lengths ago, and there are no more of them than keys attempted since |
| ConditionalFetch.CloneRawJobs | backend/internal/ingest/conditionalfetch.go:85-101 | the copies have the same contents and share no slice with anything |
| ConditionalFetch.ConditionalStore.constructor | backend/internal/ingest/conditionalfetch.go:20-28 | a new store has no validators and no cache |
| ConditionalFetch.ConditionalStore.Fetch | backend/internal/ingest/conditionalfetch.go:31-83 | the result and the new cache, error paths included; what is handed out shares no slice with the cache |
| ConditionalFetch.ConditionalStore.Remember | backend/internal/ingest/conditionalfetch.go:71-79 | the cache holds copies of what is returned, under the new validators |
| ConditionalFetch.Scribble | backend/internal/ingest/conditionalfetch.go:85-101 | overwriting every requirement of a returned listing leaves the cache as it is |
| ConditionalFetch.ReplayIsTransparent | backend/internal/ingest/conditionalfetch.go:15-83 | against a server that sends 304 only for its current representation every successful fetch returns what the source holds, and one succeeds whenever a fetch without validators would |
| ConditionalFetch.FetchSucceedsExactly | backend/internal/ingest/conditionalfetch.go:31-83 | a fetch succeeds if and only if the source answers and either sends 304 for a validator that labels the current version or a body that can be read and decoded |
| ConditionalFetch.NextRequestCarriesValidators | backend/internal/ingest/conditionalfetch.go:71-78 | after a decoded body the next request carries that version's ETag and Last-Modified, empty or not |
| ConditionalFetch.NotModifiedFindsACache | backend/internal/ingest/conditionalfetch.go:61-65 | against such a server a 304 never meets an empty cache |
| ListingStore.MemoryStore.constructor | backend/internal/ingest/memstore.go:35-40 | a new store is empty |
| ListingStore.MemoryStore.Upsert | backend/internal/ingest/memstore.go:44-53 | a refused URL changes nothing; otherwise the listing is stored as seen now and active, and it is new exactly if its key was unknown |
| ListingStore.MemoryStore.SweepStale | backend/internal/ingest/memstore.go:57-72 | exactly the active listings past the age are marked, with the time, and counted |
| ListingStore.MemoryStore.RealActiveCount | backend/internal/ingest/memstore.go:82-92 | counts the active listings that are not synthetic |
| ListingStore.MemoryStore.Snapshot | backend/internal/ingest/memstore.go:116-133 | lists every (active) listing once, by source and title |
| ListingStore.SecondSweepMarksNothing | backend/internal/ingest/memstore.go:55-72 | a second sweep at the same instant marks nothing and changes nothing |
| ListingStore.SeenAgainIsActive | backend/internal/ingest/memstore.go:42-53 | a listing seen again, stale or not, is left alone by a sweep within the age; the others are not affected |
| ListingStore.MarkedExactly | backend/internal/ingest/staleness.go:11-16 | a sweep marks an active listing if and only if it was ever seen and last seen at least the age ago, and leaves every other as it is |
| ListingStore.RealActiveMoves | backend/internal/ingest/memstore.go:82-92 | storing a listing adds it to the real active ones unless it is synthetic, and a sweep takes away exactly what it marks |
| Ingestion.Breaker.constructor | backend/internal/ingest/runner.go:111 | a new breaker is closed |
| Ingestion.Breaker.Allow | backend/internal/ingest/runner.go:26-32 | allowed below the failure limit or after the cooldown |
| Ingestion.Breaker.OnFailure | backend/internal/ingest/runner.go:36-41 | counts the failure and, from the limit on, opens now |
| Ingestion.Runner.constructor | backend/internal/ingest/runner.go:86-104 | settings of zero or less become three failures and ten minutes |
| Ingestion.Runner.BreakerFor | backend/internal/ingest/runner.go:106-115 | one breaker object per source, closed when new |
| Ingestion.Runner.Ingest | backend/internal/ingest/runner.go:145-163 | the jobs of the region are counted and stored in order, the others skipped; what that means for a pass is stated by the rows of RegionTheorems |
| Ingestion.Runner.Attempt | backend/internal/ingest/runner.go:130-164 | a source is skipped, fails or is served; no other source's breaker moves |
| Ingestion.Runner.RunOnce | backend/internal/ingest/runner.go:120-169 | the new circuits and listings and the reports of a pass, source after source; breakers are not shared |
| Ingestion.TotalCreated | backend/internal/ingest/runner.go:60-66 | the sum over the reports |
| PassTheorems.TallyAddsUp | backend/internal/ingest/runner.go:145-163 | for one source Fetched counts its jobs of the region, Created and Updated those with a valid URL, they agree exactly if there was no persistence error, and the store grows by Created |
| PassTheorems.PassTells | backend/internal/ingest/runner.go:120-169 | one report per source in order, each right; the store grows by exactly TotalCreated and holds, under each key, the last job the served sources delivered |
| RegionTheorems.FetchedCountsTheRegion | backend/internal/ingest/runner.go:146-161 | Fetched of a served source is the number of its listings that normalize to a job of the region, Created and Updated together the number of those with a valid URL |
| RegionTheorems.OnlyTheRegionIsStored | backend/internal/ingest/runner.go:151-154 | whatever a pass changes in the store is a job of the region with a valid URL that an asked source delivered, seen now and active |
| RegionTheorems.TheRegionIsStored | backend/internal/ingest/runner.go:146-161 | every job of the region with a valid URL that an asked source delivers is stored under its key, seen now and active, and no key is removed |
| PassTheorems.CircuitAfterPass | backend/internal/ingest/runner.go:127-143 | after a pass each source's circuit has moved by its own outcome alone |
| PassTheorems.FailuresAreIsolated | backend/internal/ingest/runner.go:117-144 | the pass stores and reports what it would with the failing and skipped sources removed |
| IngestionRuns.SkippedExactly | backend/internal/ingest/runner.go:15-41 | a source is skipped exactly when its last maxFailures fetches failed and the cooldown since the last of them has not passed |
| IngestionRuns.TriesAtMost | backend/internal/ingest/runner.go:26-41 | the remaining failure budget and one fetch per whole cooldown bound the fetches of a failing source |
| IngestionRuns.CircuitOfRun | backend/internal/ingest/runner.go:106-143 | in every run the circuit of a source follows from the fetches made from it alone |
| IngestionRuns.ReportSkipsExactly | backend/internal/ingest/runner.go:125-135 | in every run a pass reports a source as skipped if and only if its last maxFailures fetches all failed, the last less than a cooldown ago |
| IngestionRuns.FailingSourceIsAskedSeldom | backend/internal/ingest/runner.go:127-144 | in any run, sweeps included, in which it fails at every pass between two instants a source is asked at most maxFailures + floor(T / cooldown) times for the time T between them |
| IngestionRuns.StaleExactly | backend/internal/ingest/memstore.go:55-72 | on every run a listing is stale exactly when some sweep since it was last seen found it too old, and has been since the first such sweep |
| IngestionRuns.UnseenIsUnknown | backend/internal/ingest/memstore.go:44-53 | a listing that no pass delivered is not stored |
| IngestionRuns.SeenOftenStaysActive | backend/internal/ingest/staleness.go:11-16 | a listing seen less than the age before each sweep is active |
| IngestionRuns.ListingsKeepTheirKeys | backend/internal/ingest/memstore.go:50-51 | every listing stays stored under its own dedup key |
| PresentListings.PresentIsSeen | backend/internal/ingest/conditionalfetch.go:15-21 | a successful fetch, replayed or not, stores a listing under the key of every acceptable listing that its source holds |
| PresentListings.PresentListingStaysActive | backend/internal/ingest/conditionalfetch.go:15-21 | a listing whose key stays at its source, while its details may change, is active from the first successful pass on, whatever is answered with 304, when successful passes are less than the maximal age apart |
| LocalFeed.ServeActive | backend/internal/feed/service.go:150-157 | listing the active jobs and searching them gives the reference page, however they are listed |
| LocalFeed.PresentListingIsServed | backend/internal/feed/service.go:150-157 | the job stored for such a listing is on a served page if and only if it matches and its position is reached; for limits from one to the maximum, if and only if it matches |
| Salary.Grouped | backend/internal/feed/service.go:330-347 | the digits in groups of three counted from the right |
| Salary.ParseSalaryIDR | backend/internal/ingest/normalize.go:255-304 | the stated range after the skip, foreign and rupiah conditions, from the amounts or, with the shorthand, from millions |
| Salary.WrittenIsGrouping | backend/internal/feed/service.go:336-342 | placing dots while counting from the left groups the digits from the right |
| SalaryTheorems.StripUndoesGrouping | backend/internal/ingest/normalize.go:282 | stripping dots and commas undoes the grouping |
| SalaryTheorems.TokensOfTwo | backend/internal/ingest/normalize.go:281 | the amounts of a label are its only tokens, in order |
| SalaryTheorems.LabelRoundTrip | backend/internal/feed/service.go:308-327 | for all int64 bounds, parsing the printed rupiah range returns them if and only if 0 <= lo <= hi |
| SalaryTheorems.OneBoundRoundTrip | backend/internal/feed/service.go:320-323 | a single bound comes back as both bounds if and only if it is not negative |
| SalaryTheorems.NegativeBoundIsLost | backend/internal/feed/service.go:343-345 | a range from -5 to 10 comes back as 5 to 10, and -5 alone as 5 |
| SalaryTheorems.DescendingRangeIsSwapped | backend/internal/ingest/normalize.go:297-302 | a range from 10 to 5 comes back as 5 to 10 |
| SalaryTheorems.EstimateIsNotStated | backend/internal/feed/service.go:302-304 | a printed estimate always parses to no stated pay |
| SalaryTheorems.ForeignLabelIsNotStated | backend/internal/feed/service.go:308-327 | neither does pay printed in a currency that the parser knows as foreign |
| SalaryForms.EmptyLabelExactly | backend/internal/feed/service.go:306-327 | the label is empty if and only if no pay is stated |
| SalaryForms.RangeIsTwoAmounts | backend/internal/feed/service.go:317-319 | a range is printed as its lower amount, a dash and its upper amount; equal bounds as one amount |
| SalaryForms.OtherCurrencyIsPrintedAlike | backend/internal/feed/service.go:313-316 | another currency is printed like rupiah, with its own sign |
| SalaryForms.EstimateIsAMarkedRange | backend/internal/feed/service.go:302-304 | an estimate is the label of its range between a tilde and "(estimated)" |
| SalaryForms.DotsExactly | backend/internal/feed/service.go:336-342 | grouped digits have a dot after every third digit from the right and nowhere else |
| SalaryForms.SkippedExactly | backend/internal/ingest/normalize.go:257-264 | the seven words that mean that no pay is stated, and no others |
| SalaryForms.ForeignExactly | backend/internal/ingest/normalize.go:28 | the four signs and thirteen codes that make a text foreign, a code at the end of a word |
| SalaryForms.AmountIsRead | backend/internal/ingest/normalize.go:281-296 | an amount behind Rp or IDR, in any case, is read with dots and commas dropped, as both bounds, and one beyond 64 bits is dropped |
| SalaryForms.ShorthandIsRead | backend/internal/ingest/normalize.go:269-279 | a whole number before "juta" or "jt", with a space or none, states that many millions without any other currency word |
| SalaryForms.FractionIsRead | backend/internal/ingest/normalize.go:272-279 | a number with a dot or a comma before "juta" is one number, read as a floating-point one |
| SalaryTheorems.JutaRangeIsExact | backend/internal/ingest/normalize.go:269-279 | a range of whole numbers in "juta" states exactly that many millions, the smaller first |
| SalaryTheorems.JtAmountIsExact | backend/internal/ingest/normalize.go:269-279 | a whole number in "jt" states exactly that many millions |

## Left out

- Arming: records in the session area that another program could have written and that `read` filters out
  (extension/src/arming.ts:550-586); the model holds what the store itself wrote.
- Arming: negative tab ids and the order of keys that are not array indices; tabs are natural numbers.
- Arming: the optional absence of an alarm scheduler, and URL-scoped arms of the in-memory store, which the durable
  store does not have.
- Arming: the content hash is taken to be collision-free; base64 decoding and encoding are parameters.
- Background: origin checks, message parsing, script injection and telemetry.
- Guard: the lookup of a form or control for an event target; events arrive classified.
- Guard: credits of submit controls have no deadline in the code, so none is proved for them.
- Feed: Unicode case folding, white space and collation; texts are ASCII, with one title order for Go and Postgres.
- Feed: the text of the SQL clauses; they are syntax trees, and the one OR among them stands in parentheses in the text.
- Feed: integer widths, time zones and the rounding of timestamps by the database.
- Feed: text columns that are NULL; `Upsert` writes Go strings, which never are.
- Rate limiter: the mutex; calls are atomic.
- Ingestion: the difference between a nil and an empty list of raw jobs.
- Ingestion: `Normalize`, the region filter and `ValidateSourceURL` are functions that the runner is given.
- Ingestion: all listings of a pass carry one reading of the store's clock; durations do not saturate.
- Ingestion: the registry; that ids are distinct, which it enforces, is a hypothesis of the theorems on passes.
- ListingStore.MemoryStore.Snapshot: the order of two listings with equal source and title is not fixed, because the
  code's sort is not stable.
- Salary.ParseSalaryIDR: in the "juta" and "jt" shorthand the rounded reading of fractions, and of whole numbers above
  9007199254, whose millions a double cannot always hold, is a parameter.
- Salary: the formatters that print with `%g`, which switches to exponent notation for large amounts.
- The user interface, the auth, profile, CV and M5 services, the browser and database drivers: plumbing, or easier
  members of the same kinds.
