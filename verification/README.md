# Verified model of the task tracker

A Dafny model of the stateful protocols of the task tracker service, with proofs of what
they promise. `dafny verify dfyconfig.toml` checks everything.

**Outbox relay** (`Outbox`, `Sharding`, `Shard`, `Relay`, `RetryDelay`, `OutboxStore`, `Utf8`,
`Dedup`, `RelayProtocol`, `RelayRuns`, `RelayResend`). Letters are rows of a table. A relay claims a batch by locking
rows, splits it into shards, checks dedup marks, makes one provider call a shard, marks what
was delivered and settles in the transaction that holds the locks. The loops of `processShard`,
`collect`, `shardBy`, `truncateUTF8` and the statement builders are methods proved against
specification functions; the batched statements are compiled to fragments and arguments and
read back the way the server does. `RelayProtocol` interleaves the single calls of every shard
of every tick of any number of relays, with crashes, lost locks, rollbacks, panics, expiring
marks and failing calls, and proves what holds after every run. `Charge` there lists what
counts as a fault; a rollback after the shards are done is none. `RelayRuns` shows that a tick
of the method form is such a run, `RelayResend` when a message goes out again.

**Task-list cache** (`Decimal`, `CacheKeys`, `ListCache`). Readers take a version, look up,
query and fill; writers commit and then bump the version. All of it interleaves. The freshness
theorem relates each answer to a commit of the database; it rests on the keys being injective,
which is proved from the decimal texts up.

**Audited tasks** (`TaskTable`, `TaskAudit`, `TaskRuns`, `TaskService`). An update locks the
row, writes it, and inserts a history row for each moved field. `TaskRuns` interleaves
transactions at the level of single statements, with one shared counter for history ids.
`TaskService` is the same code as methods, with every statement able to fail.

**Keyset paging** (`Keyset`, `TaskTable`, `TopCreators`), **invites** (`Teams`) and the
**shutdown budget** (`TickTime`, `Shutdown`): how long a tick takes is worked out from the
context of each call.

## Findings

- `backoff` multiplies seconds by 10^9 in an int64. At attempt 310 the product wraps to a
  negative number (`BackoffOverflows`) and the row is due at once (`OverflowedIsDue`). Delays
  are as intended exactly when `max_attempts` is at most 310 (`DelaysGoodIffMaxAttempts`); the
  configuration check has no upper bound.
- `truncateUTF8` steps back over tail bytes and then drops the bytes that form no character.
  On text that is not valid UTF-8 the result can be any amount short of the limit: for every
  limit there is a text of which nothing is left (`TailTextExists`). `TruncatedLength` counts
  the lost bytes for every text, and so says when at most three are.
- The README of the service says a crash between send and commit does not resend. The code
  marks a message after the provider's answer, one by one, so a crash before the mark does:
  `CrashSendsTwice` is such a run. `CrashedResendsIff` says when: after a crash a row the tick
  held can be delivered again, at no further fault, exactly when its mark is not there. What
  `Charge` counts is an upper bound: it also charges, for instance, a mark that expires on a row
  that has failed for good.
- `outbox.budget` is said to cap how long a tick holds its rows. It caps the sending; the
  transaction may take `SettleWindow`, six seconds more, and `HoldsForWindow` is a tick that
  does. `HoldsPastBudgetIff` says exactly which ticks hold their rows past the budget.
- When the settle window equals the shutdown phase, which the configuration check allows, a
  stop that reaches the relay more than a nanosecond after the phase began can leave a tick
  in flight when the phase ends (`SettledWithinPhaseIff`).

## Model

| member | source | states |
|---|---|---|
| `RelayProtocol.NothingIsLost` | internal/infrastructure/outbox/relay.go:98-152 | after any run of any number of relays, with crashes, rollbacks, lost locks, panics and dedup faults, every id ever enqueued is either a row or was deleted, never both; a deleted or marked id was accepted by the provider |
| `RelayProtocol.DeliveriesBounded` | internal/infrastructure/outbox/relay.go:219-285 | an id is accepted at most once more than faults were charged to it, and no more than its faults while nothing (mark, deletion, shard about to mark) stands for the delivery; a rollback after the shards are done charges nothing |
| `RelayProtocol.AttemptsBounded` | internal/infrastructure/outbox/relay.go:298-319 | pending rows have attempts left, failed rows have used exactly max_attempts, and no attempt is spent without a refusal of that message or a panic of its shard |
| `RelayProtocol.FailedIsFinal` | internal/infrastructure/persistence/outbox.go:36-67 | no step whatever changes or removes a failed row |
| `RelayProtocol.ClaimsDisjoint` | internal/infrastructure/persistence/outbox.go:36-67 | two shards of open ticks that hold their locks and work on one id are the same shard; each claimed row is locked and pending with the attempts it was claimed with until the tick ends or loses its locks |
| `RelayProtocol.CommittedRows` | internal/infrastructure/outbox/relay.go:119-135 | a commit removes exactly the ids its shards sent, changes only locked pending rows, by one attempt, and fails a row exactly when that attempt is the last |
| `RelayProtocol.StepKeeps` | internal/infrastructure/outbox/relay.go:98-287 | the invariant behind the run theorems is kept by every step, whatever interleaves |
| `RelayProtocol.ShardIsARun` | internal/infrastructure/outbox/relay.go:182-287 | where the looping method ends is where a run of protocol steps of that shard ends, which touches nothing else but marks |
| `RelayRuns.TickIsARun` | internal/infrastructure/outbox/relay.go:98-152 | a whole tick, with any surroundings of its shards, is a run that ends with the table the tick method leaves, committed or rolled back |
| `RelayRuns.MessagesAreEnqueued` | internal/infrastructure/outbox/relay.go:212-231 | in every run a row, and every message a shard holds to send, is as it was enqueued, and no id is enqueued twice |
| `RelayResend.CrashSendsTwice` | internal/infrastructure/outbox/relay.go:231-285 | the run: enqueued, claimed, not found marked, accepted and reported delivered, crash, claimed and accepted again; two deliveries, one fault |
| `RelayResend.CrashedResendsIff` | internal/infrastructure/outbox/relay.go:271-285 | after a crash in any reachable state, a pending row the tick held can be delivered again without a further fault if and only if its mark is not there |
| `RelayResend.ResendIff` | internal/infrastructure/outbox/relay.go:219-285 | the same for every pending row that no tick holds, in every reachable state |
| `RelayResend.GuardedStep` | internal/infrastructure/outbox/relay.go:219-285 | no step delivers a marked message that no lock holder is about to send, or takes that protection away, without charging it |
| `Shard.ProcessShard` | internal/infrastructure/outbox/relay.go:182-287 | the loops, early returns and the deferred recovery end in the outcome, and the request to stop the siblings, of the step machine |
| `Shard.MarkDelivered` | internal/infrastructure/outbox/relay.go:271-286 | the marking loop, from any point of the machine it can be entered at |
| `Shard.ShardDecides` | internal/infrastructure/outbox/relay.go:198-286 | what the answers decide: a skipped shard touches nothing; else sent is the marked ids in order and then the delivered ones in order, retry the refused ones in order with their reasons, delivered their number; after a failed call or a wrong number of results only the marked ones; after a panic the verdicts booked so far and the rest of the messages to be retried |
| `Shard.CheckPanicDecides` | internal/infrastructure/outbox/relay.go:184-226 | a panic during a check: the marked ids so far are sent, the messages found unmarked so far are to be retried |
| `Shard.ChecksSay` | internal/infrastructure/outbox/relay.go:212-231 | the marked ids are those of the messages whose check found a mark, and the ones to send are the others |
| `Shard.PanicReason` | internal/infrastructure/outbox/relay.go:184-196 | each message a panic puts back goes with the reason "relay panic: " and what was recovered |
| `Shard.VerdictsSay` | internal/infrastructure/outbox/relay.go:263-286 | the delivered ids are those with a delivered verdict, and the refused messages go with the reason of their own verdict |
| `Shard.ExactlyOnePlace` | internal/infrastructure/outbox/relay.go:212-286 | when nothing fails every message of the shard is in exactly one of sent and retry |
| `Shard.ShardAccounting` | internal/infrastructure/outbox/relay.go:182-287 | for all answers: without a panic no id is in both lists or twice in one; after a panic at any call every pending message is still in sent or retry; a shard that pauses the relay lists no retry, so spends no attempt |
| `Shard.NextAccounted` | internal/infrastructure/outbox/relay.go:182-287 | the accounting is kept by each single call of a shard |
| `Sharding.ShardBy` | internal/infrastructure/outbox/relay.go:339-355 | the slicing loop yields such shards: at most the workers, non-empty, of one size, which is the rounded-up quotient, but a shorter last one, concatenating to the claim |
| `Sharding.ShardsCover` | internal/infrastructure/outbox/relay.go:339-355 | no shard is empty, they concatenate to the claim, and all have the size of the first but for a shorter last one: the claim divided by the smaller of claim and max(workers, 1), rounded up |
| `Sharding.SizeIsQuotient` | internal/infrastructure/outbox/relay.go:340-350 | the size is that quotient and no other number |
| `Relay.Collect` | internal/infrastructure/outbox/relay.go:298-319 | a message with an attempt left is rescheduled, at a possible delay, and the others fail, each with its reason, and nothing else is listed; the settlement pauses exactly when some outcome does, for the longest pause a paused one asks for, which is at least 0 |
| `Relay.CollectedSays` | internal/infrastructure/outbox/relay.go:298-319 | the lists of a settlement, outcome by outcome: sent are the ids some shard sent, rescheduled and failed the messages some shard has to retry, by whether an attempt is left |
| `Relay.PauseIsAsked` | internal/infrastructure/outbox/relay.go:313-318 | some outcome pauses or none does, and the longest pause is that of a paused outcome or 0 |
| `Relay.DeliveredAdds` | internal/infrastructure/outbox/relay.go:305-305 | what is counted as delivered adds up over the shards |
| `Relay.SettledPointwise` | internal/infrastructure/outbox/relay.go:128-134 | Delete, Reschedule and MarkFailed in that order are one function of each row: gone if sent, else one attempt more with the status the limit decides and a possible delay, else unchanged; overlapping and repeated entries included |
| `Relay.TickPointwise` | internal/infrastructure/outbox/relay.go:98-152 | rows the tick did not claim are untouched; a claimed row turns failed exactly when the attempt it spends is the last allowed |
| `Relay.TickColumns` | internal/infrastructure/outbox/relay.go:98-152 | on the columns: a row that stays is as it was, or was claimed, keeps its message, has one attempt more and has failed exactly when that reaches max_attempts; put off after attempt 1 to 309 it waits min(attempt^4 s, 1 h) within ten percent, as stored in microseconds |
| `Relay.TickPlaces` | internal/infrastructure/outbox/relay.go:119-135 | the rows that go are those some shard sent, and every other message some shard has to retry spends an attempt |
| `Relay.PutOffIsNotClaimed` | internal/infrastructure/persistence/outbox.go:41-46 | a row a tick put off is in no claim, of any relay, before nine tenths of min(attempt^4 s, 1 h) are over |
| `Relay.WaitIsGood` | internal/infrastructure/persistence/outbox.go:94-94 | what is left of a delay in whole microseconds is still within the ten percent |
| `Relay.DispatchAccounting` | internal/infrastructure/outbox/relay.go:154-167 | across the shards of a tick without a panic no id is listed twice or in two of sent, reschedule and fail, so the batched statements equal one statement a row |
| `Relay.DispatchPlacesAll` | internal/infrastructure/outbox/relay.go:154-167 | when nothing fails every claimed id is in exactly one of sent, reschedule and fail |
| `Relay.Dispatch` | internal/infrastructure/outbox/relay.go:154-167 | runs the shards of the claim and collects their outcomes |
| `Relay.Relay.Settle` | internal/infrastructure/outbox/relay.go:119-135 | stops at the first failing call; when none fails the table is the settled one |
| `Relay.Relay.Tick` | internal/infrastructure/outbox/relay.go:98-152 | all or nothing on the table, nothing while paused; with no pause asked for by a shard the relay does not pause, and with one it pauses for the longest positive pause asked for or 30 s, even when the transaction is rolled back; a recovered panic rolls back and pauses for 30 s; the rows that stay, column by column, and the ones that go |
| `Relay.Relay.Pause` | internal/infrastructure/outbox/relay.go:321-328 | no tick before now plus the hint, or plus 30 s when the hint is not positive |
| `RetryDelay.DelaysGoodIffMaxAttempts` | internal/infrastructure/outbox/relay.go:357-364 | every delay is positive and within ten percent of min(attempt^4 s, 1 h) if and only if max_attempts is at most 310 |
| `RetryDelay.BackoffOverflows` | internal/infrastructure/outbox/relay.go:357-364 | at attempt 310 the nanoseconds wrap around an int64 and the delay is negative, whatever the jitter |
| `Relay.OverflowedIsDue` | internal/infrastructure/outbox/relay.go:357-364 | such a row is due again at once |
| `RetryDelay.BackoffGood` | internal/infrastructure/outbox/relay.go:357-364 | attempts 1 to 309 get a delay within ten percent, for every jitter |
| `OutboxStore.ClaimTakesOldest` | internal/infrastructure/persistence/outbox.go:36-67 | a due unlocked row is left out of the claim only when the batch is full with older rows |
| `OutboxStore.ClaimIdsClaim` | internal/infrastructure/persistence/outbox.go:36-67 | on the columns: claimed are rows of the table, pending, not locked, with no retry time or one that has come, by ascending id, at most a batch; such a row is left out only when the batch is full with smaller ids |
| `OutboxStore.RescheduleCompiles` | internal/infrastructure/persistence/outbox.go:81-108 | the built statement, read back placeholder by placeholder, updates exactly the listed rows, once each, with the delay and error of the first item that names the row |
| `OutboxStore.RescheduledPutsOff` | internal/infrastructure/persistence/outbox.go:81-108 | on the columns: a listed row is pending with one attempt more, the error cut to 1024 bytes, and a retry time that is the delay of its first item after now, to the microsecond; any other row is as it was |
| `OutboxStore.MarkedGivesUp` | internal/infrastructure/persistence/outbox.go:110-132 | on the columns: a listed row has failed with one attempt more and the error of its first item; any other row is as it was |
| `OutboxStore.MicrosWait` | internal/infrastructure/persistence/outbox.go:94-94 | the microseconds written are the delay in nanoseconds, of either sign, without the fraction |
| `OutboxStore.MarkFailedCompiles` | internal/infrastructure/persistence/outbox.go:110-132 | the same for MarkFailed |
| `OutboxStore.DeleteCompiles` | internal/infrastructure/persistence/outbox.go:69-79 | the built DELETE removes exactly the listed rows |
| `OutboxStore.PlaceholdersMatchArgs` | internal/infrastructure/persistence/outbox.go:81-132 | as many placeholders as arguments: 5n and 3n |
| `OutboxStore.BatchEqualsOneByOne` | internal/infrastructure/persistence/outbox.go:81-108 | without repeated ids the batch equals one UPDATE an item |
| `OutboxStore.FailuresEqualOneByOne` | internal/infrastructure/persistence/outbox.go:110-132 | the same for MarkFailed |
| `OutboxStore.OutboxRepo.Enqueue` | internal/infrastructure/persistence/outbox.go:26-34 | a pending row under a new id, the rest of the table as it was |
| `OutboxStore.OutboxRepo.Claim` | internal/infrastructure/persistence/outbox.go:36-67 | the claimed rows by ascending id with their messages and attempts, at most a batch: each pending, not locked, without a retry time or with one that has come; any other such row only when the batch is full with smaller ids |
| `OutboxStore.OutboxRepo.InClause` | internal/infrastructure/persistence/outbox.go:161-175 | the loop writes one mark and one argument an id, with a comma between |
| `OutboxStore.OutboxRepo.Delete` | internal/infrastructure/persistence/outbox.go:69-79 | the listed rows are gone; an empty list runs no statement |
| `OutboxStore.OutboxRepo.Reschedule` | internal/infrastructure/persistence/outbox.go:81-108 | builds the statement in its loops and has it executed; each listed row is then pending, with one attempt more, the error cut to 1024 bytes, and due the delay of its first item after now, to the microsecond; no other row changes |
| `OutboxStore.OutboxRepo.MarkFailed` | internal/infrastructure/persistence/outbox.go:110-132 | builds the statement in its loops and has it executed; each listed row has failed with one attempt more and the error of its first item; no other row changes |
| `Utf8.Truncate` | internal/infrastructure/persistence/outbox.go:151-159 | the backward loop yields a valid text of at most maxBytes bytes; of a valid text its longest valid prefix that fits |
| `Utf8.EncodingIsCharacter` | internal/infrastructure/persistence/outbox.go:149-159 | every scalar value, of one to four bytes, is one character of valid text |
| `Utf8.CharacterIsEncoding` | internal/infrastructure/persistence/outbox.go:149-159 | every character is the encoding of one scalar value: surrogates, overlong forms and values above U+10FFFF are none |
| `Utf8.TruncatedFits` | internal/infrastructure/persistence/outbox.go:151-159 | for every byte string: valid UTF-8, at most maxBytes bytes, and idempotent |
| `Utf8.TruncatedLongest` | internal/infrastructure/persistence/outbox.go:151-159 | on valid text the longest valid prefix that fits, at most three bytes short |
| `Utf8.TruncatedLength` | internal/infrastructure/persistence/outbox.go:151-159 | on every text over the limit the result is short of it by exactly the bytes that belong to no character or have only tail bytes between them and the limit; so by at most three if and only if those are at most three |
| `Utf8.TailTextExists` | internal/infrastructure/persistence/outbox.go:155-157 | for every limit there is a text of which nothing is kept |
| `Utf8.CutBackOff` | internal/infrastructure/persistence/outbox.go:155-157 | on any text the loop backs off at most three bytes if and only if one of the last four candidates can begin a character |
| `Utf8.BoundaryIffStart` | internal/infrastructure/persistence/outbox.go:149-159 | in valid text a prefix ends on a character boundary exactly before a starting byte |
| `Utf8.SanitizedAppend` | internal/infrastructure/persistence/outbox.go:149-159 | sanitizing keeps a valid text in front whole and treats the rest as if it stood alone |
| `Dedup.Dedup.WasSent` | internal/infrastructure/cache/dedup.go:29-41 | true only when the store answers and the own mark is there and has not run out: it fails open |
| `Dedup.Dedup.MarkSent` | internal/infrastructure/cache/dedup.go:43-52 | marks this id for one time to live and no other id; an unanswered call changes nothing |
| `Dedup.SeenWasMarked` | internal/infrastructure/cache/dedup.go:29-52 | over any sequence of marks and evictions, a mark that is seen was set for that id less than one time to live before |
| `CacheKeys.MarkKeyInjective` | internal/infrastructure/cache/dedup.go:30-30 | different ids have different marks |
| `CacheKeys.MarkKeyApart` | internal/infrastructure/cache/dedup.go:30-44 | no mark is a key of the task-list cache, which is in the same Redis |
| `CacheKeys.ListKeyInjective` | internal/infrastructure/cache/tasks.go:87-97 | on filters the parser accepts, equal list keys mean equal version and equal filter, although an absent status is written "" and an absent assignee 0 |
| `CacheKeys.ListKeyIsNoVersionKey` | internal/infrastructure/cache/tasks.go:83-97 | no list key, of any filter, is a version key |
| `CacheKeys.VersionKeyInjective` | internal/infrastructure/cache/tasks.go:83-85 | different teams have different version keys |
| `CacheKeys.ParseListFilterIff` | internal/transport/http/tasks/tasks.go:228-266 | the filters some request produces are exactly the valid ones; a team alone asks for the first twenty of all its tasks |
| `CacheKeys.ParseDecides` | internal/transport/http/tasks/tasks.go:228-266 | parameter by parameter which requests are refused, an unknown status and an out-of-range limit among them, and what the others ask for |
| `CacheKeys.ParseRoundTrip` | internal/transport/http/tasks/tasks.go:228-266 | every valid filter, written as request parameters, parses back to itself |
| `Decimal.RoundTrip` | internal/transport/http/tasks/tasks.go:228-266 | a number written in base 10 parses back to itself, over all of int64 |
| `Decimal.FormatIntTens` | internal/transport/http/tasks/tasks.go:228-266 | base ten: a further digit is ten times as much and that digit |
| `Decimal.ParseIntReads` | internal/transport/http/tasks/tasks.go:228-266 | besides those texts a plus sign and leading zeros are read over, and nothing but a sign and digits is a number |
| `ListCache.ReadsAreFresh` | internal/service/tasks.go:82-96 | under every interleaving of readers, writers, expiries and Redis failures, an answer is the database's answer at some commit no older than any commit of the team invalidated before the request read the version |
| `ListCache.QuietTeamReadsCurrent` | internal/service/tasks.go:82-128 | when every write of the team was invalidated before the version was read, the answer is exactly the current table's |
| `ListCache.EntriesAreFresh` | internal/infrastructure/cache/tasks.go:52-65 | every entry under version v is a query result at a commit no older than the ones invalidated when the version became v |
| `ListCache.StaleUntilInvalidated` | internal/infrastructure/cache/tasks.go:67-73 | after a write whose invalidation has not gone through, a reader of a cached list still gets the old one |
| `ListCache.CachedBrowseListsOnce` | internal/transport/http/tasks/tasks.go:104-115 | paging through the cache while tasks are written, cached, dropped and invalidated: no task is listed twice, and one that matches in all the tables answered from is listed |
| `ListCache.StepKeeps` | internal/infrastructure/cache/tasks.go:29-81 | the invariant behind them is kept by every step |
| `ListCache.TaskCache.GetList` | internal/infrastructure/cache/tasks.go:29-50 | version -1 and a miss when the version cannot be read; otherwise the version, and the entry under it if it can be read |
| `ListCache.TaskCache.SetList` | internal/infrastructure/cache/tasks.go:52-65 | under a known version that one list is the given one; every other list anyone looks up and every version stay, and nothing changes under an unknown version or when Redis does not answer |
| `ListCache.TaskCache.InvalidateTeam` | internal/infrastructure/cache/tasks.go:67-73 | the team's version goes up by one, or not at all when Redis does not answer; every other team's version and every list stay |
| `ListCache.TaskCache.List` | internal/service/tasks.go:82-96 | no answer to who may not ask; else the cached list, or the table's unless the query fails, and a fill only after a miss under a known version |
| `TaskRuns.HistoryIsFaithful` | internal/infrastructure/persistence/task.go:149-257 | under concurrent updaters a task's history, read by id, starts with its creation, and undoing the changes after version k on the current row gives the fields of version k, assignee included, for every k |
| `TaskRuns.HistoryChains` | internal/infrastructure/persistence/task.go:149-257 | consecutive changes of one field meet, every change moves the field, and the last one ends at the value the row holds |
| `TaskRuns.RowsStayGood` | internal/infrastructure/persistence/task.go:175-188 | in every version: completed exactly when done, assigned only to members, team and author never change, and the completion time stands while the task stays done |
| `TaskRuns.NoOrphans` | internal/infrastructure/persistence/analytics.go:109-134 | no page of the orphan report lists anything, in any run: every assignee is a member of the task's team |
| `TaskRuns.StepKeeps` | internal/infrastructure/persistence/task.go:27-57 | the invariant behind them is kept by every step of any interleaving |
| `TaskRuns.StepWritesOneTeam` | internal/service/tasks.go:98-128 | only commits change the visible tasks, and only those of the team invalidated next |
| `TaskRuns.UpdateIsARun` | internal/infrastructure/persistence/task.go:149-229 | the update method's writes are those of one transaction's steps |
| `TaskAudit.DiffLeads` | internal/infrastructure/persistence/task.go:190-194 | the changes of an update lead from the old fields to the new ones, each starting from the field's value and moving it |
| `TaskAudit.DiffMoves` | internal/infrastructure/persistence/task.go:190-194 | one change for each of title, description, status and assignee that moved, with the values it moved between |
| `TaskAudit.InsertedRows` | internal/infrastructure/persistence/task.go:197-204 | inserting changes adds one row a change, of that task, author and group, and leaves the other rows as they were |
| `TaskAudit.UndoInverts` | internal/infrastructure/persistence/task.go:190-204 | undoing a chain of changes gives back where it started |
| `TaskAudit.HistoryAppends` | internal/infrastructure/persistence/task.go:197-204 | rows inserted under fresh ids come last in their task's history |
| `TaskAudit.FormatIdInjective` | internal/infrastructure/persistence/task.go:273-278 | the text of an assignee, absent included, determines the assignee |
| `TaskService.TaskRepo.Create` | internal/infrastructure/persistence/task.go:27-57 | the row and its creation event, completed at once when created done; the errors of a missing reference and a failing statement |
| `TaskService.TaskRepo.Update` | internal/infrastructure/persistence/task.go:149-229 | locks, writes, and inserts one history row a moved field in its loop; succeeds exactly when the row exists and all statements get through |
| `TaskService.TaskRepo.History` | internal/infrastructure/persistence/task.go:231-257 | the task's rows, all and only those, in ascending id order with change, author and group, or the error of the query |
| `TaskService.Tasks.Create` | internal/service/tasks.go:46-80 | all or nothing: the row as given (todo by default, completed at once when done), one new history row, the creation by this actor in this group, and a version bump; or tables and version as before |
| `TaskService.Tasks.Update` | internal/service/tasks.go:98-128 | succeeds exactly when the task exists, the actor may, the assignee is a member and every statement gets through; then the row takes the input, keeps team, author and a standing completion time, and the history has its old rows and one for each moved field, of this task, by this actor, in this group, with the values it moved between; otherwise tables and cache version are as before |
| `TaskService.Recorded` | internal/infrastructure/persistence/task.go:190-204 | those history rows, column by column |
| `TaskService.Tasks.RequireAssigneeIsMember` | internal/service/tasks.go:148-160 | no assignee is fine, a non-member is refused, a failing lookup is an error |
| `TaskTable.List` | internal/infrastructure/persistence/task.go:88-147 | each listed task is the table's row under its id, of the team, with the status and the assignee asked for if any, above the cursor; ids ascend; at most limit, and such a row is left out only when the page is full with smaller ids |
| `TaskTable.QueryColumns` | internal/infrastructure/persistence/task.go:88-147 | the same of the query, on the columns |
| `TaskTable.MatchingColumns` | internal/infrastructure/persistence/task.go:93-108 | what a filter asks of a row, on the columns |
| `TaskTable.ListPage` | internal/transport/http/tasks/tasks.go:104-115 | the same of the page, whose cursor is its last id exactly when it is full; a page without a cursor shows every matching task above the request's cursor |
| `TaskTable.BrowseWholeList` | internal/transport/http/tasks/tasks.go:104-115 | over an unchanging table the pages are the whole filtered list in id order, in floor(n/limit)+1 requests |
| `TaskTable.BrowseMovingTable` | internal/transport/http/tasks/tasks.go:104-115 | over a changing table no task is listed twice and one that matches at every request is listed |
| `TaskTable.BrowseShowsRows` | internal/infrastructure/persistence/task.go:122-146 | a page shows rows as the table had them at that request |
| `Keyset.WalkMissesNothing` | internal/infrastructure/persistence/task.go:109-114 | the keyset rule behind it, for any table read by id |
| `TopCreators.ReportPage` | internal/transport/http/analytics/analytics.go:96-115 | rows by team, then falling count, then user, each with the number of tasks the user created in the team in the month; a team's first three, none left out but behind three; at most limit teams, left out only behind smaller ids; the cursor is the last team of a full page |
| `TopCreators.ReportColumns` | internal/infrastructure/persistence/analytics.go:62-107 | the same of the query, on the columns of the tasks |
| `TopCreators.PagingDecides` | internal/transport/http/analytics/analytics.go:169-185 | which requests are refused and what the others ask for |
| `TopCreators.CursorIsTeamCursor` | internal/transport/http/analytics/analytics.go:99-114 | counting adjacent distinct team ids in the rows counts the teams on the page |
| `TopCreators.ReportListsEveryTeam` | internal/infrastructure/persistence/analytics.go:62-107 | following cursors lists every active team exactly once, never split, in floor(n/limit)+1 requests |
| `TopCreators.TeamRowsAreBest` | internal/infrastructure/persistence/analytics.go:71-91 | a team's rows are its creators by count, then id, with exact counts and ranks; one is left out only behind three better |
| `TopCreators.CursorComesBack` | internal/transport/http/analytics/analytics.go:169-185 | a cursor handed out is accepted when sent back |
| `Teams.InvitesMatchLetters` | internal/service/teams.go:39-80 | in every run of concurrent creations and invites: one letter for each non-owner membership, one such membership for each letter, one owner, the creator, for each team |
| `Teams.StepKeeps` | internal/service/teams.go:62-80 | the invariant behind it is kept by every step |
| `Teams.OneToOne` | internal/service/teams.go:74-78 | a letter's text and address determine its membership |
| `Teams.TeamService.Create` | internal/service/teams.go:39-52 | team and a membership with role "owner" of its creator together, or only a used-up id; a creator who is no user is an error |
| `Teams.TeamService.Invite` | internal/service/teams.go:62-80 | succeeds exactly when allowed, the address is known, the team exists, the user is no member and the statements get through; then there is one membership more, with role "member", and one letter more, to the address, with its subject and text; a failed invite leaves neither |
| `Teams.TeamService.AddMember` | internal/infrastructure/persistence/team.go:86-104 | the duplicate and foreign-key errors, and otherwise the one new row |
| `Shutdown.ShutDownApp` | internal/app.go:77-81 | with a validated configuration and a prompt stop, every tick has ended before the release phase, none starts later, release still has a full phase, and all ends within the total |
| `Shutdown.SettledWithinPhaseIff` | internal/config.go:139-143 | whatever the ticker did, the last tick settles within the phase if and only if window plus lateness of the stop is at most phase plus one nanosecond |
| `Shutdown.TicksEnd` | internal/infrastructure/outbox/relay.go:72-87 | ticks run one by one, none starts after cancellation, none is longer than its window, and the loop is done less than a window after cancellation |
| `Shutdown.Run` | internal/infrastructure/outbox/relay.go:72-87 | the select loop runs exactly the ticks received before cancellation, a prefix of them, and is done at cancellation or when the last of them ends |
| `TickTime.TickWithinWindow` | internal/infrastructure/outbox/relay.go:108-135 | from the deadlines of the single calls alone: every shard is answered by the end of the budget and has marked a second later, unless the claim took longer, and the tick ends within its settle window |
| `TickTime.GraceLeftToSettle` | internal/infrastructure/outbox/relay.go:108-111 | when the shards are done the whole settle grace is left if and only if the claim came back by the end of the budget plus a second |
| `TickTime.HoldsPastBudgetIff` | internal/infrastructure/outbox/relay.go:52-52 | rows are held past the budget if and only if claim and settlement, alone or with some shard, would take longer than it |
| `TickTime.HoldsForWindow` | internal/infrastructure/outbox/relay.go:52-52 | a timeline that holds the rows for the budget plus six seconds |
| `TickTime.ShardTime` | internal/infrastructure/outbox/relay.go:198-286 | the check loop, the call and the mark loop of a shard under their contexts, in closed form |
| `TickTime.CallAll` | internal/infrastructure/outbox/relay.go:219-226 | a loop of calls under one context returns when the calls are done or the context has ended |
| `Shutdown.RunPhase` | internal/infrastructure/lifecycle/closer.go:73-109 | the counting loop ends with the last report or at the deadline, and what it abandons is what has not reported by the deadline |
| `Shutdown.Closer.AddDrain` | internal/infrastructure/lifecycle/closer.go:53-57 | the functions are added behind those of the drain phase |
| `Shutdown.Closer.AddClose` | internal/infrastructure/lifecycle/closer.go:47-51 | the functions are added behind those of the release phase |
| `Shutdown.Closer.ShutDown` | internal/infrastructure/lifecycle/closer.go:59-71 | runs at most once, starts every registered function once, closes after drains, within the total and with a full phase for release |

## Left out

- HTTP decoding and routing, JSON, logging, metrics, the authorizer's decision (a parameter), comments, team statistics, user accounts, `OldestPendingAge`: they would add only easy members.
- The provider: an oracle that accepts any part of what it is given at most once a call and answers, fails, panics or answers the wrong number of results.
- The transaction manager: a transaction commits whole or not at all, and the database releases its locks when it ends.
- Relay.Dispatch: the shards run one after another; each has arbitrary surroundings, the end of its context included, which covers what the goroutines can do to one another, and RelayProtocol interleaves them call by call.
- RetryDelay.BackoffGood: jitter is a real number in [0, 1) and products are exact, so rounding of float64 is not modelled; from attempt 9742 on, where attempt^4 is above 2^53, and beyond the range of int64 the conversion is the mathematical value wrapped.
- OutboxStore.OutboxRepo.Reschedule: times are microseconds; the DATETIME(3) rounding and the width of the attempts column are not modelled, and a statement's own failure is a fault of the tick (Relay.Relay.Settle).
- Utf8.Truncate: the `maxBytes` argument is a natural number; it is the constant 1024 in every call.
- Dedup.Dedup.MarkSent: a time to live below zero, which Redis reads as keeping the old one, is not modelled.
- ListCache.ReadsAreFresh: version keys are never evicted and no version exceeds an int64; a list is encoded and decoded without loss, and an undecodable entry is a miss.
- TaskRuns.HistoryIsFaithful: a history row's time and `updated_at` are not modelled, change groups are given and may repeat, and a description is never NULL, as the code writes none.
- TaskRuns.UpdateIsARun: the row an update returns is the row it wrote; how the database's snapshot reads see a row that an UPDATE left as it was is not modelled.
- TaskService.Tasks.Update: one session at a time; TaskRuns has the interleavings.
- TaskService.TaskRepo.Create: a foreign key that fails is one parameter for all three references.
- TopCreators.ReportListsEveryTeam: one fixed table and one fixed month for the whole walk; team and user names, which the foreign keys make available, are not part of the rows.
- Teams.TeamService.Invite: an address finds at most one user and keeps finding that one; letters are all those ever enqueued, not the rows still waiting.
- Shutdown.RunPhase: reports come in the order they are made, and a report at the very deadline is counted; the panic of a closer is a report.
- TickTime.TickWithinWindow: a call returns by the deadline of the context it is given, and what the relay computes between calls takes no time, starting its goroutines included.
- Shard.ProcessShard: panics while a log line is written are not modelled; one while an error or a hint of the provider is read is a panic of the call.
- TaskService.TaskRepo.History: without the time of a change.
- RelayResend.ResendIff: the run that delivers again has a tick with a batch as large as all that is due and one worker; RelayProtocol lets each tick choose both.
- RelayProtocol.DeliveriesBounded: Charge may count a fault that can cause no delivery any more, so the bound is not always reached.
- Auto-increment ids are never reused.
