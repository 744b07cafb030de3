# Mail connector: a verified model

The connector polls IMAP mailboxes, stores new messages in PostgreSQL, pushes them to a CRM and mirrors
each mailbox's health there. A worker process runs the jobs, a backend process serves the
administration and pull API, and Redis holds queues, locks and counters between them. This project models
the parts of it whose correctness rests on interleavings, crashes or arithmetic.

How the model is laid out:

- **Protocols** are machines of interleaved steps (`ImapSync`, `Outbox`, `StatusMirror`, `OAuthRefresh`,
  `DeferredFlush`). An event is one atomic action of one process - a commit, a Redis command, an answer
  from a server, a crash - and a run is any sequence of events that can happen. Ghost history records what
  the real system does not store.
- **Jobs and repositories** that change state in place are classes and methods with loops, each proved
  against a function on values (`MailAccounts`, `Messages`, `PushJobs`, `StatusDispatch`, `RateLimit`,
  `Retention`, `Breaker`, `ImapFetcher`, `DeferredFlush`, `Migration`, `Credentials`). `PushJobs.TickIsRun` and
  `StatusDispatch.TickIsRun` connect a job back to its machine: an undisturbed tick is one of the machine's runs.
- **Refinements** (`SyncJob`, `TokenService`) write the two longest flows as the program does, with other
  processes acting between any two of their steps. The object keeps a ghost trace, and every execution is proved
  to be a run of `ImapSync` or `OAuthRefresh`; what is proved of all runs therefore holds of these flows.
- **Pure rules** are functions with lemmas (`Classifier`, `Utf8`, `Headers`, `Paging`).
- `Seqs` and `Text` hold the list and string vocabulary the others share.

The four results the rest leads up to:

1. `ImapSync.SyncHasNoGap` - in every interleaving of mail arriving, being expunged or renumbered, crashes
   and any number of concurrent sync jobs, no message below the stored cursor is missing without a reason.
   The two traps in the fetch (a swallowed search error, a cursor kept under a new UIDVALIDITY) are
   conditions on single steps. A step that violates one loses mail if it hides a message nothing else explains
   (`ImapSync.HarmfulSearchLosesMail`, `KeptCursorSkipsMail`) or puts the cursor beyond the server's UIDNEXT
   (`HarmfulCursorLosesMail`); `ImapFetcher.FetchIsSoundIff` gives the exact condition for one fetch.
2. `StatusMirror.MirrorConverges` - whenever the CRM shows a mailbox differently from the database, an
   event for it is owed somewhere; with nothing owed the two agree. `StatusMirror.EarlyFlushSticks` shows
   why the flush must wait for the commit.
3. `Outbox.OutboxIsSafe` and `PushJobs.PushWorker.Drain` - nothing is stamped as pushed that the CRM does
   not hold, nothing is lost at any crash point, and the drain ends with every pending row stamped.
4. `OAuthRefresh.RefreshesAreFresh` - under the lock at most one refresh is in flight and it presents the
   stored token. Two results say exactly when the fallback after a timed-out wait is safe:
   `OAuthRefresh.FallbackIsSafeIff` in steady continuations, in which no other waiter gives up and the key does
   not expire under the refresh; `FallbackIsAlwaysSafeIff` in all continuations without a re-link.
   `TimedOutWaiterFlagsHealthyMailbox` and `TwoWaitersCollide` are runs in which it is not.

## Where code and documentation differ

The model follows the code.

- `worker/app/crm_push_dispatch.py:18` says that any failure is caught; a database error after the pop is
  not, and the popped ids then wait for the recovery scan (`Outbox` event `DispatcherDies`).
- `backend/app/rate_limit.py:97-98` speaks of an EXPIRE on the first hit only and calls the whole atomic. The code
  sends EXPIRE NX with every hit, outside a transaction, so commands of other requests can come in between; it is
  what repairs a key that lost its expiry (`RateLimit.RepairsMissingTtl`).
- The retry loop is documented to retry failed connects (`worker/app/imap_fetcher.py:280-287`). The connection is
  opened outside the `try` (lines 304-305), so only errors of the login itself are retried.
- The consecutive-failures threshold is documented as one of two reasons to disable
  (`worker/app/sync_cycle.py:569-574`). It never decides, because every permanent outcome the classifier can
  produce is of the instant-disable kind (`Breaker.ThresholdBranchUnreachable`).
- The pull API's completeness assumes that ids become visible in increasing order. The database sequence does
  not guarantee that under concurrent commits; `Paging.DeliveredIff` is the exact condition and
  `Paging.OutOfOrderCommitIsLost` a lost message.
- An XOAUTH2 login error whose text also says `invalid_grant` is retried as a flake and then disables the
  mailbox (`Classifier.RetryableIsTransient`, `Classifier.RetriedYetPermanent`).

## Model

| member | source | states |
|---|---|---|
| `ImapFetcher.ConnectAndLogin` | worker/app/imap_fetcher.py:270-333 | At most `retries` extra attempts; every attempt but the last failed at login with a retryable error and was followed by a pause, 0.5, 1 and then 2 seconds; the last attempt is the outcome, and a retryable outcome means the retries were used up. |
| `ImapFetcher.FetchBlocking` | worker/app/imap_fetcher.py:336-420 | Fails if and only if an initial search fails. Otherwise the messages are exactly those searched for, on the server and, in an incremental sync, not below the old cursor; the new cursor is the UIDNEXT answered, without an answer one past the newest message fetched, and without a message the old one. |
| `ImapFetcher.CursorMoves` | worker/app/imap_fetcher.py:407-411 | An answered UIDNEXT is the cursor; failing that every message that came lies below the cursor and one directly below it; with neither the cursor stays. |
| `ImapFetcher.FetchAll` | worker/app/imap_fetcher.py:423-438 | Fetching in chunks of 50 downloads the same messages in the same order as fetching all UIDs at once. |
| `ImapFetcher.FetchIsSoundIff` | worker/app/imap_fetcher.py:373-420 | Against a truthful server one fetch leaves a message behind its cursor or moves ahead of the server if and only if a failed incremental search hid mail under an answered UIDNEXT, or an initial search found nothing, UIDNEXT was not answered and the old cursor lies beyond the new numbering. |
| `ImapFetcher.SwallowedSearchErrorSkips` | worker/app/imap_fetcher.py:392-397 | A concrete fetch that skips UID 5 because its search failed. |
| `ImapFetcher.RenumberedWithoutUidnextRunsAhead` | worker/app/imap_fetcher.py:408-411 | A concrete fetch of an empty renumbered mailbox that keeps cursor 100. |
| `ImapSync.SyncHasNoGap` | worker/app/sync_cycle.py:196-237 | After every harmless run, each message below the stored cursor is explained: one that was ever saved is stored with its content or was deleted locally; any other was expunged before it could be fetched or fell outside an initial date window. Stored keys are unique. |
| `ImapSync.OutsideEvents` | worker/app/imap_fetcher.py:373-411 | What the machine lets happen at any time besides the jobs' own steps: a message is expunged, the mailbox renumbered, rows are deleted, a job ends; each changes what it names and nothing else. |
| `ImapSync.HistoryIsHonest` | worker/app/imap_fetcher.py:373-411 | Each explanation is noted exactly at the steps that are it: an expunge of that UID, an initial search with the message on the server and too old for its window, a save of that UID, a deletion of its row, an arrival of the message. |
| `ImapSync.StepKeepsInv` | worker/app/imap_fetcher.py:373-411 | Every harmless step of the server, of any of the jobs, a crash or a local deletion keeps the accounting invariant. |
| `ImapSync.MarkStep` | backend/app/repositories/mail_accounts.py:358-376 | Storing the cursor keeps the invariant even when a slower job moves it backwards. |
| `ImapSync.SaveStep` | worker/app/sync_cycle.py:196-232 | The save transaction keeps the invariant: afterwards everything below the job's new cursor is accounted for. |
| `ImapSync.InsertAllKeeps` | backend/app/repositories/messages.py:132-156 | Saving a batch keeps every old row, adds only fetched messages, with the time of the save and no stamp, leaves a row for every fetched UID and no key twice. |
| `ImapSync.HarmfulSearchLosesMail` | worker/app/imap_fetcher.py:392-397 | From any sound state, a search error that hides an unexplained UID below the UIDNEXT read before is followed by a gap as soon as the job finishes. |
| `ImapSync.HarmfulCursorLosesMail` | worker/app/imap_fetcher.py:408-411 | From any sound state, a cursor kept beyond the server's UIDNEXT loses the next message delivered. |
| `ImapSync.KeptCursorSkipsMail` | worker/app/imap_fetcher.py:408-411 | From any sound state, a cursor kept beyond what the search vouched for leaves a gap at an unexplained message in between. |
| `SyncJob.SyncWorker.SyncOneAccount` | worker/app/sync_cycle.py:113-237 | Whatever the server, other jobs and local deletions do between any two steps, the execution is a run of the sync machine in which the job makes exactly its own steps in order and hands out the ids of the rows its save created; it ends early if and only if an initial search fails. The cursor stored is the UIDNEXT the server had when the job asked; unanswered, it is one past the newest UID fetched, and with nothing fetched the one loaded. An undisturbed job leaves the cursor at the server's UIDNEXT, and a job that starts there fetches nothing. If the run was harmless there is no gap. |
| `SyncJob.SyncWorker.NoGapSoFar` | worker/app/sync_cycle.py:113-237 | At any time, after any number of jobs, a harmless past means no gap and no duplicate key in the tables. |
| `SyncJob.SyncWorker.FetchAndSave` | worker/app/imap_fetcher.py:387-417 | From the search to the mark of success: the job's own steps, the position of its save, the cursor and UIDVALIDITY stored; a job at the end of the mailbox fetches nothing. |
| `SyncJob.NothingLeft` | worker/app/imap_fetcher.py:390-397 | A job that stands at the server's UIDNEXT has nothing to download, whatever a truthful search answers. |
| `SyncJob.SyncWorker.Open` | worker/app/imap_fetcher.py:373-385 | The cursor is the stored one on entry, UIDNEXT what the server has on exit, and UIDVALIDITY what it had at a stated moment between; undisturbed, all are the server's of one moment. |
| `SyncJob.SyncWorker.FindUids` | worker/app/imap_fetcher.py:387-397 | What is left to download is what the search answered, restricted to the window; fails if and only if an initial search fails; a failed incremental search leaves nothing to download. |
| `SyncJob.SyncWorker.DownloadBatches` | worker/app/imap_fetcher.py:399-405 | However the mailbox changes between the batches: every message downloaded had been on the server meanwhile, every UID that brought none had been gone from it, nothing is left to fetch, and no command more than needed for 50 UIDs each is sent. |
| `SyncJob.SyncWorker.DownloadBatch` | worker/app/imap_fetcher.py:423-438 | One FETCH command takes the next 50 UIDs and returns those still there. |
| `SyncJob.SyncWorker.SaveAll` | worker/app/sync_cycle.py:196-229 | The loop leaves exactly the rows of one save transaction, counts every message as new or as known, and collects the ids of the new rows. |
| `SyncJob.SyncWorker.MarkSynced` | worker/app/sync_cycle.py:231-237 | The second transaction stores the job's own cursor and UIDVALIDITY, whatever is stored by then, with the time, no error and no failures, and touches nothing else. |
| `SyncJob.OthersLeaveJobAlone` | worker/app/sync_cycle.py:113-237 | No run of other processes' steps moves a job. |
| `ImapSync.OutboxIsNewRows` | worker/app/sync_cycle.py:203-232 | A save only appends, and the ids for the push queue are, in order, those of the appended rows and no others. |
| `StatusMirror.MirrorConverges` | worker/app/crm_status_dispatch.py:50-96 | After every run with commit before flush, a mailbox whose mirrored columns differ has an obligation: a writer before its enqueue, a committed deferred id, a queued id, or a popped one. With no obligations the mirror equals the row in its activity flag, its last sync, its error text and its failure counter. |
| `StatusMirror.StepKeepsInv` | backend/app/crm_push/service.py:171-214 | Every step of a writer, a session, the dispatcher or a mailbox deletion keeps that accounting. |
| `StatusMirror.WorkerWriteStep` | worker/app/sync_cycle.py:479-557 | A worker write that changes the mirrored columns leaves its event owed; the writes that announce nothing change none of them. |
| `StatusMirror.WhoWrites` | worker/app/sync_cycle.py:479-557 | Every write but an administrator's two can come from a worker, those two only from a session; a worker write owes its event unless it stored tokens or a marker that was there. |
| `StatusMirror.CommitStep` | backend/app/accounts/service.py:217-230 | Committing a request's writes makes exactly their deferred ids owed. |
| `StatusMirror.DispatcherStep` | backend/app/crm_push/service.py:327-364 | Reading the row after the pop, and re-queueing on every failure, forgets no mailbox. |
| `StatusMirror.EarlyFlushSticks` | backend/app/crm_push/service.py:196-203 | A run with the flush before the commit, after which a deactivated mailbox stays active in the CRM and nothing is owed. |
| `StatusDispatch.StatusDispatcher.CrmStatusDispatch` | worker/app/crm_status_dispatch.py:39-96 | One tick: table unchanged, mirror and queue as the ordered deliveries leave them. |
| `StatusDispatch.StatusDispatcher.PushStatus` | backend/app/crm_push/service.py:327-364 | Delivered when the CRM accepted the live row or the mailbox is gone; a failure before the row was read counts as not delivered. After an accepted delivery the CRM shows the row's activity flag, last sync, error text and failure counter. |
| `StatusDispatch.NothingForgotten` | worker/app/crm_status_dispatch.py:76-96 | Whatever is answered, each queued mailbox is up to date or still queued after a tick, and the items not popped stay behind the re-queued ones. |
| `StatusDispatch.AcceptedTick` | worker/app/crm_status_dispatch.py:76-96 | With every POST accepted, exactly the popped mailboxes agree with the CRM in all four mirrored columns, nothing is queued again and no other mirror entry moves. |
| `StatusDispatch.TickIsRun` | worker/app/crm_status_dispatch.py:39-96 | For all answers, an undisturbed tick is a run of the status machine that reaches the same table, mirror and queue. |
| `DeferredFlush.QueueTracksFates` | backend/app/accounts/service.py:217-257 | For every sequence of appends, savepoints, commits, rollbacks and flushes the first `committed` entries are exactly the ids whose outermost transaction committed since the last flush, and the rest exactly those still open. |
| `DeferredFlush.RollbackDropsOpenOnly` | backend/app/accounts/service.py:232-238 | An outermost rollback removes exactly the ids of the open transaction. |
| `DeferredFlush.DetectorIsExact` | shared/session_guards.py:103-127 | At teardown with no open transaction the guard finds something if and only if a committed id was never flushed. |
| `DeferredFlush.CommitThenFlushIsClean` | backend/app/external/router.py:353-361 | Commit and then flush leaves nothing pending. |
| `DeferredFlush.DeferredEvents.AppendStatus` | backend/app/accounts/service.py:730-731 | Appending an id is one append event of the machine. |
| `DeferredFlush.DeferredEvents.MarkPendingStatusCommitted` | backend/app/accounts/service.py:217-230 | The commit listener moves the mark at an outermost commit only. |
| `DeferredFlush.DeferredEvents.DiscardPendingStatusOnRollback` | backend/app/accounts/service.py:232-238 | The rollback listener drops the tail at an outermost rollback only. |
| `DeferredFlush.DeferredEvents.FlushCrmStatusEvents` | backend/app/accounts/service.py:240-257 | Drains first, then pushes every drained id, so that the newest is at the head of the list. |
| `DeferredFlush.GuardRegistry.Register` | shared/session_guards.py:85-92 | Guards of one session are kept in registration order; other sessions are untouched. |
| `DeferredFlush.GuardRegistry.Check` | shared/session_guards.py:103-127 | Checks a session once and reports one violation for each guard with something left and for no other, in order; where no transaction is open these are the guards with committed ids never flushed, and the violation names those ids; fails in strict mode only. |
| `Outbox.OutboxIsSafe` | backend/app/crm_push/service.py:274-312 | In every run with crashes anywhere: the CRM holds the mailbox, UIDVALIDITY and UID of every stamped row, every message ever inserted is held, pending or deleted, and the CRM holds only inserted messages. |
| `Outbox.StampIsFinal` | backend/app/repositories/messages.py:173-188 | A row that is stamped never changes again in any run. |
| `Outbox.GoneStaysGone` | backend/app/repositories/messages.py:107-130 | An id that is gone is never used by another row. |
| `Outbox.StepKeepsInv` | worker/app/crm_push_dispatch.py:46-83 | Saving, queueing, recovery, popping, posting, stamping, re-queueing, retention and a dispatcher crash keep the outbox invariant. |
| `Outbox.SavedRow` | backend/app/repositories/messages.py:107-156 | A save with a new key appends exactly the row with the next id, the given columns and no stamp; with a known key it only uses up the id. |
| `Outbox.DeletedIsGone` | worker/app/cleanup.py:40-60 | An id counts as deleted exactly when retention or the deletion of its mailbox removed a row with it. |
| `PushJobs.PushWorker.DispatchTick` | worker/app/crm_push_dispatch.py:34-83 | One tick of the dispatcher, whole new state. |
| `PushJobs.PushWorker.Push` | backend/app/crm_push/service.py:274-312 | Posts the rows that still exist; stamps them if accepted, otherwise puts every popped id back, also after an answer that was lost. |
| `PushJobs.PushWorker.EnqueuePushIds` | backend/app/crm_push/service.py:156-168 | LPUSH of all ids in one command: the last one is at the head, and what was queued stays behind them. |
| `PushJobs.PushWorker.RecoveryScan` | worker/app/crm_push_recovery.py:23-45 | An id is queued afterwards if and only if it was before or a row with it has no stamp, was fetched after the start of the window and has fewer than `limit` such rows before it; no row is touched. |
| `PushJobs.ScanFinds` | backend/app/repositories/messages.py:190-206 | The scan finds exactly the first `limit` unstamped rows fetched after the start of the window. |
| `PushJobs.PushWorker.Drain` | worker/app/crm_push_recovery.py:30-39 | With the CRM accepting and no new mail, scans alternating with ticks end, for all positive limits and any queue contents: the queue is empty, every row is still there, every row without a stamp fetched after the start of the window is stamped and held by the CRM, an older row changes only if it was queued before, rows change in no other way, and the CRM learns only of rows of the table. |
| `PushJobs.PushWorker.DispatchUntilEmpty` | worker/app/crm_push_dispatch.py:46-83 | Ticks until the queue is empty end: rows are only stamped, and only when the CRM holds them; no row becomes pending, and the oldest one is stamped if it was queued. |
| `PushJobs.AcceptedTickDelivers` | backend/app/crm_push/service.py:274-312 | An accepted tick changes a row only by stamping it, and only if the CRM holds it then. |
| `PushJobs.AcceptedTickOnlyQueued` | backend/app/crm_push/service.py:274-312 | An accepted tick changes only rows whose ids were queued, and the queue gains nothing. |
| `PushJobs.DrainedRow` | backend/app/repositories/messages.py:190-206 | With no pending row left in the window, each unstamped row fetched within it has been delivered. |
| `PushJobs.TickIsRun` | worker/app/crm_push_dispatch.py:34-83 | For all answers, an undisturbed tick is a run of the outbox machine that reaches the same table, queue and CRM. |
| `PushJobs.FailedTickConserves` | worker/app/crm_push_dispatch.py:66-83 | A failed tick conserves the multiset of well-formed queued ids and stamps nothing. |
| `PushJobs.AcceptedTick` | worker/app/crm_push_dispatch.py:46-83 | An accepted tick shortens the queue, never increases the pending rows and leaves no popped id pending. |
| `PushJobs.StampShrinksPending` | backend/app/repositories/messages.py:173-206 | Stamping removes exactly the stamped ids from the pending list. |
| `PushJobs.QueuesOldest` | backend/app/repositories/messages.py:190-206 | A scan always queues the oldest pending row of the window. |
| `OAuthRefresh.RefreshesAreFresh` | backend/app/oauth/service.py:464-561 | With no waiter timing out, the lock outliving its holder and no re-link, at most one refresh is in flight at any time and each presents the token currently stored, whether or not Redis answers. |
| `OAuthRefresh.StepKeepsLockInv` | backend/app/oauth/service.py:583-602 | Every such step keeps: whoever stands between acquire and release owns the lock. |
| `OAuthRefresh.OnlyOwnerReleases` | backend/app/oauth/service.py:594-602 | No step of another call ever takes the lock away from its holder; only expiry does. |
| `OAuthRefresh.RefreshTokenSurvives` | backend/app/repositories/mail_accounts.py:274-287 | In no run at all does a stored refresh token disappear. |
| `OAuthRefresh.UnrotatedKeepsToken` | backend/app/oauth/service.py:604-626 | A response without a new refresh token leaves the stored one in place. |
| `OAuthRefresh.OutsideEvents` | backend/app/oauth/service.py:373-389 | At any time the key may expire, access be revoked or the mailbox be linked again; linking stores the three new values, lifts the flag and touches nothing else. |
| `OAuthRefresh.FallbackIsSafeIff` | backend/app/oauth/service.py:496-505 | As long as no other waiter gives up and the key does not expire under the refresh: the unlocked refresh never leads into the rotation race if and only if the caller's row still has the stored token and no other call is refreshing or free to start: the lock key must be stale, unless the mailbox is flagged or nobody is left to take the key. |
| `OAuthRefresh.FallbackNeedsStaleKey` | backend/app/oauth/service.py:496-505 | Under the same promises, while the mailbox is not flagged and another call may still come, two things decide: the key belongs to a call that no longer runs, and the token is still the caller's. |
| `OAuthRefresh.FallbackIsAlwaysSafeIff` | backend/app/oauth/service.py:496-505 | With no promise about the others but that nobody re-links the mailbox: safe in every continuation if and only if the caller's token is the stored one and no other call is refreshing or can still get there, be it waiting, wanting the lock, loaded with a token, not started, or holding the lock of an unflagged mailbox. |
| `OAuthRefresh.FollowerCollides` | backend/app/oauth/service.py:496-505 | Each such call has a continuation of a few steps that puts two refreshes in flight. |
| `OAuthRefresh.OnlyOneIsFresh` | backend/app/oauth/service.py:496-505 | Without such a call every unlinked run keeps at most one refresh in flight, with the stored token. |
| `OAuthRefresh.TwoWaitersCollide` | backend/app/oauth/service.py:496-505 | The lock holder died and two calls wait: the key is stale, yet when both give up they present the same token at once. |
| `OAuthRefresh.DeadHolderIsReached` | backend/app/oauth/service.py:464-505 | That state is reached from three calls that have not begun. |
| `OAuthRefresh.RunKeepsTokensInHand` | backend/app/oauth/service.py:488-494 | In every run whoever goes for the lock has a token to refresh with. |
| `OAuthRefresh.RivalRaces` | backend/app/oauth/service.py:496-505 | With the key free or its holder alive, the continuation that puts two refreshes in flight. |
| `OAuthRefresh.SteadyRunIsFresh` | backend/app/oauth/service.py:496-505 | While a call refreshes without the lock and nobody can join it, every steady run keeps at most one refresh in flight, with the stored token. |
| `OAuthRefresh.ConsentOnlyAfterRevocation` | backend/app/oauth/service.py:536-561 | In those runs, with no answer lost, a mailbox is flagged for re-consent only after the provider revoked access. |
| `OAuthRefresh.TimedOutWaiterFlagsHealthyMailbox` | backend/app/oauth/service.py:496-505 | From two calls that have not begun, a run in which a slow winner and a timed-out waiter flag a healthy mailbox. |
| `TokenService.OutlookTokenService.GetValidAccessToken` | backend/app/oauth/service.py:464-522 | Whatever other calls, the clock, Redis and the provider do between any two steps, the execution is a run of the refresh machine from the call's start to its end that never breaks off. The row loaded first decides when it is checked: its access token, if that has more than 60 seconds to go, is returned, a row with neither that nor a refresh token is refused, and in both cases nothing else happens. Any other token returned was, at some point, the row's own access token with more than 60 seconds to go or just stored by the call; a refusal means the mailbox was flagged or had no refresh token; the exchange fails only if the endpoint did; the lock is given back unless Redis fails. |
| `TokenService.OutlookTokenService.RefreshUnderLock` | backend/app/oauth/service.py:507-522 | Between acquire and release: the row is read again, the lock is released on every path, the outcome is justified by the row after the lock was taken, and the exchange fails only if the endpoint did. |
| `TokenService.OutlookTokenService.ReadAgain` | backend/app/oauth/service.py:508-519 | The second reading serves the flag or an access token with more than 60 seconds to go; otherwise it presents the refresh token the row has now. |
| `TokenService.OutlookTokenService.CheckLoaded` | backend/app/oauth/service.py:483-489 | The row's access token is served if it has more than 60 seconds to go, a row without a refresh token refused, any other goes for the lock. |
| `TokenService.OutlookTokenService.AskProvider` | backend/app/oauth/service.py:536-561 | The endpoint honours exactly the current token and rotates it even if the answer is lost. |
| `TokenService.OutlookTokenService.RefreshAfterWait` | backend/app/oauth/service.py:496-505 | The loser of the lock serves what the winner stored while it is fresh or refreshes unlocked, never holds the lock, and fails only if the endpoint did. |
| `TokenService.OutlookTokenService.AwaitRefreshedToken` | backend/app/oauth/service.py:563-581 | The poll loop ends with the consent flag or a fresh token seen, and gives up only if the last look found neither. |
| `TokenService.OutlookTokenService.DoRefresh` | backend/app/oauth/service.py:536-561 | A token returned is stored and clears the flag; a refusal has flagged the row; the exchange fails only if the endpoint was out of reach or its answer was lost. |
| `TokenService.OutlookTokenService.TryAcquireLock` | backend/app/oauth/service.py:583-592 | Acquired if and only if Redis answers and nobody holds the lock. |
| `TokenService.OutlookTokenService.ReleaseLock` | backend/app/oauth/service.py:594-602 | Removes only the caller's own lock. |
| `TokenService.OutlookTokenService.PersistRefresh` | backend/app/oauth/service.py:604-626 | Stores the tokens and the expiry and clears the flag; a missing new refresh token keeps the old one; nothing else moves. |
| `TokenService.OutlookTokenService.MarkNeedsConsent` | backend/app/oauth/service.py:628-646 | Flags the row and writes the marker; activity flag, counter and tokens stay. |
| `TokenService.OthersLeaveCallAlone` | backend/app/oauth/service.py:594-602 | No run of other calls' steps moves a call or puts its name on the lock. |
| `MailAccounts.TokensKeepStatus` | backend/app/repositories/mail_accounts.py:258-287 | Token writes never touch a mirrored column and never erase a refresh token. |
| `MailAccounts.SyncWrites` | backend/app/repositories/mail_accounts.py:358-467 | Success stores cursor, UIDVALIDITY and time and clears error and counter; a transient error leaves its text, cut to 500 characters; a failure also counts one more and switches off only on demand; all other columns stay. |
| `MailAccounts.StatusWrites` | backend/app/repositories/mail_accounts.py:289-410 | An unstamped row is switched off and stamped, a stamped one stays; the flag and the marker; what re-enabling resets; all other columns stay. |
| `MailAccounts.TokenWrites` | backend/app/repositories/mail_accounts.py:258-287 | Each token column given is stored, each absent one stays, and no other column moves. |
| `MailAccounts.MailAccountsRepo.MarkSyncSuccess` | backend/app/repositories/mail_accounts.py:358-376 | Success update of one row, all other rows untouched. |
| `MailAccounts.MailAccountsRepo.MarkTransientError` | backend/app/repositories/mail_accounts.py:412-430 | Error text of one row, all other rows untouched. |
| `MailAccounts.MailAccountsRepo.MarkSyncFailure` | backend/app/repositories/mail_accounts.py:432-467 | Bumps one row and returns its new counter, 0 for a mailbox that is gone. |
| `MailAccounts.MailAccountsRepo.DisableAndStampAlert` | backend/app/repositories/mail_accounts.py:378-410 | Guarded disable; the result says whether this call made the transition. |
| `MailAccounts.MailAccountsRepo.MarkOauthNeedsConsent` | backend/app/repositories/mail_accounts.py:289-313 | Needs-consent flag and marker of one row. |
| `MailAccounts.MailAccountsRepo.MarkOauthNeedsConsentError` | backend/app/repositories/mail_accounts.py:315-343 | Guarded marker; the result says exactly whether the row changed. |
| `MailAccounts.MailAccountsRepo.UpdateOauthTokens` | backend/app/repositories/mail_accounts.py:258-287 | Token columns of one row, absent arguments leaving theirs unchanged. |
| `Lifecycle.StampInvariant` | backend/app/repositories/mail_accounts.py:378-410 | Over every run of all writers a stamped mailbox is inactive. |
| `Lifecycle.DisableTakesEffect` | worker/app/sync_cycle.py:530-557 | On every reachable active mailbox the guarded disable passes its guard, switches it off with a stamp and touches nothing else. |
| `Lifecycle.CounterIsExact` | backend/app/repositories/mail_accounts.py:432-467 | The counter equals the number of recorded permanent failures since the last success or re-enable, whatever else was written in between. |
| `Lifecycle.WorkerNeverReactivates` | worker/app/sync_cycle.py:479-557 | No run of worker writes makes an inactive mailbox active. |
| `Lifecycle.StampIsSticky` | backend/app/accounts/service.py:716-725 | Until the next re-enable the stamp never moves, so one alert belongs to one transition. |
| `Classifier.PrefixAndClassAgree` | worker/app/error_classify.py:244-387 | Permanent if and only if instant-disable; permanent reads `auth_failed` or `decrypt_fail`; `error` if and only if no rule matches; the one way in which a transient error reads `auth_failed`. |
| `Classifier.FirstRuleDecides` | worker/app/error_classify.py:244-387 | The first rule of the numbered table that claims a subject decides everything: the prefix is that rule's, and the class is permanent, with the mailbox disabled at once, if and only if it is rule 8 or 9. |
| `Classifier.RetryableIsTransient` | worker/app/imap_fetcher.py:100-147 | A login error the retry loop retries is classified permanent if and only if its text says `invalid_grant` and no other transient rule matches. |
| `Classifier.RetryableImapIsKnown` | worker/app/imap_fetcher.py:117-147 | Every retryable IMAP reply matches the connection-flake, rate-limit or, with a token, login-flake rule of the classifier. |
| `Classifier.TokenRetriesFlakes` | worker/app/imap_fetcher.py:117-147 | Every IMAP reply retried without a token is retried with one; those retried only with one are exactly the login flakes that name no other fatal reason. |
| `Classifier.KillSwitchAgrees` | worker/app/imap_fetcher.py:301-303 | The retry loop reads the kill-switch as the classifier does, and it never touches a password mailbox. |
| `Classifier.RetriedYetPermanent` | worker/app/error_classify.py:228-241 | A concrete login error that is retried and then disables the mailbox. |
| `Breaker.RunForAccounts` | worker/app/sync_cycle.py:560-675 | One pass: the table ends as the two phases prescribe, every account of the batch is counted once, as good exactly if its result is, and new messages are summed over the results. |
| `Breaker.Collect` | worker/app/sync_cycle.py:598-625 | Every account of the batch is a result or a crash, and a crash leaves an error text and nothing else. |
| `Breaker.CrashLeavesText` | worker/app/sync_cycle.py:598-625 | A crashed account gets its error text and changes in nothing else; an account with a result does not change in this phase. |
| `Breaker.TotalOfBatches` | worker/app/sync_cycle.py:598-625 | The new messages of a cycle are the same however its accounts are cut into batches. |
| `Breaker.Decide` | worker/app/sync_cycle.py:626-673 | A tripped breaker leaves the table as it is; otherwise the permanent results are penalised. |
| `Breaker.RecordNeedsConsentMarker` | worker/app/sync_cycle.py:514-527 | A status event is queued exactly when the mirrored status of the mailbox changed. |
| `Breaker.PenaliseLoop` | worker/app/sync_cycle.py:648-673 | The penalty loop applies each permanent result once, in order. |
| `Breaker.PassIsAllOrNothing` | worker/app/sync_cycle.py:626-673 | With at least the minimum of results and at least the ratio of them permanent, no row changes; with fewer of either, exactly the permanently failed mailboxes are bumped, each by one and with its own error text, and all others stay as they were. |
| `Breaker.DisabledExactly` | worker/app/sync_cycle.py:648-673 | Without a trip an active failed mailbox is switched off if and only if its failure was explicit or its counter reached the maximum. |
| `Breaker.PassDisablesFew` | worker/app/sync_cycle.py:626-631 | However a batch went, one pass switches off strictly fewer mailboxes than max(minimum, ratio * number of completed results). |
| `Breaker.UntrippedIsFew` | worker/app/sync_cycle.py:626-631 | A batch that does not trip the breaker has fewer permanent failures than that bound. |
| `Breaker.ThresholdBranchUnreachable` | worker/app/sync_cycle.py:328-386 | A result is permanent if and only if the classifier calls the error instant-disable, and then it says so. |
| `Paging.AcceptedRequests` | backend/app/external/service.py:144-182 | Exactly which cursor and order combinations are accepted, and which of the fields a refusal names; the both-cursors check never fires. |
| `Paging.ForwardPageIs` | backend/app/external/service.py:184-205 | A page holds exactly the matching rows between the old and the new cursor, in order; without `has_more` it holds all that are left. |
| `Paging.ForwardPageHolds` | backend/app/repositories/messages.py:35-68 | A row is on the page if and only if its mailbox is served, its id is beyond the cursor and fewer than `limit` such rows come before it; `has_more` says that the page is full. |
| `Paging.PulledInOrder` | backend/app/repositories/messages.py:35-68 | Whatever happens to the table between pages, no message is delivered twice and all come in id order. |
| `Paging.DeliveredIff` | backend/app/external/service.py:184-205 | A finished pull delivered a surviving message if and only if its id did not first become visible behind the cursor. |
| `Paging.PullIsComplete` | backend/app/external/service.py:184-205 | With ids becoming visible in increasing order, a finished pull delivered every surviving matching message, while rows are added and deleted between pages. |
| `Paging.OutOfOrderCommitIsLost` | backend/app/repositories/messages.py:35-68 | Two inserts that commit in the other order: the smaller id is never pulled. |
| `Paging.PullForward` | backend/app/external/service.py:184-205 | On a fixed store the ascending traversal ends and returns exactly the rows of the served mailboxes, in order, for every limit. |
| `Paging.PullBackward` | backend/app/external/service.py:207-230 | On a fixed store the descending traversal ends, never sends a refused cursor and returns exactly the rows of the served mailboxes, newest first. |
| `Paging.DirectionsMirror` | backend/app/repositories/messages.py:70-103 | What the two traversals return is each the exact reverse of the other. |
| `Paging.BackwardPageIs` | backend/app/external/service.py:207-230 | A descending page is the newest part of what is left, as long as the limit allows, its cursor the oldest id on it, and `has_more` says that it is full. |
| `Migration.UpgradeKeepsCanonical` | migrations/versions/20260715_025_decommission_phase_c_mail_accounts.py:169-194 | From every database and for every row order: no duplicate key arises, the surviving mailboxes are exactly the canonical ones with their addresses and one owner, and the messages are exactly theirs. |
| `Migration.RepointSucceedsIff` | migrations/versions/20260715_025_decommission_phase_c_mail_accounts.py:189-194 | UNIQUE (user_id, email) holds at every row update, in every order, if and only if no two mailboxes share an address. |
| `Migration.UnmergedRepointFails` | migrations/versions/20260715_025_decommission_phase_c_mail_accounts.py:189-194 | A database that satisfies every constraint and on which the repoint without the merge meets a duplicate key. |
| `Migration.PullViewUnchanged` | backend/app/repositories/mail_accounts.py:71-80 | For every filter, cursor and limit each page of the pull API is the same before and after, and still after the other users are gone. |
| `Migration.OneSurvivorPerEmail` | migrations/versions/20260715_025_decommission_phase_c_mail_accounts.py:119-142 | Each LOWER(email) group keeps exactly one mailbox, a member with the least id of all. |
| `Migration.SurvivorsAreCanonical` | migrations/versions/20260715_025_decommission_phase_c_mail_accounts.py:119-142 | The rows the merge does not delete are the rows the read path calls canonical. |
| `Migration.CanonicalIff` | backend/app/repositories/mail_accounts.py:71-80 | A mailbox is canonical if and only if no mailbox with a smaller id has the same LOWER(email). |
| `Migration.ServedMailboxes` | backend/app/external/service.py:125-142 | The pull API serves a mailbox if and only if the filter is empty or names it and no mailbox with a smaller id has the same LOWER(email). |
| `Migration.NoMailboxCascades` | migrations/versions/20260715_028_decommission_phase_f_reduce_users.py:38-39 | After the upgrade the delete of the other users removes no mailbox and no message and leaves one user. |
| `Migration.ReduceUsersIsHarmlessIff` | migrations/versions/20260715_028_decommission_phase_f_reduce_users.py:38-39 | That delete loses no mailbox if and only if every mailbox already belongs to the technical owner. |
| `Migration.RerunIsIdle` | migrations/versions/20260715_025_decommission_phase_c_mail_accounts.py:169-194 | A second run visits no row and changes nothing but the sequence. |
| `Migration.UpgradeTwice` | migrations/versions/20260715_025_decommission_phase_c_mail_accounts.py:169-194 | From every database and for all row orders, a second upgrade visits no row and moves nothing but the sequence. |
| `Migration.Connection.Upgrade025` | migrations/versions/20260715_025_decommission_phase_c_mail_accounts.py:169-194 | The statements as executed reach the state that the row-by-row upgrade describes, constraints intact: a mailbox is there if and only if none with a smaller id has the same LOWER(email), with its address and the technical owner, and a message if and only if its mailbox is. |
| `Migration.Connection.Upgrade028` | migrations/versions/20260715_028_decommission_phase_f_reduce_users.py:38-39 | The delete as executed, with its cascade. |
| `Migration.Connection.CrmServiceId` | migrations/versions/20260715_025_decommission_phase_c_mail_accounts.py:145-166 | Seeds the owner only if it is missing and returns its id. |
| `Migration.Connection.MergeDuplicates` | migrations/versions/20260715_025_decommission_phase_c_mail_accounts.py:119-142 | Two deletes: a mailbox is left if and only if none with a smaller id has the same LOWER(email), and a message if and only if its mailbox is. |
| `Utf8.TruncationIsOptimal` | worker/app/imap_fetcher.py:177-184 | The longest whole-character prefix that fits is kept, the flag is true exactly when something was cut, a cut wastes at most three bytes, and truncating again changes nothing. |
| `Utf8.NoLongerPrefixFits` | worker/app/imap_fetcher.py:177-184 | No longer prefix of the text encodes within the limit. |
| `Utf8.DecodePrefix` | worker/app/imap_fetcher.py:181-184 | Decoding any byte prefix of an encoded text, ignoring errors, yields exactly the characters that are whole. |
| `Utf8.RoundTrip` | worker/app/imap_fetcher.py:178-184 | Decoding inverts encoding. |
| `Utf8.ParsedIsEncoded` | worker/app/imap_fetcher.py:181-184 | Bytes are taken for a character only if they are its encoding: no overlong form, no surrogate, nothing beyond the last code point. |
| `Headers.AcceptedIff` | backend/app/external/schemas.py:175-205 | Accepted are exactly the values whose every CR and LF belongs to a fold and that carry no other control character except HTAB. |
| `Headers.CleanIsIdempotent` | backend/app/external/schemas.py:178-205 | An accepted result has no CR or LF, and cleaning it again is the identity. |
| `Headers.CleanKeepsTokens` | backend/app/external/schemas.py:178-205 | An accepted result splits on white space into the same tokens as unfolding by section 2.2.3 of RFC 5322; the tokens are all of the text but its white space, none is empty and none contains any. |
| `RateLimit.RateLimiter.Consume` | backend/app/rate_limit.py:94-116 | One counter moves, all others stay: it starts at one where there was none or its time had passed and counts on otherwise, and a time already set is kept; admitted if and only if the count is within capacity; the retry hint is the time to live that is left. |
| `RateLimit.AtMostCapacityPerLifetime` | backend/app/rate_limit.py:94-116 | For any times, crashes and interleavings of the commands of different requests at most `capacity` requests pass in one lifetime of the counter. |
| `RateLimit.AtMostTwiceCapacityPerWindow` | backend/app/rate_limit.py:94-116 | At most twice the capacity passes in any interval as long as the window, for any times, crashes and interleavings. |
| `RateLimit.LifetimeLastsAWindow` | backend/app/rate_limit.py:106-109 | A time to live once set is never extended and ends at least a window after the lifetime began; every EXPIRE leaves one set; a counter that is gone has lived longer than a window. |
| `RateLimit.QuietWindowReopens` | backend/app/rate_limit.py:94-116 | After more than a window without requests the count starts again at one, so a request passes if the capacity is not 0; the only exception is a counter whose last request died before setting a time. |
| `RateLimit.HitIsTwoCommands` | backend/app/rate_limit.py:106-109 | An undisturbed request is its INCR and its EXPIRE NX in a row; one that dies between them is the INCR alone. |
| `RateLimit.RepairsMissingTtl` | backend/app/rate_limit.py:106-109 | A counter that lost its expiry to a crash gets one on the next hit. |
| `Retention.RetentionCleanup` | worker/app/cleanup.py:33-62 | The batch loop ends, keeps exactly the messages that are not older than the threshold, and reports how many went. |
| `Retention.SurvivesIff` | worker/app/cleanup.py:40-60 | A message survives if and only if it is not older than the threshold. |
| `Retention.DeleteBatch` | backend/app/repositories/messages.py:210-227 | Each batch removes something and nothing that is to be kept. |
| `Messages.MessagesRepo.InsertMessageIdempotent` | backend/app/repositories/messages.py:107-156 | A row is added if and only if its key is new; a conflict returns no id, still using one up, and changes nothing. |
| `Messages.MessagesRepo.MarkPushedRows` | backend/app/repositories/messages.py:173-188 | Stamps exactly the listed rows that had no stamp and returns how many those were. |
| `Messages.MessagesRepo.DeleteMessages` | backend/app/repositories/messages.py:222-227 | Deletes the listed rows and reports how many. |
| `Messages.MarkPushedKeepsOrder` | backend/app/repositories/messages.py:173-188 | Stamping disturbs neither the primary key nor the message key. |
| `Credentials.ProbeEqualsSend` | backend/app/accounts/service.py:397-443 | For every stored row the connection test, whenever it can run, logs in at SMTP with the host, login and secret of a send; it can run if and only if the row can be sent from and its password is readable. |
| `Credentials.ProbeIsSend` | backend/app/send/service.py:266-282 | A stored row that can be tested is logged in to at SMTP by a send exactly as by the test. |
| `Credentials.UpdateAccount` | backend/app/accounts/service.py:626-738 | After a credential change the probed logins, secrets and hosts are those a later send and a later test resolve from the stored row, the IMAP login being the row's host, address and password; a failed probe is the one of the row about to be stored; exactly when the update is refused as conflicting or unreadable; nothing not asked for changes. |
| `Credentials.StoredIsAsked` | backend/app/accounts/service.py:698-725 | The written row has every submitted field, keeps every other one, and its status is reset only with a probe. |
| `Credentials.SameProbe` | backend/app/send/service.py:266-282 | A probe built from a row's own secrets is the one a test or send derives from it. |
| `Credentials.SendUses` | backend/app/send/service.py:266-282 | A send uses the mailbox's own SMTP host, its SMTP login trimmed if usable and its address otherwise, its SMTP secret if usable and its password otherwise; exactly when a secret it needs cannot be read there is none. |
| `Credentials.ImapProbeUses` | backend/app/accounts/service.py:410-443 | A test logs in at the IMAP host with the address and the readable password of the row. |
| `Credentials.NormalizeTwice` | shared/credentials.py:41-69 | Scrubbing is idempotent; login and secret are absent together; a usable secret is never altered and a usable login is trimmed and not empty. |
| `Credentials.AbsentIff` | shared/credentials.py:41-69 | A value counts as absent if and only if, apart from white space at its ends, it is empty or spells none, null or undefined in any case. |
| `Credentials.ResolveSecrets` | backend/app/accounts/service.py:650-668 | Before anything is written, the secrets resolved are those a later test or send reads back from the row that will be written. |

## Left out

- SMTP and IMAP wire traffic, DNS and address filtering, deadlines and teardown of probes: libraries and wall-clock behaviour.
- Encryption, HMAC, PKCE and token decoding: encryption is an inverse pair bound to the mailbox id; the rest does not appear.
- HTML sanitising, MIME parsing, HTTP routes, response objects, health checks, logging and configuration loading.
- All other migrations: schema changes on tables that no longer exist, or fixed drop orders. The dropped column and the downgrades of revision 025 are not modelled either.
- JSON payloads: parsing yields an id or "malformed".
- The one-time OAuth state of the consent flow: a single GET and DEL in one Redis transaction; one use per state is what that command pair provides by itself.
- Changing the display name, and the refusal of credential changes on OAuth mailboxes: plain assignments and one guard.
- Status events lost to a process crash or a Redis outage between commit and enqueue: the code does not promise them, and the status machine has no such event. Mailbox creation sends no event; the machine starts from a mirror in agreement.
- A CRM request that is applied after the sender gave up waiting for it: a lost answer is modelled, a late effect is not.
- The order in which a server returns the messages of one FETCH: they come in the order of the UIDs asked for.
- A mailbox deleted while its token is being refreshed.
- ImapSync.SyncHasNoGap: speaks of the stored UIDVALIDITY as long as the server still uses it, because a renumbered mailbox no longer has the messages; and the machine's STATUS always answers UIDVALIDITY (a missing one is read as 0 in `ImapFetcher`).
- ImapFetcher.FetchIsSoundIff: the mailbox does not change during the fetch and STATUS answers UIDVALIDITY; the changing mailbox is the subject of ImapSync.
- Text.LowerAppend: lower-casing is exact wherever the result is ASCII, which is all the rules compare against; other characters are left as they are.
- Breaker.PassDisablesFew: the ratio is an exact real number, and the minimum is at least 1 as the settings require.
- Utf8.TruncationIsOptimal: texts of Unicode scalar values; a lone surrogate makes the encoder raise an error instead.
- PushJobs.PushWorker.Drain: the window start is the same for all scans; in the program it moves with the clock, so rows can leave the window while the drain goes on.
- Migration.PullViewUnchanged: LOWER is any function on addresses, the same for the migration and the read path.
- The tables other than users, mailboxes and messages that revision 025 cascades to.
