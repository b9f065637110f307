# Verified model of the wallet ledger

A Dafny 4.11 model of the money path of the wallet ledger platform: the double-entry ledger on row-locked
tables, the transactional outbox, the at-least-once publisher, the two consumers, reconciliation, the paged
statement and the balance cache. `dafny verify dfyconfig.toml` checks everything.

How the files fit together:

- `Rows`, `Operations`: the tables, and `Apply`, what one request does to them when it runs alone.
- `Answers`: every answer and every table of `Apply` spelled out on columns and request fields, with none of its
  definitions; money leaves a wallet only at its owner's request.
- `Books`: the invariant of the books (`BookInv`) and its preservation by every serial history.
- `LedgerService`: the session, the repositories and the service as classes whose methods flush, raise and
  commit step by step; each operation is proved equal to `Apply`, error paths included.
- `Interleaving`: any number of requests in flight, one statement a step, locks and key claims held to the end,
  aborts anywhere. A commit writes what the request computed from its own copies of the rows.
- `Serializability`, `SoloRuns`, `Progress`: both halves of the simulation between the interleaved machine and
  `Apply`, uniqueness of keys, all-or-nothing, order of legs; absence of deadlock and livelock.
- `Races`, `Creation`, `Overtaking`: two requests with one key in flight together; wallet creations beside each
  other and beside transfers; identity order across wallets.
- `Retries`, `Reconciliation`, `Ordering`, `Batching`, `History`: retries, the reconciliation job, lock order, paging.
- `Publisher`, `Analytics`, `Pipeline`, `Delivery`, `Recovery`, `Notification`: the event path with crashes
  between any two steps, and exactly-once effect, completeness and recovery on top of it.
- `Cache`: the cache object, when exactly an entry is stale under interleaving, freshness without it.

The database and the runtime enter as small assumptions: a row lock lasts until commit or abort; a row read under
lock is read fresh; the identity column hands out growing numbers that a rollback does not give back; an insert
waits for an in-flight insert of the same unique key; a unique index agrees with its column; transaction ids drawn
by uuid4 are new; the broker's log only grows; a restarted consumer resumes at its committed offset. uuid4 values,
transaction times and identity values are inputs (`Draws`). There is one publisher and one analytics consumer, as
deployed (`k8s/workers.yaml`), and the topic is one log.

Where code and comments differ, the model follows the code:

- The code means to return the winner's transaction to a request that lost the race for its idempotency key. It
  never does: a request past its replay check when the key is bound can only fail (`LoserIsNeverReplayed`), and it
  is answered with the winner's transaction if and only if its check had not run by then
  (`ReplayedExactlyIfInTime`). Which error it gets depends on the rows. A retry of the same request waits for the
  row lock, is validated against the winner's balances, and may be told "insufficient funds" although its request
  was carried out (`LoserSeesSpentBalance`); only if it still validates does the flush inside `create` reject it,
  outside the `try` around `commit`. Requests on different rows meet at the key itself (`RaceLoserIsRejected`).
  Every constraint has been checked by a flush when `commit` is reached, so the `except` branch is never taken.
- `create_wallet` and the analytics handler raise in the same way, from a flush before their `try`, when another
  session has taken the unique value: a creation that passed its check is rejected exactly if the owner got such a
  wallet in between, and does not answer "already exists" (`CreationRaceExactly`, `AnalyticsService.HandleEvent`).
- A transfer may answer "recipient not found" after the recipient was created (`RecipientMissed`);
  `AnswersAreAtomicExactly` says which answers are those of the current tables.
- `flush` may time out and its result is ignored: marking then keeps every published event in the log exactly if that
  held before and no message of the batch that is still in the producer's queue is missing from the log
  (`MarkIsSafeExactly`); otherwise an event can be lost (`TimedOutFlushLosesAnEvent`).
- The analytics loop commits the offset after a failed handler too, which skips the event
  (`RaisingHandlerSkipsAnEvent`). A drained rollup is complete exactly if no published event is missing from the log
  and each transaction a handler raised on was processed by another run (`DrainedCompleteExactly`).
- The rollup's columns are BIGINT and its flush raises when a total outgrows them. From any reachable state the event
  path can still complete the rollup if and only if the ledger's totals fit those columns and no event is gone, that
  is published, unprocessed, and neither queued nor ahead of the committed offset (`RecoverableExactly`).
- A reader that is slower than a write can store an old row after the key was deleted
  (`SlowReaderStoresStaleRow`, `DepositLeavesStaleRow`). In any run an entry is off by exactly what the commits after
  its read moved on the wallet (`StaleExactly`); with working deletes each of those commits had its delete before
  the entry was stored (`OnlySlowReadersLeaveStaleRows`).

## Model

| member | source | states |
|---|---|---|
| LedgerService.Session.Flush | app/db/models/wallet.py:16-20 | a flush applies the changed wallet rows, or changes nothing if a CHECK or the column width rejects one |
| LedgerService.WalletRepository.GetWithLock | app/repositories/wallet_repo.py:25-31 | returns the row and locks it, if there is one |
| LedgerService.WalletRepository.GetForUpdateOrdered | app/repositories/wallet_repo.py:34-49 | one answer per requested id, None for a missing row, and existing rows locked in ascending order once each |
| LedgerService.LocksMean | app/services/ledger_service.py:157-172 | a self-transfer and a replay lock nothing; every other request locks the existing rows it names, the lower id first |
| Ordering.AscendingIsUnique | app/repositories/wallet_repo.py:45-45 | the ascending listing of a set of ids is unique, so the lock order is fully determined |
| LedgerService.TransactionRepository.Create | app/repositories/transaction_repo.py:15-31 | inserts a PENDING header unless the primary key, the width of the key column or the unique idempotency key rejects it in that flush; a rejected header leaves no row |
| LedgerService.TransactionRepository.MarkCompleted | app/repositories/transaction_repo.py:33-36 | completes the header and flushes the balance changes with it |
| LedgerService.TransactionRepository.GetByIdempotencyKey | app/repositories/transaction_repo.py:38-41 | finds a header that carries the key if there is one and None only if no header does; by uniqueness it is the one the index names |
| Books.ApplyKeepsIndex | app/db/models/transaction.py:53-58 | index and header column agree after every operation |
| LedgerService.LedgerRepository.CreateEntry | app/repositories/ledger_repo.py:13-33 | appends one leg under the next identity value if amount and side pass the CHECKs; a rejected leg leaves no row |
| LedgerService.OutboxRepository.AddEvent | app/repositories/outbox_repo.py:14-32 | appends an unpublished event inside the caller's transaction |
| LedgerService.LedgerService.Book | app/services/ledger_service.py:107-137 | header, two legs, balances and event become visible together at the commit, or nothing does |
| LedgerService.LedgerService.Deposit | app/services/ledger_service.py:86-144 | the committed tables and the answer are those of `Apply` on the tables before, for every outcome, and the rows locked are those of the request's lock plan |
| LedgerService.LedgerService.Transfer | app/services/ledger_service.py:146-246 | the same for transfers: self-transfer and replay are answered before any lock, both rows are locked in ascending order |
| LedgerService.LedgerService.Withdraw | app/services/ledger_service.py:248-326 | the same for withdrawals, replay before the lock |
| LedgerService.WalletService.CreateWallet | app/services/wallet_service.py:26-39 | one empty wallet per owner and currency, otherwise an error and no change; a lost race raises out of the flush |
| Answers.DepositAnswer | app/services/ledger_service.py:95-104 | on raw tables: exactly when a deposit succeeds, and exactly when each error is raised |
| Answers.WithdrawalAnswer | app/services/ledger_service.py:262-280 | on raw tables: a withdrawal is replayed, refused or carried out exactly under the stated conditions; only the owner's request succeeds, and only if the balance covers it |
| Answers.TransferAnswer | app/services/ledger_service.py:157-192 | the same for transfers, with recipient and both currencies |
| Answers.CreationAnswer | app/services/wallet_service.py:26-32 | a creation succeeds exactly if the owner has no wallet in the upper-cased currency and the id is new |
| Answers.DepositTables | app/services/ledger_service.py:106-137 | every row a successful deposit writes |
| Answers.WithdrawalTables | app/services/ledger_service.py:282-310 | every row a successful withdrawal writes, its key included |
| Answers.TransferTables | app/services/ledger_service.py:194-228 | every row a successful transfer writes, its key included |
| Answers.OnlyOwnersDebit | app/services/ledger_service.py:176-177 | in every interleaved run a balance changes only by the commit of a request that asked for just that change, and falls only at its owner's request |
| Creation.CreationRaceExactly | app/repositories/wallet_repo.py:14-19 | in every run a creation that passed its check is rejected by the flush if and only if the owner got a wallet in the currency in between, and creates it otherwise |
| Creation.SecondCreationIsRejected | app/services/wallet_service.py:28-36 | from every state without such a wallet two creations can both pass the check; the second one is rejected and does not answer "already exists" |
| Creation.RecipientMissed | app/services/ledger_service.py:167-181 | a transfer can answer "recipient not found" although the recipient exists by then and the current tables give another answer |
| Books.PostKeepsBooks | app/services/ledger_service.py:86-326 | a committing request keeps balances, conservation, key index, leg constraints and the mirroring of header, legs and event |
| Books.PostConserved | app/services/ledger_service.py:116-132 | per currency, wallet balances plus the net of EXTERNAL_FUNDING stay zero |
| Books.SumsOneMore | app/services/reconciliation_service.py:32-39 | both ledger sums count credits up and debits down, by wallet and by funding account and currency |
| Books.PostNeverOverdrawn | app/services/ledger_service.py:190-192 | every prefix of the ledger keeps every wallet's signed sum at or above zero |
| Books.RunKeepsBooks | app/services/ledger_service.py:45-326 | every serial history of requests and wallet creations keeps the books sound, with at most one wallet per owner and currency |
| Books.DoubleEntry | app/services/ledger_service.py:53-84 | each committed transaction has exactly one event and two legs, one credit and one debit of equal amount, and payload, header and legs agree |
| Books.KeysAreUnique | app/db/models/transaction.py:53-58 | no two committed headers carry the same key |
| Interleaving.CommitIsAtomic | app/services/ledger_service.py:168-230 | a commit computed from rows copied under lock writes exactly what the request would write alone on the current tables |
| Interleaving.CommitSpares | app/services/ledger_service.py:217-219 | a commit touches no row and no key another unfinished request relies on |
| Interleaving.StepApart | app/repositories/wallet_repo.py:25-49 | no step makes two requests hold the same row or the same key |
| Interleaving.DoKeepsInv | app/services/ledger_service.py:86-326 | every step of every request, every abort and every wallet creation keeps the whole invariant |
| Serializability.InterleavedRunsAreSerial | app/services/ledger_service.py:86-326 | every interleaved run with aborts anywhere leaves the tables of its committed operations run one by one in commit order, and sound books |
| Serializability.StepsAreAtomic | app/services/ledger_service.py:229-230 | each step either leaves tables and log alone or is one whole operation, the stepping request's own, with the answer it has on its own |
| Serializability.LockedRowsAreCurrent | app/services/ledger_service.py:217-219 | a row held under lock equals the committed row and has no second holder |
| Serializability.ErrorsAreCurrent | app/services/ledger_service.py:174-192 | what validation under lock finds is what the current tables give if and only if it is not a "not found" about a wallet created since the lookup |
| Serializability.AnswersAreAtomicExactly | app/services/ledger_service.py:155-246 | every answer is the one the request would get alone at that moment if and only if its key was not bound after its replay check and it missed no new wallet |
| Serializability.KeyCommitsOnce | app/services/ledger_service.py:160-165 | under every interleaving no two transfers or withdrawals with the same key field both commit |
| Serializability.RaceLoserIsRejected | app/repositories/transaction_repo.py:28-29 | two requests on different rows: the later insert of their key waits, and is rejected without effect once the earlier one has committed |
| Races.LoserIsNeverReplayed | app/services/ledger_service.py:231-239 | a request past its replay check when its key is bound is never replayed and never commits, in any continuation |
| Races.ReplayedExactlyIfInTime | app/services/ledger_service.py:160-165 | of the requests unfinished when their key is bound, those that are not aborted get the winner's transaction if and only if their replay check had not run, and an error otherwise |
| Races.RetryIsToldInsufficientFunds | app/services/ledger_service.py:262-280 | from every reachable state whose balance covers a withdrawal once, two copies of it can run so that one pays and the other is told insufficient funds |
| Races.LoserSeesSpentBalance | app/services/ledger_service.py:262-280 | such a run from the empty system |
| Serializability.AllOrNothing | app/services/ledger_service.py:53-65 | a request that has not committed occurs in no table at all; a committed one has its header, which carries its key; PENDING is never visible |
| Serializability.WalletHistoryIsOrdered | app/db/models/ledger_entry.py:47-52 | on one wallet identity order is commit order, and no ledger prefix is overdrawn |
| Serializability.BalanceIsPrefixSum | app/services/reconciliation_service.py:32-39 | after each committed operation a wallet's balance was the signed sum of the ledger prefix of that time |
| SoloRuns.SoloRunIsApply | app/services/ledger_service.py:86-326 | a request started on a quiet system can run to its end and then does exactly what `Apply` says, whatever the answer |
| Progress.NoCircularWait | app/repositories/wallet_repo.py:37-43 | the wait-for graph over rows and keys has no cycle in any reachable state |
| Progress.SomebodyCanStep | app/repositories/wallet_repo.py:37-43 | while a request is unfinished some request can take its next step |
| Progress.EverySchedulerStops | app/services/ledger_service.py:168-230 | without new arrivals no schedule is longer than the backlog |
| Progress.EverybodyCanFinish | app/services/ledger_service.py:168-230 | all unfinished requests can be brought to their end without aborting any |
| Overtaking.LaterDrawCanCommitFirst | app/db/models/ledger_entry.py:47-52 | from every quiet state two deposits on different wallets can commit in the reverse of the order in which they drew seq, so seq is a commit order per wallet only |
| Retries.OneCommitPerKey | app/db/models/transaction.py:53-58 | in a serial history no two operations with the same key field both commit |
| Retries.RetryReturnsOriginal | app/services/ledger_service.py:160-165 | a second request with the non-empty key of a committed one changes nothing and answers with that one's transaction |
| Retries.RetryElimination | app/services/ledger_service.py:262-265 | removing all retries from a serial history leaves the same tables |
| Retries.PrunedOneMore | app/services/ledger_service.py:262-265 | an operation is removed if and only if one with its non-empty key field has committed before |
| Retries.PrunedHasNoRetry | app/services/ledger_service.py:262-265 | what is left holds no retry of its own |
| Retries.OnlyCommitsBind | app/repositories/transaction_repo.py:15-31 | a key is bound if and only if a request carrying it committed |
| Reconciliation.Check | app/services/reconciliation_service.py:56-74 | reports the drifted rows of the two reads, in row order, and is ok if and only if every row equals the signed sum of its legs |
| Reconciliation.ReportIsExact | app/services/reconciliation_service.py:44-74 | on any tables each wallet whose balance differs from its legs is reported once with the right figures, and no other |
| Reconciliation.GapExplainsReport | app/services/reconciliation_service.py:57-58 | with commits between the reads, a wallet is reported with difference d if and only if those commits had net effect d on it and d is not zero |
| Reconciliation.InterleavedGapExplainsReport | app/services/reconciliation_service.py:57-58 | the same for two reads in two states of any interleaved run |
| Reconciliation.OkExactly | app/services/reconciliation_service.py:27-29 | on any tables the report is ok if and only if every wallet's balance is the signed sum of its legs |
| Reconciliation.InterleavedOkExactly | app/services/reconciliation_service.py:27-29 | beside the service the report is ok if and only if no wallet had a net effect between the reads |
| Reconciliation.CleanOnSoundBooks | app/services/reconciliation_service.py:27-29 | sound books, hence every state the service reaches, give an empty report |
| History.StatementIsCommitOrderReversed | app/repositories/ledger_repo.py:46-60 | ordering by seq descending lists a wallet's legs in reverse commit order |
| History.PageMeans | app/repositories/ledger_repo.py:46-60 | a page at any offset is the wallet's legs, newest first, from offset to offset + limit as far as there are any |
| History.PagingNeverSkips | app/api/routes/wallets.py:96-127 | a walk to a short page shows every leg present at its start although requests commit between the pages |
| History.WholeStatement | app/repositories/ledger_repo.py:46-60 | on an unchanging ledger the pages put together are the statement, without gap or repetition |
| Publisher.FetchIsOldest | app/repositories/outbox_repo.py:34-43 | the fetched rows are distinct, unpublished, oldest first, and as many as the limit allows |
| Publisher.Producer.Flush | app/events/publisher.py:37-39 | answered messages leave the queue; exactly those not lost are in the log; an error is reported if and only if some answer is not a clean acknowledgement |
| Publisher.OutboxPublisher.PublishBatch | app/events/publisher.py:41-70 | raises and marks nothing if and only if the batch is not empty and some answered message has an error, even one that landed; otherwise marks all of it |
| Publisher.OutboxPublisher.Turn | app/events/publisher.py:81-93 | publishes the whole batch if and only if every answered message is acknowledged, and otherwise none of it; with a drained queue every marked event is in the log |
| Publisher.DrainedExactlyByCeiling | app/events/publisher.py:41-70 | n pending events are drained by ceil(n / size) successful batches and by no fewer, for any timestamp order and ties |
| Analytics.TransactionStatRepository.Increment | app/repositories/stats_repo.py:11-23 | the key's row gets one more count and the amount more in its total, from zero on first sight; a row that outgrows its columns is rejected |
| Analytics.ProcessedEventRepository.MarkProcessed | app/repositories/processed_event_repo.py:22-28 | records the id unless the primary key rejects it |
| Analytics.AnalyticsService.HandleEvent | app/services/analytics_service.py:26-46 | a first delivery records the id and adds one and the amount to the row of its currency and type; a duplicate, a lost race or an overflow changes nothing |
| Analytics.AbsorbKeepsExact | app/services/analytics_service.py:13-16 | the rollup stays the fold over exactly the processed transactions on first and repeated delivery |
| Pipeline.DoKeepsInv | app/events/run_analytics_consumer.py:22-38 | every step and crash of publisher, broker and consumer keeps the pipeline invariant |
| Delivery.EffectIsExactlyOnce | app/services/analytics_service.py:26-46 | in every reachable state each rollup row is the fold over the processed ids, all of them committed |
| Delivery.NothingIsLost | app/events/publisher.py:61-70 | with drained flushes every committed event is unpublished or in the log |
| Delivery.MarkIsSafeExactly | app/events/publisher.py:61-69 | in every reachable state: after marking and losing the producer's queue all published events are in the log if and only if they were before and no still-queued message of the batch is missing from the log |
| Delivery.ErrorBlocksMark | app/events/publisher.py:63-66 | a delivery error reported while a batch is under way keeps it from being marked in every continuation up to the next fetch or crash |
| Delivery.GoneForGood | app/events/publisher.py:61-70 | an event that is published, unprocessed, and neither queued nor in the log from the committed offset on stays so in every continuation |
| Delivery.TimedOutFlushLosesAnEvent | app/events/publisher.py:61-61 | a run in which an undrained flush and a crash lose an event, in every continuation |
| Delivery.RollupCompleteExactly | app/services/analytics_service.py:26-46 | the rollup agrees with the ledger on every key if and only if every committed transaction was processed |
| Delivery.DrainedCompleteExactly | app/events/run_analytics_consumer.py:32-38 | once drained, the rollup agrees with the ledger on every key if and only if every published event is in the log and each transaction a handler raised on was processed by another run |
| Delivery.RaisingHandlerSkipsAnEvent | app/events/run_analytics_consumer.py:32-38 | a run in which a raising handler leaves a drained system with a transaction that stays unprocessed in every continuation |
| Delivery.RollupEqualsLedger | app/services/analytics_service.py:26-46 | once drained without a lost or unprocessed event, each rollup row holds the number and the summed amounts of the matching credit legs of the ledger, despite crashes, duplicates and rewinds |
| Delivery.CountIsTransactions | app/db/models/transaction_stat.py:8-26 | that number is the number of committed transactions of the type and currency |
| Recovery.AlwaysRecovers | app/events/publisher.py:81-93 | from every reachable state without leak or unprocessed raise, ordinary work reaches a drained state whose rollup equals the unchanged ledger's, provided its totals fit |
| Recovery.RecoverableExactly | app/db/models/transaction_stat.py:21-26 | from every reachable state a complete rollup can be reached if and only if the ledger's counts and totals fit the rollup's columns and no event is gone |
| Notification.NotificationConsumer.HandleEvent | app/events/consumer.py:33-41 | handles an id once; a raising handler leaves it unseen |
| Notification.AtMostOncePerLifeAtLeastOnceOverall | app/events/consumer.py:53-67 | at most one successful run per id and lifetime; every message below the committed offset was handled |
| Notification.NotifiedExactly | app/events/consumer.py:28-41 | in every reachable state the ids notified in this lifetime are exactly those on the messages handled since the offset at which it resumed |
| Notification.NotifiedAgainExactly | app/events/consumer.py:28-41 | after a crash the ids notified again are exactly the served ones on messages at or above the committed offset |
| Notification.CrashNotifiesTwice | app/events/consumer.py:28-31 | a crash before the offset commit notifies a second time |
| Cache.BalanceCache.Get | app/cache/redis_cache.py:34-40 | returns a row if and only if the last command on its key stored it, it has not expired and the backend answers |
| Cache.BalanceCache.Set | app/cache/redis_cache.py:42-48 | stores the row until now plus TTL, or nothing if the backend fails |
| Cache.BalanceCache.Invalidate | app/cache/redis_cache.py:50-56 | deletes the keys, or nothing if the backend fails |
| Cache.BalanceCache.GetBalance | app/api/routes/wallets.py:50-93 | serves an owner only, from an entry or from the table; exactly an owner's miss fills a working cache, with the current row |
| Cache.StepsAreCommands | app/cache/redis_cache.py:42-56 | the interleaved steps do to the entries what the cache's commands do |
| Cache.DeletesWhatIsNamed | app/api/routes/wallets.py:205-206 | a route deletes keys exactly if its operation did not raise, and exactly those of the wallets its request names |
| Cache.StalenessIsBounded | app/cache/redis_cache.py:41-48 | a hit was the committed row when its reader read it, less than TTL plus that reader's delay ago |
| Cache.StaleExactly | app/api/routes/wallets.py:73-92 | in every run an entry is off by what the commits after its read moved on the wallet, so it differs from the table if and only if those amounts do not sum to zero |
| Cache.StaleNeedsMissedDelete | app/cache/redis_cache.py:50-56 | of the commits that moved something after an entry's read, each one's delete has not worked or ran before the entry was stored; a stale entry has such a commit |
| Cache.OnlySlowReadersLeaveStaleRows | app/api/routes/wallets.py:73-92 | with working deletes, none outstanding, every such commit's delete ran before the entry was stored |
| Cache.AtomicRequestsStayFresh | app/api/routes/wallets.py:155-155 | no sequence of whole requests with a working cache leaves a stale entry, and every balance query is told the committed row |
| Cache.SlowReaderStoresStaleRow | app/api/routes/wallets.py:73-92 | for every operation that changes a row there is a run with working commands that leaves the old row in the cache |
| Cache.DepositLeavesStaleRow | app/api/routes/wallets.py:73-92 | such a run with a deposit of 500 on an empty wallet |

## Left out

- HTTP status codes, request validation by pydantic, authentication, users, metrics, logging, DAGs and deployment.
- SQLAlchemy, Postgres, Kafka and Redis themselves: replaced by the assumptions listed above.
- Several publishers or analytics consumers as a correctness claim: `fetch_unpublished` locks nothing and `increment` is an unlocked read-modify-write.
- Several partitions of the topic: the broker is one log with one offset per consumer group.
- Unicode case mapping: `currency.upper()` is modelled on ASCII letters.
- IntegrityError and DataError are one error, `FlushRejected`: both come out of a flush and neither is handled.
- A replayed answer is tied to the key, not to the body of the retried request, because the lookup compares only the key.
- The row read again after a commit (`refresh`) is taken at the commit; a later commit could already show in it.
- `locked_balance`, the FAILED status, `occurred_at`, and deletion of users are used by no modelled path.
- LedgerService.LedgerService.Deposit: models one session at a time; requests running beside it are the business of `Interleaving`.
- Reconciliation.Check: the group-by query is a map from wallets to sums, not a loop, because it is one SQL expression.
- Insert and commit of a wallet creation are one step of the interleaved machine; its check is a step of its own.
- The replay check and the read of the wallet row that goes with a replayed answer are one step (`app/services/ledger_service.py:163-165`); a commit between the two would show in that row.
