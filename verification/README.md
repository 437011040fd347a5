# lnmux: a verified model of the multiplexer core

lnmux spreads one payment over several Lightning nodes. The parts (htlcs) of a payment arrive
through all nodes, are gathered in memory into one set per payment hash, and a complete set is
written to the database before any preimage is released. Final outcomes that the nodes report
later are folded into one status per invoice.

This project models that core and proves what it is for: no payment is ever settled in part, no
htlc is forgotten or answered twice, no final status is missed. The main theorems speak about whole
runs: every order of arrivals, timers, requests, subscribers and clock steps, with crashes between
any two notifications, restarts and replays.

`dafny verify dfyconfig.toml` checks everything.

## How it is organised

| file | subject |
|---|---|
| `Types`, `ByteOrder` | machine integers, keys, statuses, big-endian bytes |
| `SetId`, `StatelessData` | set ids and stateless payment addresses |
| `Mux`, `Amounts` | the fee, CLTV and payload gate; sums of amounts, with 64 bit wrap-around |
| `Persistence` | the two tables and the two transactions as functions, what the tables always satisfy, confluence of final reports |
| `Persister` | the persister as a class, proved against these functions |
| `Interleaving` | MarkHtlcFinal and Get statement by statement, under the row locks |
| `NodeSettledHandler`, `SettledHandler` | the finality pipeline: protocols over all interleavings, and the classes |
| `Finality` | both protocols on one database, end to end |
| `Registry` | the registry as a step machine, with crashes at any point |
| `RegistryInvariants` | what every step keeps |
| `Settlement`, `Requests`, `Arrivals`, `Resolutions`, `Acceptance`, `Timing`, `Timers`, `Punctuality`, `TimerLimits`, `Holding` | theorems about all runs of the step machine |
| `HtlcSets`, `SubscriptionManager`, `InvoiceRegistry`, `EventLoop` | the registry as objects that are updated in place; each handler is proved to be a step of the machine and the event loop to make runs of it |

The functions of `Registry` and `Persistence` are specifications. The classes work in place, as the
source does, and their contracts equate the new state with such a function of the old state.
`EventLoop.InvoiceEventLoop` ties the two together: the objects are always at the end of a run, so
every theorem about runs holds of them.

## Representation

- Hashes and preimages are free constructors (`Sha256`, `Hmac`), and a set id is the byte string
  fed to the digest. So "equal digests" means "equal inputs".
- A callback is identified by the number of its arrival. Invoking it appends an entry to `log`.
  Telling an accept subscriber of a set appends to `notices`.
- The iteration order of a Go map is a choice of the run. So is whether the database can be read
  and whether a transaction commits.
- The release heap is a multiset of which a minimum is popped.
- `since` and `completed` in a set, `arrivals` and `completions` are history. The decisions of the
  registry do not read them.
- An error returned from the event loop, and a panic, end the process (cmd/lnmuxd/run.go:259-300).
  Memory is then lost and the database is kept. An error in `process` is only logged
  (invoiceregistry.go:293-297), so an auto-settle whose commit fails leaves a complete set behind.

## Assumptions

- A key always stands for the same htlc: `Environment` is a function of the key.
- `EnvOk`: amounts are positive and at most 2 100 000 000 000 000 000 msat (the database demands
  positive amounts, persistence/migrations/1_initial.up.sql:21), and addresses that carry an
  authentic preimage were made for a positive amount (cmd/lnmuxd/server.go:200).
- There is one monotone clock, although the code reads both `time.Now()` and `cfg.Clock`.
- A transaction either commits or does not, and the process knows which.
- lnd stores a final outcome before it sends the event for it, and sends each event to the
  subscriptions open at that time. These are two separate actions of the protocol.
- Only one instance runs (README.md:188-190 of the repository).

Each assumption is a hypothesis of the theorems or part of the state machine; none is an axiom.

## What turned out to be false

- **Timer safety.** A hold timer is not removed with its set. If it fires on a newer, incomplete set
  of the same hash, `deleteHtlc` panics. `TimerLimits.SafeConfigurations` says exactly when runs
  without operator cancels are safe: if and only if the accept timeout is longer than the hold
  duration. `TimerLimits.CancelRunPanics` shows that in every such configuration one cancel is
  enough for a panic. `Punctuality.CleanRunsNeverPanic` gives a condition that suffices in every
  configuration, with cancels: no set is started while a hold timer for its hash is pending.
- **Early timeouts.** For the same reason timers can fail htlcs of newer sets too early. After a
  cancel, a stale accept timer fails an incomplete set in every configuration
  (`TimerLimits.CancelRunFailsEarly`); without cancels this cannot happen in any
  (`Punctuality.CancelFreeIsPunctual`). Stale hold timers fail htlcs before their deadline, in runs
  without cancels, in exactly the configurations that `TimerLimits.PunctualConfigurations` excludes.
- **Row lock.** Without it two transactions can both miss that they are the last one
  (`Interleaving.RowLockNeeded`).
- **Early outcomes.** An outcome that lnd reaches before the settle request commits can be missed
  (`NodeSettledHandler.EarlyOutcomeMissed`). `NodeSettledHandler.NoMissedOutcomeIff` says for every
  run exactly which commits have to be in time for nothing to be missed.
- **Empty settle request.** A committed settle request keeps the database invariant if and only if it
  records at least one htlc (`Persistence.RequestSettleKeepsInv`).

## Model

| member | source | states |
|---|---|---|
| ByteOrder.Uint64RoundTrip | stateless_data.go:26-30 | big-endian encoding and decoding of 64 bit integers are inverse to each other, in both directions |
| ByteOrder.PutUint64Bytes | set_id.go:46-51 | byte i of the encoding is n / 256^(7-i) mod 256: the most significant byte comes first |
| SetId.SetIdCanonical | set_id.go:20-61 | two key lists give the same digest input if and only if they hold the same keys equally often |
| SetId.SetIdOfInjective | set_id.go:20-61 | two sets of keys have the same id if and only if they are equal |
| SetId.SetIdOfEnumeration | set_id.go:20-61 | every duplicate-free listing of a set of keys gives the id of the set |
| SetId.NewSetID | set_id.go:20-61 | the loop over the sorted keys computes the digest input, 49 bytes per key |
| SetId.SortedUnique | set_id.go:24-34 | a list sorted by (node, channel, htlc) is determined by its elements |
| SetId.RecordsInjective | set_id.go:36-55 | the fixed-width records can be parsed in one way only |
| SetId.RecordLayout | set_id.go:39-54 | a record is the node, the channel id and the htlc id, the numbers most significant byte first |
| SetId.KeyOrderIsByteOrder | set_id.go:24-34 | the comparison function is the order of the records as byte strings, so the digest is fed in increasing byte order |
| StatelessData.EncodeStatelessData | stateless_data.go:12-47 | the buffer holds the random bytes, the expiry seconds and the amount byte by byte, and decodes to the amount, the expiry truncated to seconds and the same preimage; fails exactly when the random source does |
| StatelessData.StatelessRoundTrip | stateless_data.go:12-76 | decoding an encoded address returns amount, truncated expiry and preimage, for every int64 amount |
| StatelessData.AddressRoundTrip | stateless_data.go:55-76 | every 32 byte address is the encoding of what decoding it returns |
| StatelessData.AddressesDistinct | stateless_data.go:12-47 | addresses and payment hashes are equal exactly for equal random bytes, expiry second and amount |
| Mux.GatePassedPaysFee | mux.go:252-334 | absent overflow an htlc that passes brings in the amount and the fee and leaves the CLTV delta between its expiries; its amount and expiry are those the sender intended |
| Mux.GateVerdicts | mux.go:203-334 | every verdict exactly, absent overflow: a shortfall of fee or CLTV is a temporary channel failure whatever the onion, each onion code has its reply, the process ends only for an unreadable payload or an unknown code, the two encrypted failures and the pass are if and only if |
| Mux.OnlyOnionStopsMux | mux.go:228-312 | even with overflow the process ends only because of the onion |
| Mux.FeeExact | mux.go:256-257 | absent overflow the 64 bit fee is the mathematical one |
| Mux.PartsPayFee | mux.go:252-264 | the parts of a payment together pay the fee of the whole less one unit per part but the first |
| Mux.TrackHeight | mux.go:159-176 | the height is the highest that any node has reported |
| Amounts.Total | htlc_set.go:50-57 | adding up in 64 bits in any order gives the mathematical sum reduced to 64 bits |
| Persister.PostgresPersister.Get | persistence/pg.go:102-149 | returns the invoice and the amounts of exactly its htlcs |
| Persister.PostgresPersister.GetPendingHtlcs | persistence/pg.go:172-202 | returns exactly the htlcs of the node that have no final outcome, or an error if and only if the database cannot be reached |
| Persister.PostgresPersister.RequestSettle | persistence/pg.go:204-241 | inserts all rows or none; succeeds if and only if the database is available and the constraints admit the rows |
| Persister.PostgresPersister.InsertHtlcs | persistence/pg.go:223-237 | inserts one pending row per htlc and keeps all others, or fails iff some key exists or some amount is not positive |
| Persister.PostgresPersister.MarkHtlcFinal | persistence/pg.go:266-333 | the statements of the transaction have the effect and the result of the atomic specification; nothing happens when the database cannot be reached |
| Persister.PostgresPersister.SelectInvoiceForUpdate | persistence/pg.go:335-358 | finds the invoice that the htlc was recorded for, under the hash of its preimage; in consistent tables it fails exactly for an htlc that was never recorded |
| Persister.PostgresPersister.FinalizeHtlc | persistence/pg.go:360-393 | succeeds iff the htlc is pending for some invoice; it then leaves the pending htlcs, every other row and every invoice stay as they were, and an error means that the outcome is already final |
| Persister.PostgresPersister.FinalizeInvoice | persistence/pg.go:395-420 | succeeds iff the invoice is not final; only its status changes, and the new status is the one its htlcs call for iff the caller was right about them |
| Persister.PostgresPersister.AllHtlcsAreSettled | persistence/pg.go:422-435 | counting pending rows finds whether there are any |
| Persistence.AdmittedIff | persistence/migrations/1_initial.up.sql:1-28 | the rows of a request are admitted iff none of their keys is taken and the tables satisfy positivity and uniqueness of preimages with them |
| Persistence.RequestSettleKeepsInv | persistence/pg.go:204-241 | a committed request keeps the invariant if and only if it records an htlc, and Get then returns what was recorded |
| Persistence.MarkKeepsInv | persistence/pg.go:266-333 | the invariant is kept, and ErrFinalizationFailed and a missing invoice cannot occur |
| Persistence.StatusIsDerived | persistence/pg.go:300-321 | an invoice is FAILED iff some htlc is, and SETTLED iff all are |
| Persistence.CountDecidesAllSettled | persistence/pg.go:422-435 | counting only pending rows decides whether all htlcs are settled |
| Persistence.FirstReportWins | persistence/pg.go:376-390 | after any list of reports an htlc has the status of the first report about it |
| Persistence.ReportsDecideInvoice | persistence/pg.go:279-333 | for every order and repetition of reports the invoice status is decided by the first report per htlc, and exactly one call returns the hash of an invoice that became final |
| Persistence.ReportOrderIrrelevant | persistence/pg.go:279-333 | lists that agree on the first report per htlc lead to the same invoice |
| Persistence.FinalIsForever | persistence/pg.go:279-302 | a final status never changes and is never returned again |
| Persistence.MarkReturnsOnFinal | persistence/pg.go:300-333 | a call returns the hash if and only if it makes the invoice final, with the status it reports |
| Interleaving.InterleavingsAreSerializable | persistence/pg.go:266-358 | every statement-level interleaving of any number of transactions has the tables of the serial order in which they end, and what each transaction returned to its caller is what it returns in that order |
| Interleaving.NoMissedFinalStatus | persistence/pg.go:266-435 | in every interleaving an invoice is SETTLED iff all its committed htlcs are, and FAILED iff one is |
| Interleaving.FinalHashReturnedOnce | persistence/pg.go:300-333 | the number of transactions that returned the hash of an invoice is one if the invoice is final and zero otherwise |
| Interleaving.ReadsAreConsistent | persistence/pg.go:102-149 | a Get with its two statements, among any other transactions, returns the invoice and the htlcs of one and the same consistent state, namely that at its place in the serial order |
| Interleaving.NoInconsistencyReported | persistence/pg.go:335-420 | in no interleaving does a transaction end with ErrFinalizationFailed or with a missing invoice |
| Interleaving.RowLockNeeded | persistence/pg.go:335-358 | without the row lock there is an interleaving that leaves all htlcs settled and the invoice pending |
| NodeSettledHandler.NoMissedOutcomeIff | node_settled_handler.go:68-161 | for every run with error exits and resubscriptions: no outcome is ever missed if and only if at every commit of a settle request, for each of its htlcs whose event lnd has already sent, the event is unread or the handler has yet to list the pending htlcs |
| NodeSettledHandler.NoMissedOutcome | node_settled_handler.go:68-161 | when lnd finalises no htlc before its settle request commits, a pending htlc that is final at lnd is in the stream, on the lookup list or about to be sent; what is recorded is always lnd's outcome |
| NodeSettledHandler.CaughtUp | node_settled_handler.go:68-161 | a handler without lookups and unread events has recorded every outcome of its node that lnd has sent |
| NodeSettledHandler.CommitMissesIff | node_settled_handler.go:68-123 | one commit, over all nodes and all states of their handlers: it leaves nothing missed iff it is in time |
| NodeSettledHandler.EarlyOutcomeMissed | node_settled_handler.go:125-146 | a run in which an outcome that precedes the commit is ignored and never seen again |
| NodeSettledHandler.HandledIff | node_settled_handler.go:134-146 | in consistent tables a report is handled iff its htlc is unknown or its invoice is not settled, repeated reports included |
| NodeSettledHandler.OnlyNewOutcomesCount | node_settled_handler.go:134-146 | a report of a pending htlc is recorded; any other changes nothing and makes no invoice final |
| NodeSettledHandler.ReceiveGoesOn | node_settled_handler.go:99-122 | after an unknown or repeated report the handler goes on with the next one and the database is unchanged; only a report for a settled invoice ends the subscription |
| NodeSettledHandler.NodeHandler.HandleFinalHtlc | node_settled_handler.go:125-161 | from the tables: succeeds iff the database is reachable and the htlc is unknown or its invoice not settled; unknown, repeated and undeliverable reports change neither tables nor calls; one call per invoice that became final |
| NodeSettledHandler.NodeHandler.LookUpPending | node_settled_handler.go:82-97 | every listed htlc is looked up and recorded if final; the pass ends early only for a failed lookup, an unreachable database or a report that cannot be handled, and says which |
| NodeSettledHandler.NodeHandler.ReceiveEvents | node_settled_handler.go:99-122 | the events are recorded in order: all of them, or up to an unreachable database or one that cannot be handled |
| NodeSettledHandler.NodeHandler.SubscribeEvents | node_settled_handler.go:68-123 | handles a list of reports in turn, the lookups first; they include every pending htlc that lnd answers with an outcome and every event, or the pass ends at the failure it names |
| SettledHandler.NoLostWakeup | settled_handler.go:38-90 | over every interleaving, with crashes between commit and callback and failing reads, a waiter that did not find a final status receives exactly the committed one, and every answer is the committed status |
| SettledHandler.AnnounceNeverBlocks | settled_handler.go:38-53 | a listed channel is open and empty, so sending never blocks or panics |
| SettledHandler.Waiters.Subscribe | settled_handler.go:55-66 | a fresh open channel is appended to the list of the hash, others are unchanged |
| SettledHandler.Waiters.WaitForInvoiceFinalStatus | settled_handler.go:55-90 | registers before reading; answers iff the stored status is final, reports a missing invoice iff it is not stored and a failed read iff the database cannot be reached, and otherwise waits on the registered channel |
| SettledHandler.Waiters.InvoiceSettled | settled_handler.go:38-53 | every waiter of the hash gets exactly one value on a closed channel, and nobody else is touched |
| Finality.AnswersAreTrue | settled_handler.go:55-90 | for handlers and waiting calls on one database, with crashes and error exits: a caller is told that an invoice is settled iff every node has stored a settle for each of its htlcs, and that it failed iff some node has stored a failure |
| Finality.OutcomesReachCallers | node_settled_handler.go:68-161 | when all settle requests are in time: once all outcomes of an invoice were sent, read and announced, every call that waits for it has the true answer in its channel |
| RegistryInvariants.RunKeepsInv | invoiceregistry.go:257-335 | in every reachable state sets are non-empty, stored under the hash of their preimage, with a positive total of at most the value their htlcs declare; memory and database are disjoint; stored amounts sum to the invoice amount; settles are backed by the database |
| RegistryInvariants.NewTotalExact | invoiceregistry.go:705-739 | the uint64 total of the overpayment check is the mathematical one |
| RegistryInvariants.OnlyIncompleteGrows | invoiceregistry.go:732-739 | only an incomplete set accepts another htlc |
| RegistryInvariants.SetIsAdmitted | invoiceregistry.go:843-869 | the table constraints admit every in-memory set, so only the connection can make storing fail |
| RegistryInvariants.DeleteAllEffect | htlc_set.go:42-48 | deleting a set with a notifying callback resolves all waiting arrivals of its htlcs, once each, and nothing else |
| Settlement.SettledOnlyWhenPaid | invoiceregistry.go:828-869 | in every run a settle is emitted only for an htlc stored for its hash, in a set that pays exactly the invoice, with the right preimage |
| Settlement.AllOrNothing | invoiceregistry.go:600-869 | from the commit on, through crashes between notifications, restarts and replays, a resolution for the hash is a settle if and only if the htlc is stored |
| Settlement.StoredForever | persistence/pg.go:204-241 | a stored hash keeps its htlcs and amounts in every later state |
| Settlement.ReplaySettles | invoiceregistry.go:600-646 | a replay of a stored htlc passes the gate at any height and is settled again, without any other effect |
| Settlement.RepliesAfterCommit | invoiceregistry.go:337-448 | once stored: settling again succeeds, cancelling is refused, any other id is not found, and no request changes anything |
| Requests.SettleInMemory | invoiceregistry.go:362-448 | for a set in memory: Ok iff the htlcs sum to the value, the id is that of exactly these htlcs, manual mode and the commit goes through, and then the set is stored and every waiting arrival settled; each other reply exactly; nothing changes on a refusal |
| Requests.CancelInMemory | invoiceregistry.go:337-448 | for a set in memory: Ok iff the htlcs sum to the value and the id is that of exactly these htlcs, and then every waiting arrival fails; otherwise not found and nothing changes |
| Requests.RequestsOutsideMemory | invoiceregistry.go:401-427 | without a set: an unknown hash is not found, an unreadable database ends the process, and otherwise nothing changes |
| Settlement.AcceptedIdIsStoredId | invoiceregistry.go:401-448 | the id of a complete set is the id recomputed from the database at any time after its settle request |
| Settlement.AutoSettledIdIsStoredId | invoiceregistry.go:808-826 | in auto-settle mode the announced id is the id recomputed from the database |
| Settlement.SettledInvoicePaysFees | mux.go:256-324 | an invoice settled with n parts brought in at least its value, n base fees and the proportional fee less n-1 |
| Resolutions.ResolvedAtMostOnce | invoiceregistry.go:871-900 | no arrival is resolved twice, or resolved and waiting, or waiting twice; the waiting keys are the disjoint union of the keys of all sets |
| Resolutions.ArrivalNeverForgotten | invoiceregistry.go:636-826 | an arrival for which the database could be read stays resolved or waiting as long as the process lives |
| Resolutions.MemoryIsLost | cmd/lnmuxd/run.go:259-300 | a step that ends the process leaves no set, subscription, timer or subscriber behind |
| Arrivals.ArrivalOutcome | invoiceregistry.go:648-786 | an htlc is taken iff mpp record, hash, total, expiry, sum, block height and listener conditions hold, each in plain arithmetic; otherwise it fails with the outcome of the first violated condition and nothing else happens |
| Arrivals.OtherArrivals | invoiceregistry.go:600-715 | a held htlc that is offered again waits once more, an htlc of a stored invoice it was not stored with fails, and an unreadable database changes nothing |
| Arrivals.GracePeriod | subscription_manager.go:40-65 | without subscribers a new payment is expected iff some subscriber left, since the last start of the process, not longer ago than the grace period |
| Acceptance.CompleteSetFrozen | invoiceregistry.go:555-558 | every step leaves a complete set as it is or removes it |
| Acceptance.FrozenUntilResolved | invoiceregistry.go:705-739 | as long as it is in memory a complete set keeps its htlcs and id |
| Acceptance.ToldExactlyOnce | invoiceregistry.go:461-481 | every subscriber has been told of every complete set in memory exactly once, with its id |
| Acceptance.ToldOnCompletion | invoiceregistry.go:788-826 | whenever a set becomes complete, auto-settled or not, exactly the current subscribers receive one new notice each, with the hash and the id of the set |
| Acceptance.StoredWasAnnounced | invoiceregistry.go:788-869 | whenever a hash is stored, on request, automatically or just before a crash, every subscriber has been told of that very completion, by its serial number, exactly once and with the id of the stored htlcs |
| Timers.TimerSafety | invoiceregistry.go:273-291 | without operator cancels and with accept timeout > hold duration no tick panics, hold timers are in bijection with the htlcs of incomplete sets, and no timer is left for an unknown hash |
| Punctuality.CleanRunsNeverPanic | htlc_set.go:105-116 | a run that never starts a set while a hold timer for its hash is pending never panics, whatever the configuration and with cancels |
| Punctuality.MppTimeoutNotEarly | invoiceregistry.go:543-566 | in such a run an htlc fails with an mpp timeout only when the hold duration has passed since it was accepted or its invoice has expired, and only while its set is incomplete |
| Punctuality.AcceptTimeoutNotEarly | invoiceregistry.go:483-502 | when no set is started while an accept timer for its hash is pending, an accept timeout fails only sets that have been complete for the accept timeout |
| Punctuality.CancelFreeIsFresh | invoiceregistry.go:504-517 | without operator cancels no set is started while an accept timer for its hash is pending, whatever the configuration |
| Punctuality.CancelFreeIsPunctual | invoiceregistry.go:483-566 | without operator cancels accept timeouts are never early, and with accept timeout > hold duration neither are mpp timeouts |
| TimerLimits.SafeConfigurations | invoiceregistry.go:504-566 | all runs without cancels are panic-free if and only if the accept timeout is longer than the hold duration |
| TimerLimits.TimeoutRunPanics | invoiceregistry.go:543-566 | for every other configuration, a run without cancels in which a stale hold timer panics |
| TimerLimits.CancelRunPanics | invoiceregistry.go:337-360 | for every safe configuration, a run with one operator cancel in which a stale hold timer panics |
| TimerLimits.PunctualConfigurations | invoiceregistry.go:519-566 | all runs without cancels fail htlcs with an mpp timeout only at or after their deadline if and only if the accept timeout is longer than the hold duration or the hold duration is zero |
| TimerLimits.TimeoutRunFailsEarly | invoiceregistry.go:519-566 | for every other configuration, a run without cancels in which an htlc that is offered again fails before its deadline |
| TimerLimits.CancelRunFailsEarly | invoiceregistry.go:483-502 | for every configuration, a run with exactly one operator cancel in which the accept timer that the cancelled set left behind fails an htlc of a newer, incomplete set |
| Holding.BoundedHolding | invoiceregistry.go:504-541 | when due timers fire before time advances, an htlc of an incomplete set is held no longer than the hold duration and never past the expiry of its invoice, with a pending timer for that; no htlc is held beyond hold duration plus accept timeout, and complete sets have their accept timer |
| HtlcSets.HtlcSetImpl.AddHtlc | htlc_set.go:118-124 | adds a key that is not present |
| HtlcSets.HtlcSetImpl.TotalSetAmt | htlc_set.go:50-57 | the 64 bit sum of the amounts |
| HtlcSets.HtlcSetImpl.IsComplete | htlc_set.go:59-72 | returns the id of the set iff the total equals the value |
| HtlcSets.HtlcSetImpl.DeleteHtlc | htlc_set.go:105-116 | removes a present key, and the set from its parent with the last key |
| HtlcSets.HtlcSetsImpl.Add | htlc_sets.go:31-45 | a fresh set with one htlc under a hash that is not present |
| HtlcSets.HtlcSetsImpl.Delete | htlc_sets.go:62-67 | removes a present hash and nothing else |
| SubscriptionManager.Manager.GenerateSubscriptionId | subscription_manager.go:53-55 | ids are counted up |
| SubscriptionManager.Manager.AddAcceptSubscription | subscription_manager.go:34-38 | the subscriber is added |
| SubscriptionManager.Manager.DeleteAcceptSubscription | subscription_manager.go:40-51 | only the removal of a known subscriber starts the grace period |
| SubscriptionManager.Manager.NotifySubscribers | subscription_manager.go:57-61 | every subscriber is called exactly once |
| InvoiceRegistry.Top | release_event.go:37-39 | the top of the heap is an earliest event |
| InvoiceRegistry.InvoiceRegistry.NotifyHodlSubscribers | invoiceregistry.go:871-890 | all waiting callbacks of the key are invoked in order and removed |
| InvoiceRegistry.InvoiceRegistry.HodlSubscribe | invoiceregistry.go:892-900 | the callback is appended to those of the key |
| InvoiceRegistry.InvoiceRegistry.DeleteAll | htlc_set.go:42-48 | is the deleteAll of the step machine, in some iteration order |
| InvoiceRegistry.InvoiceRegistry.GetAcceptedSet | invoiceregistry.go:401-448 | finds a complete set with the id, or else answers from the database |
| InvoiceRegistry.InvoiceRegistry.HandleCancelRequest | invoiceregistry.go:337-360 | reply and new state are those of the step machine |
| InvoiceRegistry.InvoiceRegistry.HandleSettleRequest | invoiceregistry.go:362-399 | reply and new state are those of the step machine |
| InvoiceRegistry.InvoiceRegistry.MarkSettleRequested | invoiceregistry.go:843-869 | stores the set or changes nothing |
| InvoiceRegistry.InvoiceRegistry.RequestSettle | invoiceregistry.go:828-841 | settles every htlc of the set and removes it |
| InvoiceRegistry.InvoiceRegistry.CancelSingleHtlc | invoiceregistry.go:543-566 | fails one htlc of an incomplete set; panics exactly when the set does not hold it |
| InvoiceRegistry.InvoiceRegistry.FailInvoice | invoiceregistry.go:483-502 | fails all htlcs of the set, if it is still there |
| InvoiceRegistry.InvoiceRegistry.ReleaseTick | invoiceregistry.go:257-291 | handles an earliest event once its time has come, and nothing before |
| InvoiceRegistry.InvoiceRegistry.AddAcceptSubscriber | invoiceregistry.go:461-481 | the new subscriber is told of each complete set, once |
| InvoiceRegistry.InvoiceRegistry.DeleteAcceptSubscription | invoiceregistry.go:305-306 | the subscriber is removed, and the grace period starts if it was known |
| InvoiceRegistry.InvoiceRegistry.StartHtlcTimer | invoiceregistry.go:519-541 | one hold event is added to the heap and nothing else changes |
| InvoiceRegistry.InvoiceRegistry.Announce | invoiceregistry.go:504-517 | one accept event is added to the heap and every subscriber is told of the set once |
| InvoiceRegistry.InvoiceRegistry.CheckOpen | invoiceregistry.go:648-765 | takes the decision of the step machine on an htlc that is not stored |
| InvoiceRegistry.InvoiceRegistry.ResolveViaDb | invoiceregistry.go:600-634 | resolves the htlc at once iff its invoice is stored: settle for a stored htlc, failure for any other |
| InvoiceRegistry.InvoiceRegistry.AcceptHtlc | invoiceregistry.go:767-826 | adds the htlc and holds it, or completes the set and in auto-settle mode settles it |
| InvoiceRegistry.InvoiceRegistry.Process | invoiceregistry.go:636-826 | is the arrival step of the machine, for every answer of the database |
| EventLoop.HandleHtlc | mux.go:228-397 | an htlc that the gate rejects leaves the registry alone, an error of the gate ends the process, any other htlc is an arrival |
| EventLoop.HandleTimer | invoiceregistry.go:257-291 | a tick is taken exactly when some timer is due |
| EventLoop.HandleInput | invoiceregistry.go:257-335 | whatever comes in, the objects take the enabled step of the machine that the input calls for, and stay as they are only for a rejected htlc, when no timer is due, for a clock that goes back and for a report the database cannot take |
| EventLoop.InvoiceEventLoop | invoiceregistry.go:257-335 | for any list of inputs every input is answered in turn, the objects are at the end of a run of the machine and satisfy its invariant |

## Left out

- gRPC, connections and lnd clients (lnd/), the interceptor and its retries: lnd is an event source with a table of final outcomes.
- Onion decoding, error encryption, the key ring and the replay log: the decoded payload is a function of the htlc.
- BOLT 11 encoding in invoice_creator.go, beyond the stateless payment address.
- Leader election (dlock/): replaced by the assumption of a single instance.
- Configuration, server wiring and generated code (cmd/lnmuxd, lnmuxrpc).
- SQL syntax, migrations, timestamps and listing of invoices: kept are primary keys, uniqueness, positivity, atomicity and row locks.
- Logging, metrics, shutdown channels and context cancellation, except where they end a wait.
- The algorithm of `sort.Slice` and of the priority queue, which are library calls: a sort is represented by insertion sort, the heap by a multiset.
- Resuming htlcs that are not for the virtual channel (mux.go:178-190) and the resolution replies of mux.go:336-372: no effect on the properties.
- Negative hold durations and accept timeouts: durations are non-negative 63 bit numbers of nanoseconds, and times do not overflow.
- The zero time of `lastSubscriberRemovedAt` is `None`: no subscriber has been removed yet, so there is no grace period.
- Interleaving: RequestSettle is one atomic action there; MarkHtlcFinal and Get are split into statements.
- EventLoop.InvoiceEventLoop: crashes come between inputs; crashes inside a handler are part of the step machine only.
- Punctuality.CleanRunsNeverPanic: one direction; a set that is started while a hold timer is pending may still see it expire harmlessly.
- NodeSettledHandler.NodeHandler.SubscribeEvents: one pass by itself; settle requests and other handlers that run meanwhile are part of the protocol only.
- RegistryInvariants.NewTotalExact: holds under the amount bound of `EnvOk`; what wrap-around beyond it would do to a set is not stated.
