# Time-off lifecycle, balance ledger and outbox: a verified model

The service books time off against a local copy of balances that belong to an HCM. Submit reserves days, approve
commits them and queues a FILE command in a transactional outbox, a dispatcher sends the outbox to an HCM that may
lose requests and answers, a reaper expires what is too old, and batch snapshots from the HCM are reconciled with
whatever is still under way. No single method is safe on its own: the dispatcher writes APPROVED without looking at
the request's status, `release` and `commit` clip at zero, reconcile overwrites `available`. This project states and
proves the joint invariant that makes them right, over every interleaving of the actors and every crash point, says
exactly when the local figure agrees with the HCM's, and shows by concrete runs where it does not.

## How the model is built

* **Tables and transactions** (`Entities`, `OutboxTable`, `Lifecycle`): the five tables as values and each
  transaction as a function on them, with the source's branches, refusals and rollbacks. Row ids and the HCM
  idempotency key are table positions, dates are day numbers, instants are integers.
* **The HCM and the way to it** (`MockHcm`, `HcmClient`, `HcmCall`): the balance store and idempotency store, the
  bounded retry loop, and a call as up to `max` posts over a wire that may lose each post or its answer. The flag
  `reverseNeedsFile` separates the HCM of the contract (an unmatched REVERSE moves nothing,
  src/hcm/contracts/hcm.types.ts:66) from the mock (it credits the days).
* **The state machine** (`Machine`): what runs between two points where another actor or a crash can come in is one
  step. Approve is two steps, a dispatch three, a cold read three (look, look again under the lock, HCM read);
  entities an actor has already loaded are kept in the `Section` it is in. `Run` over any list of steps is every
  interleaving, crashes, outside HCM changes and hostile wires included.
* **One request at a time** (`Automaton`, `Refinement`): a request with its outbox rows and its HCM record is an
  automaton with eleven moves; each transaction is shown to be one move of one request.
* **Laws** (`Invariant`, `Agreement`, `Guarantees`, `RunLaws`, `Booking`, `Idempotency`, `Dispatch`, `Attempts`,
  `DispatchOrder`, `KeyReuse`, `Outcomes`, `Hearing`, `Quiescence`, `Ingest`, `Counterexamples`): what each call
  leaves, and what follows for all runs. *Drift* is the local figure minus the HCM's, days under way
  counted; every step's effect on it is given exactly.
* **The services** (`Database`, `Balances`, `TimeOffRequests`, `OutboxDispatcher`, `Reconciliation`,
  `ReservationReaper`, and the classes of `HcmClient`, `MockHcm`, `BalanceLock`, `OptimisticSave`): classes whose
  methods update their fields in the source's order, with its loops; each is proved equal to a run of the state
  machine or to the transaction functions, so that the laws are laws about them.
* **Pieces that stand alone**: `BalanceLock` (the promise chain), `OptimisticSave` (`saveWithRetry`), `Calendar`
  and `WorkDays` (date validators and the business-day loop), `Sums`.

Where code and documents disagree the model follows the code: the comment on `postWithRetry` says a spent budget
reports `unreachable` (it reports the last try's hint), the one on `reconcileBalance` says `reserved` sums PENDING
and PENDING_SYNC (it sums PENDING), the one on `reserve` says `available` goes down (only `reserved` goes up), and
the mock's comment calls an unmatched REVERSE a no-op (it credits).

## Model

| member | source | states |
|---|---|---|
| Automaton.MoveKeepsCoupling | src/hcm/outbox-dispatcher.service.ts:123-301 | PENDING has no rows, PENDING_SYNC one queued FILE and no ack, APPROVED one SENT FILE, terminal requests no row, a VOIDED FILE, or a REVERSE beside a FAILED (REJECTED) or SENT (CANCELLED) FILE, each with a matching HCM record: every move keeps this |
| Automaton.QueuedRowPosition | src/hcm/outbox-dispatcher.service.ts:127-153 | a queued row is the FILE of a PENDING_SYNC request or the REVERSE of a terminal one |
| Automaton.MoveConserves | src/balance/balance.service.ts:286-378 | every move changes `reserved` by its change of PENDING days and only shifts days between `available` and the committed requests |
| Automaton.ChargeIsExact | src/balance/balance.service.ts:341-404 | the exact amount by which each move drives the local figure and the HCM's apart: zero but for five cases |
| Automaton.MisreadIffError | src/balance/balance.service.ts:469-533 | the days by which replaying by acknowledgement instant misses, request by request, as a table over status, rows and landing instants |
| Refinement.ReleaseMakes | src/time-off-request/time-off-request.service.ts:742-769 | dropping a reservation is one move of one request and touches nothing else |
| Refinement.CommitMakes | src/time-off-request/time-off-request.service.ts:466-488 | commit plus FILE row plus PENDING_SYNC is one move |
| Refinement.CallMakes | src/hcm/outbox-dispatcher.service.ts:165-204 | an HCM call, however many posts are lost, is no change or one first answer for the row's key, and an ok result is the stored acknowledgement |
| Refinement.EndMakes | src/hcm/outbox-dispatcher.service.ts:206-301 | transaction 2 is one move (approve, acknowledge, give up a FILE with its compensation, give up a REVERSE) or nothing |
| Invariant.StepKeepsInv | src/hcm/outbox-dispatcher.service.ts:117-302 | every step of every actor, a crash included, keeps coupling, `reserved` = Σ PENDING days, warmth, unique keys, and that a half-way actor's captured entities still are what the tables say |
| Invariant.ReachableInv | src/time-off-request/time-off-request.service.ts:215-772 | the invariant holds after any run from a fresh database |
| Invariant.PendingSyncIsUnsent | src/time-off-request/time-off-request.service.ts:653-690 | cancel's branch "PENDING_SYNC with FILE SENT" is never taken |
| Invariant.ReconciledReserved | src/balance/balance.service.ts:515-527 | the `reserved` that reconcile recomputes is the one kept step by step |
| Agreement.StepTransacts | src/hcm/outbox-dispatcher.service.ts:206-301 | each transactional step is one move of one request of its balance, and its charge is the charge of that move |
| Agreement.JoinByAggregate | src/balance/balance.service.ts:489-507 | summing the join of REVERSE rows with CANCELLED requests is summing over requests |
| Agreement.ReconcileSums | src/balance/balance.service.ts:469-533 | reconcile's three sums are totals of the requests' own states |
| Agreement.StepDrift | src/balance/balance.service.ts:341-404 | for every step and balance: the drift afterwards is the drift before plus the step's charge, or the figure an overwrite sets |
| Guarantees.AgreementIffClean | src/balance/balance.service.ts:386-404 | a step from agreement ends in agreement if and only if a condition checkable before it holds: no landed FILE dropped, no unlanded one reversed, no REVERSE credited for nothing or given up while owed, no ack without effect, refresh only with nothing under way, a snapshot off from the HCM balance of its instant by exactly the days its requests are misread by, no outside change |
| Guarantees.CleanIffHonestClean | src/hcm/contracts/hcm.types.ts:55-68 | for an HCM that applies what it acknowledges and ignores unmatched REVERSEs the condition shrinks to dropped landed FILEs, given-up REVERSEs, refreshes with days under way, snapshots off by other than their misread days, and outside changes |
| Guarantees.StepKeepsHonesty | src/mock-hcm/hcm.controller.ts:117-222 | such an HCM stays one through every step, unless a post meets silent-insufficient |
| Guarantees.CleanRunKeepsAgreement | src/hcm/outbox-dispatcher.service.ts:117-302 | over any run of clean steps, lost answers, retries and crashes included, a balance once read agrees with HCM, days under way counted |
| Guarantees.SettledBalancesAreEqual | src/time-off-request/time-off-request.service.ts:643-709 | after such a run with nothing under way the two balances are equal |
| Guarantees.RunWindsBack | src/balance/balance.service.ts:469-487 | taking back what landed after `asOf` recovers the snapshot from any later state |
| Guarantees.ReconcileByAck | src/balance/balance.service.ts:428-556 | reconciling with a snapshot any number of steps old leaves exactly the misread days less the outside changes since |
| Guarantees.ReconcileIsSound | src/balance/balance.service.ts:428-556 | with none misread and nothing changed outside, replay on a stale base gives the figure of the current HCM balance |
| Guarantees.ReconcileAgreesIff | src/balance/balance.service.ts:428-556 | replay on a stale base gives the figure of the current HCM balance if and only if the misread days of all the requests of the balance sum to the outside changes since |
| Guarantees.ReconcileMissesOne | src/balance/balance.service.ts:489-507 | with exactly one request misread it is off by that request's days |
| Guarantees.AckedMeansAppliedIsEnough | src/hcm/outbox-dispatcher.service.ts:208-222 | none is misread when acknowledged means applied, unmatched REVERSEs are no-ops and cancelled requests were acknowledged by `asOf` |
| Hearing.RunStaysKnown | src/hcm/outbox-dispatcher.service.ts:165-222 | over any run in which no acknowledgement is lost (in a call, a crash, an exception or a rolled-back transaction 2), with an honest HCM whose clock goes forward, every acknowledgement is in the tables or on its way in a section |
| Hearing.KnownIsApplied | src/hcm/outbox-dispatcher.service.ts:208-222 | then acknowledged means applied for every request nobody is dispatching |
| Hearing.LosslessReconcileIff | src/balance/balance.service.ts:428-556 | so from a fresh database, over any such run, a snapshot taken at any point and delivered at any later one reconciles to the current HCM balance, days under way counted, if and only if the outside changes since sum to: the days of CANCELLED requests whose FILE landed after `asOf` and is not undone, less those whose FILE landed by `asOf` and whose REVERSE after it |
| Hearing.LosslessReconcileIsSound | src/balance/balance.service.ts:428-556 | in particular it does when nothing changed outside and every CANCELLED request has `hcmAckAt` null or by `asOf` |
| Hearing.UntriedIsSafeToDrop | src/time-off-request/time-off-request.service.ts:559-568 | after any run, a PENDING_SYNC request whose FILE row has no attempts has not landed, whatever the HCM, and rejecting, cancelling or expiring it is clean |
| RunLaws.StepConserves | src/balance/balance.service.ts:294-378 | unless the step takes a figure from HCM, `available` + days of PENDING_SYNC and APPROVED is unchanged and `reserved <= available` is kept |
| RunLaws.RunConserves | src/balance/balance.service.ts:294-378 | the same over any run between two HCM-sourced writes |
| RunLaws.FloorsNeverClip | src/balance/balance.service.ts:320-357 | in every reachable state `Math.max(0, …)` of release and commit is the plain difference |
| RunLaws.DecideCountsItselfTwice | src/time-off-request/time-off-request.service.ts:437-456 | after a refresh approve goes through if and only if the days fit beside all reservations, its own among them, and then leaves `available >= reserved + days` |
| Outcomes.ApproveStepOutcome | src/time-off-request/time-off-request.service.ts:395-488 | in every reachable state: a start in the past ends in REJECTED with `available` and outbox as they were and the days out of `reserved`; an unreachable HCM means PENDING_SYNC, `committedAt`, the days out of both figures and one FILE row with the data of the request; otherwise HCM's figure is taken over and the request waits for the decision |
| Outcomes.ApproveOutcome | src/time-off-request/time-off-request.service.ts:395-488 | the whole of approve under its lock: status, figures, `lastHcmAsOf` and FILE row by start date, by whether HCM was reached, and by whether its figure less the reservations covers the days |
| Outcomes.RejectOutcome | src/time-off-request/time-off-request.service.ts:526-577 | per status: PENDING drops the reservation, PENDING_SYNC gives the days back and voids its one FILE row, anything else is refused with its status and changes nothing |
| Outcomes.CancelOutcome | src/time-off-request/time-off-request.service.ts:622-713 | the same for cancel; an APPROVED request gives its days back and queues one REVERSE row, a CANCELLED one is answered again and changes nothing |
| Outcomes.ExpireOutcome | src/time-off-request/time-off-request.service.ts:727-772 | the same for expire |
| Outcomes.CancelOfSentFile | src/time-off-request/time-off-request.service.ts:676-692 | cancel's branch for a PENDING_SYNC request whose FILE is SENT, which no reachable state takes |
| Outcomes.BeginOutcome | src/hcm/outbox-dispatcher.service.ts:123-153 | transaction 1 adds one attempt to the row and captures row and request, and changes nothing else |
| Outcomes.OrphanOutcome | src/hcm/outbox-dispatcher.service.ts:127-144 | a row whose request is missing is marked FAILED, one no longer queued is left alone |
| Outcomes.EndOutcome | src/hcm/outbox-dispatcher.service.ts:206-301 | transaction 2 by operation, answer and attempts: APPROVED with `hcmAckAt`; `hcmAckAt` alone for a REVERSE, or nothing if its key was taken over; a retry; REJECTED with the days given back and a REVERSE queued; or a FAILED REVERSE |
| Outcomes.ReadOutcome | src/balance/balance.service.ts:175-256 | a balance that was read before is not touched, nor is any when HCM is down; otherwise its `available` and `lastHcmAsOf` are HCM's |
| Outcomes.ResolveReviewOutcome | src/balance/balance.service.ts:582-590 | clears the flag of that balance and changes nothing else |
| RunLaws.RunSettles | src/hcm/outbox-dispatcher.service.ts:208-222 | over any run a terminal status is never left, and key, dates, days and deadline of a request never change |
| RunLaws.PostsMatchStatus | src/hcm/outbox-dispatcher.service.ts:171-186 | whenever a FILE is posted its request is PENDING_SYNC, a REVERSE only for a terminal one, and the payload says what the request says |
| RunLaws.WarmForGood | src/balance/balance.service.ts:175-256 | once a balance has been read, over any run: it stays warm, no getBalance queues for its lock any more, and no holder of its lock waits for itself or hydrates it again |
| Machine.ReadIsThreeSteps | src/balance/balance.service.ts:175-256 | look, second look under the lock and HCM read, undisturbed, are the read the services make |
| RunLaws.HydratedAtMostOnce | src/balance/balance.service.ts:205-254 | over any interleaving, however many readers found the balance cold and queued for its lock, at most one hydrating read succeeds |
| RunLaws.SelfWaitIsForGood | src/time-off-request/time-off-request.service.ts:225-293 | a submit that finds its balance cold under its own lock holds that lock until a crash, and the balance never changes |
| Booking.RunKeepsBooked | src/time-off-request/time-off-request.service.ts:254-270 | in every reachable state no two active requests of one balance share a day, and `days` is the working days of the range |
| Booking.NeverOverbooked | src/entities/enums.ts:17-21 | active requests lying inside a window sum to at most the working days of the window |
| Idempotency.SubmitCreatesIff | src/time-off-request/time-off-request.service.ts:228-336 | submit creates a request if and only if nobody active holds its key, the key an old holder would be given is free, its days overlap no active request, are in order, not over, not all weekend and covered; it then reserves exactly these days, and otherwise changes nothing |
| Idempotency.ReplayReturnsTheSame | src/time-off-request/time-off-request.service.ts:230-244 | any number of steps later, while the request is active, the same submit returns it and changes nothing |
| Idempotency.ReuseLeavesTheOldRequest | src/time-off-request/time-off-request.service.ts:319-336 | reuse after a terminal status adds a new request and changes of the old one only the key, to key, `:terminal:` and id |
| Idempotency.ReuseBlockedIff | src/entities/time-off-request.entity.ts:62-64 | such a reuse fails if and only if somebody holds the key the old request would be given (`PlainKeysCreateIff` says when nobody does) |
| KeyReuse.RetiredKeyReadsBack | src/time-off-request/time-off-request.service.ts:319-327 | two retired keys are equal only for the same key and the same id: decimal ids can be read back from behind the last colon |
| KeyReuse.PlainKeysCreateIff | src/time-off-request/time-off-request.service.ts:228-336 | from a fresh database, over any run and however often keys were used: if no submitted key has the shape of a retired key, UNIQUE never refuses a submit, and it creates a request if and only if no active request has its key, its days are free, in order, not over, not all weekend, and covered |
| Counterexamples.ChosenKeyBlocksReuse | src/time-off-request/time-off-request.service.ts:319-327 | with a key chosen in that shape it can: a run after which a terminal key cannot be used again |
| Outcomes.SubmitAnswers | src/time-off-request/time-off-request.service.ts:228-336 | which of its answers submit gives, in the order of its checks: the active holder of the key or key reuse, overlap, order, no business days, past, balance, UNIQUE, a new request |
| Outcomes.SubmitBlocksIff | src/time-off-request/time-off-request.service.ts:225-293 | submit waits for its own lock if and only if its balance is cold and every check before the balance is passed; then nothing but the lock changes |
| Idempotency.RunKeepsKey | src/time-off-request/time-off-request.service.ts:319-327 | over any run an active request keeps its idempotency key, although captured entities are saved whole |
| Dispatch.TicksAreARun | src/hcm/outbox-dispatcher.service.ts:68-77 | undisturbed ticks are a run of the state machine |
| Dispatch.TicksRaise | src/hcm/outbox-dispatcher.service.ts:147-148 | ticks raise every queued row's attempts until none is queued, against any wire |
| DispatchOrder.TickTriesEachQueuedRowOnce | src/hcm/outbox-dispatcher.service.ts:68-77 | one tick adds exactly one attempt to every row queued at its start, leaves every other row alone, and leaves the REVERSE rows it writes to the next tick |
| DispatchOrder.OlderIsPostedFirst | src/hcm/outbox-dispatcher.service.ts:69-72 | of two queued FILE rows HCM has not answered, one tick posts the older first: if both are applied, the older at the earlier instant, whatever else is in the outbox |
| DispatchOrder.FirstComeFirstServed | src/hcm/outbox-dispatcher.service.ts:68-77 | so when HCM has days for only one of two requests, the one approved first gets them and is APPROVED, and the other is refused |
| Dispatch.FilesSettle | src/hcm/outbox-dispatcher.service.ts:231-299 | `max` ticks settle every FILE row and leave no request PENDING_SYNC |
| Dispatch.NothingLeftToDispatch | src/hcm/outbox-dispatcher.service.ts:68-77 | 2·`max` ticks leave nothing to dispatch |
| Quiescence.TicksLeaveTheAbandoned | src/hcm/outbox-dispatcher.service.ts:288-299 | from agreement, with an honest HCM on whatever wire: after 2·`max` ticks the local balance exceeds the HCM's by the days of the REVERSEs given up meanwhile and by nothing else |
| Quiescence.TicksEndInEquality | src/hcm/outbox-dispatcher.service.ts:68-77 | so the two are equal when every REVERSE got through |
| Attempts.BudgetKeptIff | src/hcm/outbox-dispatcher.service.ts:146-148 | for `max` >= 1 a step of any actor keeps every row within `max` attempts, with a try left where nobody is dispatching, if and only if it is neither a crash or an exception that hits a row on its last try nor a transaction 2 that UNIQUE rolls back on the last try |
| Attempts.AttemptsStayCappedIff | src/hcm/outbox-dispatcher.service.ts:231-299 | from a fresh database, over every interleaving: the rows stay within their attempts throughout if and only if no step is one of those |
| Dispatch.TicksKeepBudget | src/hcm/outbox-dispatcher.service.ts:231-241 | undisturbed ticks keep the rows within `max` attempts |
| Attempts.TicksStayCapped | src/hcm/outbox-dispatcher.service.ts:68-77 | so they do from every state at rest that was reached without such a step, and cost at most `max`² posts a row |
| Dispatch.PostsPerRow | src/hcm/hcm-client.service.ts:198-277 | over undisturbed ticks from within the budget one row costs at most `max`² posts, all of the one command it was written with |
| Attempts.PostsPerRowInRun | src/hcm/hcm-client.service.ts:198-277 | over every interleaving, crashes included, one row costs at most `max` posts for each of its attempts; so at most `max`² when no step overruns |
| Attempts.RunKeepsCommand | src/hcm/outbox-dispatcher.service.ts:173-186 | over any run the command of a row never changes, so every post carries the same idempotency key |
| OutboxDispatcher.OutboxDispatcherService.Begin | src/hcm/outbox-dispatcher.service.ts:123-153 | the method is transaction 1 |
| OutboxDispatcher.OutboxDispatcherService.End | src/hcm/outbox-dispatcher.service.ts:206-301 | the method is transaction 2, rolled back whole by a UNIQUE violation |
| OutboxDispatcher.OutboxDispatcherService.DispatchOne | src/hcm/outbox-dispatcher.service.ts:86-303 | pre-check, transaction 1, call, transaction 2, on tables and HCM; no exception while keys are unique |
| OutboxDispatcher.OutboxDispatcherService.DispatchPending | src/hcm/outbox-dispatcher.service.ts:68-77 | the loop over the rows read at its start, oldest first, is one tick; every queued row is tried once |
| Balances.BalanceService.Reserve | src/balance/balance.service.ts:286-312 | reserves exactly when the free days cover it, else changes nothing |
| Balances.BalanceService.Release | src/balance/balance.service.ts:320-335 | new row, and no other row changes |
| Balances.BalanceService.Commit | src/balance/balance.service.ts:341-357 | new row, and no other row changes |
| Balances.BalanceService.GetBalance | src/balance/balance.service.ts:175-256 | warm row as it is, cold row hydrated, or an unsaved zero row when HCM is down; without lazy loading a missing row is saved as zero and HCM is never asked |
| Balances.BalanceService.HydrateUnderLock | src/balance/balance.service.ts:205-254 | under the lock: a row hydrated in the meantime is returned and HCM is not asked again |
| Balances.BalanceService.ReconcileBalance | src/balance/balance.service.ts:428-556 | the three summing loops, the row and the event are the reconcile transaction |
| Balances.BalanceService.SumOfReversals | src/balance/balance.service.ts:489-507 | the loop over joined rows is the sum of the column |
| TimeOffRequests.TimeOffRequestService.Submit | src/time-off-request/time-off-request.service.ts:215-344 | pre-warm and submit step of the machine with the same reply, or blocked on its own lock |
| TimeOffRequests.TimeOffRequestService.Approve | src/time-off-request/time-off-request.service.ts:365-495 | pre-warm, refresh step and decide step of the machine; the reply by status, and status, figures and FILE row column by column (`ApproveLeaves`) |
| TimeOffRequests.TimeOffRequestService.Reject | src/time-off-request/time-off-request.service.ts:510-577 | pre-warm and reject step, with the reply; the tables are those of reject on the pre-warmed balance |
| TimeOffRequests.TimeOffRequestService.Cancel | src/time-off-request/time-off-request.service.ts:603-713 | pre-warm and cancel step, with the reply; the tables are those of cancel on the pre-warmed balance |
| TimeOffRequests.TimeOffRequestService.Expire | src/time-off-request/time-off-request.service.ts:727-772 | the expire transaction, with the reply |
| TimeOffRequests.TimeOffRequestService.VoidPendingFileRows | src/time-off-request/time-off-request.service.ts:177-189 | voids the queued FILE rows of the request and no other row |
| ReservationReaper.ReservationReaperService.Sweep | src/reservation-reaper/reservation-reaper.service.ts:59-86 | the loop expires exactly the PENDING and PENDING_SYNC requests with `expiresAt <= now` and leaves all others as they were |
| ReservationReaper.SweepExpiresTheOverdue | src/reservation-reaper/reservation-reaper.service.ts:59-86 | after a sweep a request is EXPIRED, with its other columns kept, if it was PENDING or PENDING_SYNC with `expiresAt <= now`, and is as it was otherwise |
| ReservationReaper.SubmittedLivesItsTime | src/reservation-reaper/reservation-reaper.service.ts:59-86 | over any run since its submit, a request survives every sweep before `now + ttl` of that submit, and the first sweep from then on expires it if it is still PENDING or PENDING_SYNC |
| ReservationReaper.SweepIsARun | src/reservation-reaper/reservation-reaper.service.ts:69-84 | a sweep is a run of expire steps of the machine |
| ReservationReaper.ExpiredFilesAreVoided | src/time-off-request/time-off-request.service.ts:742-765 | the queued FILE rows of exactly the expired requests are VOIDED |
| Reconciliation.ReconciliationService.IngestBatch | src/reconciliation/reconciliation.service.ts:79-134 | guard, loop and log are the ingest function |
| Ingest.StaleLeavesOneEvent | src/reconciliation/reconciliation.service.ts:87-103 | a delivery not newer than some applied one moves nothing and appends one STALE_REJECTED event |
| Ingest.NewerIsApplied | src/reconciliation/reconciliation.service.ts:79-134 | a batch is applied if and only if it is newer than every logged one; then it is logged, after one event per entry in the order of the entries |
| Ingest.ReconcileReports | src/balance/balance.service.ts:519-555 | the event is FLAGGED_NEGATIVE exactly when the new figure is negative, NO_CHANGE exactly when nothing was replayed and the row said it all before, and review is asked for exactly in the first case or before |
| Ingest.DeliveriesLeave | src/reconciliation/reconciliation.service.ts:112-123 | whatever is delivered in whatever order: each row is what its last applied entry makes of it; the review flag remembers every negative entry |
| Ingest.HighestSequenceWins | src/reconciliation/reconciliation.service.ts:79-134 | with duplicates, reorderings and crashed deliveries, each key of the highest corpus ends with the amounts one clean ingest gives it |
| Ingest.CrashesAndRedelivery | src/reconciliation/reconciliation.service.ts:125-133 | any number of attempts crashed after any prefix and then a complete one leave the very balance rows of one clean ingest |
| MockHcm.HcmController.FileTimeOff | src/mock-hcm/hcm.controller.ts:107-166 | the endpoint over its two stores, by scenario: a known key hears its stored answer, a new one takes the days if and only if the balance covers them, and each answer is stored |
| MockHcm.HcmController.ReverseTimeOff | src/mock-hcm/hcm.controller.ts:180-223 | the endpoint over its two stores, by scenario: a new key credits a known balance and is always acknowledged |
| MockHcm.ExactlyOnce | src/mock-hcm/hcm.controller.ts:117-222 | any calls, timeouts interleaved anywhere, leave the stores as the first call of each key that got through would |
| MockHcm.OneAnswerPerKey | src/mock-hcm/hcm.controller.ts:122-128 | every call that gets through is answered with what the final store holds for its key |
| MockHcm.NeverOverdrawn | src/mock-hcm/hcm.controller.ts:151-159 | no sequence of calls takes a balance below zero |
| HcmClient.HcmClientService.PostWithRetry | src/hcm/hcm-client.service.ts:198-277 | never throws; result, number of posts and total delay base·(2^(posts−1) − 1) from the first decisive try |
| HcmClient.HcmClientService.GetBalance | src/hcm/hcm-client.service.ts:69-145 | which try serves the balance, or unavailable; one try and no delay without retry |
| HcmClient.AcknowledgedIff | src/hcm/hcm-client.service.ts:232-265 | ok exactly when within the budget some try is a 2xx whose ok is not false and every earlier one had no response, threw, or had a status of 500 or above |
| HcmClient.ReportsTheDecisiveTry | src/hcm/hcm-client.service.ts:222-265 | the first other try ends the loop: its acknowledgement instant or its hint is the result, and no post follows |
| HcmClient.ReportsTheLastTry | src/hcm/hcm-client.service.ts:267-276 | a spent budget reports the hint of the last try |
| HcmCall.SendIsPostWithRetry | src/hcm/hcm-client.service.ts:198-277 | the dispatcher's call is this retry loop run against the HCM's own answers |
| HcmCall.SendIsOnePost | src/hcm/hcm-client.service.ts:174-186 | all posts of one call leave HCM as one post, or as it was when none arrives |
| BalanceLock.BalanceLockService.Begin | src/common/lock/balance-lock.service.ts:90-102 | registration in the chain |
| BalanceLock.BalanceLockService.Finally | src/common/lock/balance-lock.service.ts:117-123 | the finally block, the same after a throw |
| BalanceLock.AdmittedIffAheadDone | src/common/lock/balance-lock.service.ts:90-102 | a waiting caller may enter if and only if everyone registered before it on its key is done |
| BalanceLock.MutualExclusion | src/common/lock/balance-lock.service.ts:89-126 | under every interleaving at most one caller per key is inside |
| BalanceLock.OneAtATimeInOrder | src/common/lock/balance-lock.service.ts:89-126 | callers enter in registration order, each after the one before has left |
| BalanceLock.KeyPresentIffInUse | src/common/lock/balance-lock.service.ts:117-121 | the map holds a key exactly while somebody holds or waits for it |
| BalanceLock.AdmittedAfterExactly | src/common/lock/balance-lock.service.ts:86-126 | over any run, with callers registering, nesting and working on any key meanwhile: a caller that still waits may enter if and only if the callers ahead of it on its key have made all the steps they had to make |
| BalanceLock.SomebodyAheadCanMove | src/common/lock/balance-lock.service.ts:86-126 | until they have, one of them can move, provided none of them is inside awaiting a call of its own; so if each `fn` ahead ends, every caller enters, whatever happens behind it or on other keys |
| BalanceLock.ChainIsOneHolderPerKey | src/common/lock/balance-lock.service.ts:89-126 | every run of the promise chain is a run of a map with one holder per key, where only a free key is entered and only its holder frees it |
| BalanceLock.ReentryIsForGood | src/common/lock/balance-lock.service.ts:98-102 | a call on a key its caller holds is never admitted, nor is anyone after it |
| OptimisticSave.BalanceRow.SaveWithRetry | src/balance/balance.service.ts:108-155 | at most six saves; success leaves the mutation applied once to the row as stored at that save, which is one update of the balance table, failure leaves the adversary's row; which of the four outcomes it is |
| OptimisticSave.RefusedIffTouched | src/balance/balance.service.ts:125-150 | a save is refused exactly when the row was rewritten or deleted since it was loaded |
| Calendar.NextDayIsOneMore | src/time-off-request/time-off-request.service.ts:112-112 | the cursor's step is one day across months, years and leap days |
| Calendar.DaysInMonth | src/time-off-request/dto/submit-request.dto.ts:22-33 | 30 days for April, June, September and November, 28 or by the rule of 4, 100 and 400 29 for February, 31 for the others |
| Calendar.KnownDays | src/time-off-request/time-off-request.service.ts:103-112 | 1970-01-01 is day 0 and a Thursday, 2026-05-01 a Friday |
| Calendar.ValidIffReal | src/time-off-request/dto/submit-request.dto.ts:22-33 | the round trip through Date accepts exactly the dates of the years 0000 to 9999 whose day is within the length of their month, leap years included |
| Calendar.StringOrderIsDayOrder | src/time-off-request/time-off-request.service.ts:262-283 | comparing YYYY-MM-DD strings of real dates is comparing their day numbers |
| Calendar.AcceptsIff | src/time-off-request/dto/submit-request.dto.ts:38-53 | a range is accepted if and only if both dates are real, in order, and span at most 365 days |
| Calendar.CountBusinessDays | src/time-off-request/time-off-request.service.ts:83-116 | the loop ends and counts exactly the non-holiday weekdays of the days it walks; refused exactly when the end string is smaller |
| Calendar.CountsTheDaysThemselves | src/time-off-request/time-off-request.service.ts:103-104 | from year 100 on these are the days of the two dates |
| Calendar.OtherDaysBeforeYear100 | src/time-off-request/time-off-request.service.ts:103-104 | before, `Date.UTC` reads the year as 1900 and more, for every such date |
| Calendar.SplitsAnywhere | src/time-off-request/time-off-request.service.ts:106-113 | the count is additive when a range is split |
| Calendar.CountsWeekdays | src/time-off-request/time-off-request.service.ts:106-113 | the count is the number of days from Monday to Friday that are not holidays |
| Calendar.ClosedForm | src/time-off-request/time-off-request.service.ts:106-113 | without holidays the count is a difference of a closed form in the day number |
| Calendar.CloseToFiveSevenths | src/time-off-request/time-off-request.service.ts:106-113 | at most 5·⌊n/7⌋ + n mod 7 and at most 2 below |
| Calendar.AcceptedDays | src/time-off-request/dto/submit-request.dto.ts:46-47 | an accepted range has at most 261 working days |
| Counterexamples.CancelAfterLostAnswer | src/time-off-request/time-off-request.service.ts:666-674 | a run after which, with nothing under way, HCM is short of a day that was cancelled |
| Counterexamples.ReconcileTakesLandedDayTwice | src/balance/balance.service.ts:469-487 | a run in which reconcile subtracts a PENDING_SYNC day that HCM already took |
| Counterexamples.ReconcileCreditsWhatWasNotTaken | src/balance/balance.service.ts:489-507 | a run without a lost answer in which reconcile credits the REVERSE of a FILE acknowledged after the snapshot |
| Counterexamples.MockCreditsUnmatchedReverse | src/mock-hcm/hcm.controller.ts:215-216 | a run in which a compensating REVERSE credits a FILE that never landed |
| Counterexamples.CrashPassesTheCap | src/hcm/outbox-dispatcher.service.ts:146-148 | a crash between the transactions lets attempts exceed `max` |
| Counterexamples.AbortPassesTheCap | src/hcm/outbox-dispatcher.service.ts:208-222 | so does a run without any crash, in which a submit for another balance takes over the raw key of a request whose REVERSE is being dispatched |
| Counterexamples.ApproveRefusesWhatFits | src/time-off-request/time-off-request.service.ts:441-442 | a run in which approve refuses a request that the balance covers |
| Counterexamples.ColdSubmitBlocksItself | src/time-off-request/time-off-request.service.ts:289-293 | a run in which submit waits for the lock it holds |
| Counterexamples.RefreshForgetsDaysUnderWay | src/balance/balance.service.ts:396-401 | a run in which approve's refresh forgets a committed day HCM has not taken |

## Left out

- Concurrent `ingestBatch` calls: guard and log are separate transactions, so the ingest laws are for one ingest at a time without request activity; single reconciles interleave freely in the state machine.
- Ingest.HighestSequenceWins: `needsReview` is not part of the equality, because the source never clears it on reconcile; DeliveriesLeave gives it exactly.
- RunLaws.WarmForGood: the state machine is that of the default configuration; of BALANCE_LAZY_LOAD_ENABLED=false only `GetBalance` itself is modelled.
- Approve's HCM read and its snapshot write are one step, and so are the posts of one call; a crash between them leaves a state that a shorter script reaches as well.
- Reads before the lock (preload, pre-check, the reaper's and the dispatcher's lists) are not steps of their own: each is repeated under the lock and a stale one is a step that does nothing.
- The lock key is the pair of ids; two pairs whose `::` concatenations are equal share a lock in the source, which serialises more than is needed. `UNIQUE(idempotencyKey)` across balances is checked by the insert, as in the source.
- Calendar.CountBusinessDays: `Lifecycle` counts on true day numbers, so for ranges before year 100 it may give another refusal than the source (`NoBusinessDays` and `PastRange` change places).
- Calendar.ValidIffReal: an engine that answers February 30 with an invalid date throws in `toISOString` instead; either way the string is refused.
- OptimisticSave.BalanceRow.SaveWithRetry: the store's part (version check, primary key) is the ORM's and the database's, not in these files, and is taken to do what the code expects of it; a row deleted and inserted again is not modelled.
- OptimisticSave.RefusedIffTouched: likewise a law of that version check.
- Attempts.BudgetKeptIff: with `max` = 0 every queued row is past its budget from the start, and the first dispatch settles it.
- HCM posts delivered late, after their call has ended, and HTTP error statuses for posts that were applied.
- The mock's scenarios `mutate-between-calls`, `divergent-batch` and `ignore-idempotency-key`, the `_control` endpoints and the latch test seam.
- Controllers, guards, headers, DTO rules other than the two date validators, logging, reasons and manager ids, scheduling, UUID generation (ids are fresh by construction), time zones and holiday calendars (stubbed in the source).
