# Infinite Markets: verified core protocols

A Dafny model of the protocols that Infinite Markets relies on to sell one inventory over two storefronts, with proofs of
what every run of them keeps. `dafny verify dfyconfig.toml` checks all of it.

Every database transaction is one atomic step that either commits or leaves its tables alone; every call to LNbits, a mail
server or a relay is a step of its own. A run is an arbitrary sequence of steps, so a crash, a retry, an expired lease, a
duplicate callback or a second worker is simply a sequence in which a step is missing, late, repeated or out of place. The
theorems quantify over all such sequences.

Each protocol comes in two layers. A state machine of functions carries the invariants and the theorems. A class (or a
loop) in the shape of the program updates fields in place, and each of its methods is proved to take the step of that
state machine; where the class keeps a ghost `history`, its `Valid()` says that the tables are what those steps made of the
empty ones, so every theorem about runs applies to it. The lemmas named `...Exactly`, most of them in the `...Effects`
files, say of each operation when it succeeds and what it then leaves in each field, with the numbers written out.

| file | covers |
|---|---|
| `Orders`, `Inventory`, `Saga`, `SagaInvariant`, `SagaProof`, `SagaTheorems`, `SagaEffects`, `Reconcile`, `SagaEngine`, `ShopEngine` | orders, stock, reservations, invoices, settlement, reconciliation |
| `Handover` | payment requests enqueued after the attach |
| `Locks` | row locks of concurrent multi-product claims |
| `Idempotency`, `CheckoutGuarantee` | checkout keys: lease, token, link, replay; keys and saga as one machine |
| `Outbox`, `OutboxTheorems`, `OutboxEffects`, `OutboxEngine` | the durable outbox |
| `Email`, `EmailTheorems`, `EmailEffects`, `EmailEngine` | the e-mail queue and its timed SMTP calls |
| `Ranking` | the ordered, bounded selection both queues claim by |
| `Leases` | task leases and fenced transactions |
| `InboxSessions`, `InboxIntake`, `InboxEngine`, `InboxDedupe` | relay sessions and cursors; inbox rows and Gamma orders |
| `Catalog`, `CatalogTheorems`, `CatalogEffects`, `CatalogEngine` | bulk product actions and collection intents |
| `Fx`, `Encoding`, `RateBuckets` | order totals, byte layouts and tokens, rate limits |

## Where the code does less than it is meant to

Each of these is a result: the model keeps the code's behaviour, a lemma gives the failing input, and another one says
exactly when the property holds.

- **Attach in the harness is unguarded.** A late duplicate turns a settled projection back to pending
  (`HarnessAttachReopensSettled`); it agrees with the guarded attach of `checkout.py` exactly while the projection, if
  there is one, is still being created (`HarnessAttachIsGuardedExactly`). All saga theorems use the guarded one.
- **A closed Gamma order can be asked to pay.** Production enqueues the payment request in a transaction after the attach.
  The web path reads the order again there, the Gamma and recovery paths do not: a closed order's request is enqueued exactly
  when one of these two paths still has it to send (`ClosedIsAskedExactly`), as after a cancel in between
  (`CancelBeforeEnqueueAsksClosed`, `ClosedGammaOrderIsAsked`). The web path never does (`RequestsAreSound`).
- **A reconcile pass can raise.** Among arbitrary steps of other workers it raises exactly when some payment it reaches is
  pending or settled for an order that no longer awaits payment while its invoice has lapsed (`PassAmidRaisesExactly`).
  Expiry leaves its payment pending, so the pass after one that expired an order raises (`PassAfterExpiryRaises`).
- **`published` is not final for public intents.** `supersede_obsolete` reads first and updates later by id alone. A published
  row is left exactly by an update whose pass had read the row before (`PublishedIsLeftOnlyBySupersede`,
  `RacingSupersedeTakesBackPublished`, `SuchARowOccurs`). Order messages never leave it.
- **A completed idempotency record can be reopened.** A completed response is replayed exactly until the first retention at or
  after its expiry, or 90 days after its order became terminal (`ReplayedUntilRetention`); after that a retry reclaims the
  record and resumes its order (`ErasedRecordIsReopened`).
- **SMTP calls can overlap for less than a second.** The deadline adds a whole-second lease to a fractional clock. A call ends
  by its lease exactly when 30 seconds of the lease are left at its start or its deadline is not past the lease
  (`CallEndsByLeaseExactly`), the latter exactly when the monotonic reading is not ahead of the database's whole second
  (`DeadlineWithinLeaseExactly`). Of two calls in flight the earlier one outlives its lease (`OverlapNeedsLateCall`), so
  calls that fit never overlap (`NoOverlap`); and any call that outlives the lease of a row it still claims is overlapped
  by the next claimant's (`LateCallIsOverlapped`, `LateCallOccurs`).
- **`failed` e-mail rows are not absorbing.** Such a row stays exactly until the first retention 90 days after its order became
  terminal (`FailedStaysUntilRetention`, `FinalStatesAreAbsorbing`).
- **An inbox event can be lost between REQ and registration.** An event that arrives before `_by_sub` knows the subscription is
  dropped, and EOSE still moves the cursor past it (`EarlyDeliveryIsLost`). Only such a wrap can be missing: with one worker
  every other one has been handed over (`SingleWorkerIntakeIsGapFree`). With several workers so has every other one as long
  as sessions opened without a cursor start within 27 days of the first one that completed (`IntakeIsGapFree`), and for every
  later start there is a gap (`FarApartSessionsLeaveAGap`).
- **A late delete lets a rumor be validated twice.** The guarded update alone keeps a rumor from being validated twice, over
  stale passes, retries and crashes, as long as no muted-author delete hits a row that was validated meanwhile
  (`ValidatedAtMostOnce`); after one, a retry is validated again (`LateDeleteAllowsSecondValidation`, `TwoValidationsOccur`).
  What the drain's lease prevents is the loss of a message: a stale second pass marks a validated row a duplicate of itself
  (`StalePassSelfDuplicates`). The index of `migrations.py:704-707` covers the rumor id alone, so while one merchant's row
  carries a rumor, other merchants' rows with it are never validated (`RumorOfAnotherMerchantIsStuck`).
- **Products deleted together can leave a tombstone that is never sent.** A tombstone waits for the republication of each
  surviving collection. When a later product of the same bulk delete is in that collection, the republication is superseded
  in the same transaction, and a superseded row never counts as published. This happens to the k-th tombstone exactly when
  such a collection exists (`TombstoneIsStuckExactly`), for instance for any two published products of one collection
  (`TwoDeletedTogetherStick`).
- **A bucket with cap zero admits one request** (`ZeroCapAdmitsOne`).

## Model

| member | source | states |
|---|---|---|
| Orders.AdmittedExtendsPath | harness/state.py:231-307 | a transition the checks let through extends a legal audit trail to a legal audit trail that ends at the new state |
| SagaEffects.LegalMoves | harness/state.py:60-85 | the legal moves pair by pair, and the three that need a reason |
| SagaEffects.AdmittedExactly | harness/state.py:231-307 | a transition is admitted exactly when the row is in the expected state, the move is legal and a required reason is given |
| SagaEngine.ClaimEach | harness/tx.py:203-278 | the guarded updates one by one succeed exactly when every product is live with free stock for its whole quantity, and then reserve exactly the cart |
| SagaEngine.ClaimStock | harness/tx.py:236-252 | the same for the sorted order of the locks, whatever the order of the cart |
| Inventory.ClaimIgnoresCartOrder | harness/tx.py:236-252 | whether a cart is claimable, distinct, and what it reserves depend only on its multiset of items |
| SagaTheorems.ClaimSucceedsExactly | harness/tx.py:203-278 | in every reachable state a claim succeeds exactly on a received order with a distinct, claimable cart, reserves exactly it, and otherwise changes nothing |
| SagaEffects.ClaimableExactly | harness/tx.py:203-278 | claimable means: each product of the cart exists, is not deleted, and its total fits the stock that is not reserved |
| SagaEffects.BeginReplies | harness/saga.py:406-453 | which check refuses a claim: a missing order, then stock, then state, then the constraints |
| SagaEffects.BeginEffect | harness/saga.py:406-453 | a claim that succeeds moves the order, inserts one held row per item, reserves each product's total and creates the projection, and nothing else |
| SagaEffects.BeginConstraints | harness/saga.py:425-453 | what the unique constraints refuse, row by row |
| Locks.SortedClaimsNeverDeadlock | harness/tx.py:236-252 | in every run of any number of sorted claims, while one waits some claim can take its next lock or commit |
| Locks.RowsAreLockedOnce | harness/tx.py:236-252 | in every such run no two claims have locked the same row |
| Locks.StepsExactly | harness/tx.py:236-252 | a lock is granted exactly while no other claim has the row, and a commit needs every lock and gives all back |
| Locks.UnsortedClaimsDeadlock | harness/tx.py:236-252 | without the sort, for any two carts of the same two products in opposite order, a run after which each holds the row the other needs |
| SagaProof.RunKeeps | harness/saga.py:406-841 | every run keeps the invariant that ties products, reservations, orders, payments, intents, LNbits and the audit log together |
| SagaTheorems.StockConserved | harness/saga.py:369-402 | in every run, reserved stock is the sum of held rows, is never negative nor above the stock on hand, and stock on hand plus consumed rows is the initial stock |
| SagaTheorems.OrderReservationAndAuditAgree | harness/state.py:58-68 | in every run an order's state fixes the state of each of its reservations (held, consumed, released or expired), and its audit rows are a legal path to that state |
| SagaTheorems.NoSecondInvoice | harness/saga.py:406-453 | in every run LNbits is called at most once per order, holds at most that invoice, and its payment request is delivered at most once |
| SagaTheorems.OnlyAttachDelivers | harness/saga.py:464-560 | a delivery happens only in an attach that moves its own order from invoice_pending to awaiting_payment |
| SagaTheorems.ClosedStays | harness/saga.py:406-841 | no step of the saga reopens a rejected, cancelled, expired or confirmed order |
| SagaTheorems.NoLateDelivery | harness/saga.py:564-614 | once an order is cancelled or otherwise closed, no continuation delivers its invoice or changes its state |
| SagaEffects.CancelSucceedsExactly | harness/saga.py:584-614 | in every run a cancel succeeds exactly on a received, invoice_pending or awaiting_payment order; it then ends cancelled, its held rows released, each product's reserved stock lower by exactly what the order held, and the buyer told; a cancelled order or one past cancelling is left as it is |
| SagaEffects.ExpirySucceedsExactly | harness/saga.py:803-841 | in every run an expiry succeeds exactly on an awaiting order, returns exactly its cart, lapses its rows and tells the buyer |
| SagaEffects.RejectionClosesExactly | harness/saga.py:616-641 | in every run a definitive rejection fails an open projection, and closes and releases exactly an invoice_pending order |
| SagaTheorems.ConfirmedIsPaid | harness/saga.py:667-799 | in every run a confirmed order has its invoice paid at LNbits, its payment settled, and every product of its cart republished |
| SagaTheorems.PaymentsAdvance | harness/saga.py:667-735 | under every step of every order a settled or failed payment keeps its status, and a pending one can only become settled |
| SagaTheorems.DuplicatesChangeNothing | harness/saga.py:667-799 | once a payment is settled, its order's further settlements and attaches can be struck out of any sequence of steps without changing any table |
| SagaTheorems.SettlementIsIdempotent | harness/saga.py:667-799 | one settlement followed by anything, with any number of its duplicates among it, ends like the same without the duplicates |
| SagaTheorems.SettlementsCommute | harness/saga.py:667-799 | settlements of different orders end in the same stock, reservations, orders and payments in either order |
| SagaTheorems.LateSettlementTouchesNothing | harness/saga.py:736-799 | a settlement moves an order exactly when it awaits payment; otherwise stock, rows and state stay and the order is flagged |
| SagaEffects.SettlementSellsExactly | harness/saga.py:667-799 | in every run a settlement of an open projection settles it; an awaiting order's cart leaves stock on hand and reserved stock, its rows are consumed, the buyer is told and each product republished at its new revision; any other order is only flagged |
| SagaEffects.AttachReplies | infinitemarkets/services/checkout.py:1176-1250 | an attach moves the order exactly while the projection is creating or unknown and the order invoice_pending; a known hash is a duplicate, anything else a conflict |
| SagaEffects.AttachEffect | infinitemarkets/services/checkout.py:1176-1250 | the invoice reaches the projection, and exactly an order that waits for it moves, has its held rows realigned to the invoice's expiry and is delivered to |
| SagaEffects.CreateInvoiceExactly | harness/saga.py:147-194 | only a begun order's worker calls, once; LNbits then holds one more open invoice exactly unless it rejected or lost the call before storing it |
| SagaEffects.MarkUnknownFlags | harness/saga.py:643-665 | an unknown outcome flags exactly its order and touches no stock, invoice or intent |
| SagaEffects.ReenqueueExactly | infinitemarkets/services/order_messages.py:882-918 | a payment request is put back exactly for an awaiting order with a pending payment, once |
| SagaTheorems.HarnessAttachIsGuardedExactly | harness/saga.py:464-560 | the harness attach equals the guarded one exactly while the projection, if there is one, is creating or unknown, and turns every projection to pending |
| SagaTheorems.HarnessAttachReopensSettled | harness/saga.py:481-495 | a concrete run from every empty shop after which a duplicate harness attach turns a settled payment back to pending |
| Reconcile.PassRecovers | harness/saga.py:925-941 | a pass with nothing in between raises exactly when a selected payment is stuck; otherwise each paid one is settled, each awaiting order of a paid one confirmed, and nothing else touched |
| Reconcile.RouteExactly | harness/saga.py:925-941 | one payment in any state: paid is settled, lapsed is expired, anything else left alone, and it raises exactly for a missing order or projection, a failed projection, or a lapsed invoice of an order that does not await payment |
| Reconcile.PassAmidRaisesExactly | harness/saga.py:925-941 | among arbitrary steps of other workers the pass raises exactly when some payment it reaches is stuck at that moment |
| Reconcile.PassAmidSettlesPaid | harness/saga.py:925-941 | and every payment it finds paid is settled when it ends, whether or not it raised |
| Reconcile.PassAfterExpiryRaises | harness/saga.py:925-941 | a complete pass that follows one which expired an order raises |
| SagaEngine.ReleaseReservations | harness/saga.py:369-402 | the loop gives back exactly the stock of the order's held rows and closes exactly those rows |
| SagaEngine.ConsumeReservations | harness/saga.py:736-753 | the loop takes exactly the held stock from both counters and consumes exactly those rows |
| SagaEngine.EnqueueRepublications | harness/saga.py:754-790 | one stock intent per row that was held, under its product's revision |
| SagaEngine.InvoiceSaga.TransitionOrder | harness/state.py:231-307 | compare-and-swap plus audit row, or no change and the error the checks give |
| SagaEngine.InvoiceSaga.Begin | harness/saga.py:406-453 | takes the claim step: stock, order, rows and projection together, or nothing |
| SagaEngine.InvoiceSaga.CreateInvoice | harness/saga.py:147-194 | LNbits counts the call and keeps the invoice before it answers, also when the answer is lost |
| SagaEngine.InvoiceSaga.Attach | harness/saga.py:464-560 | takes the attach step under the guard of checkout.py:1200-1206, deferring to whatever else moved the order |
| SagaEngine.InvoiceSaga.Cancel | harness/saga.py:564-614 | takes the cancel step from the three cancellable states, idempotently |
| SagaEngine.InvoiceSaga.MarkRejection | harness/saga.py:616-641 | takes the rejection step |
| SagaEngine.InvoiceSaga.MarkUnknown | harness/saga.py:643-665 | takes the unknown-outcome step |
| SagaEngine.InvoiceSaga.ConfirmSettlement | harness/saga.py:667-799 | takes the settlement step, with all its refusals |
| SagaEngine.InvoiceSaga.ExpireOrder | harness/saga.py:803-841 | takes the expiry step |
| SagaEngine.InvoiceSaga.ReconcilePending | harness/saga.py:925-941 | the loop over pending payments is the pass whose outcome PassRecovers characterises |
| SagaEngine.InvoiceSaga.CloseInvoice | harness/saga.py:196-225 | LNbits settles or expires exactly an open invoice |
| ShopEngine.Shop.PlaceOrder | infinitemarkets/services/checkout.py:802-976 | an intake, from which every later object of the saga is reached |
| ShopEngine.Shop.BooksBalance | harness/saga.py:369-402 | in every shop that its methods can reach, the stock equations hold of its fields |
| Handover.ClosedIsAskedExactly | infinitemarkets/services/checkout.py:1491-1506 | a step asks for the payment of an order that does not await it exactly when the Gamma or recovery path sends what it read earlier |
| Handover.CancelBeforeEnqueueAsksClosed | infinitemarkets/services/checkout.py:1491-1506 | from every state in which a Gamma worker holds an attached invoice, a cancel in between makes it ask a cancelled order |
| Handover.ClosedGammaOrderIsAsked | infinitemarkets/services/checkout.py:1491-1506 | a run from every fresh shop that ends so |
| Handover.RequestsAreSound | infinitemarkets/services/checkout.py:766-790 | in every run checkout enqueues at most one request per order, each names the order's one invoice, and the web path asks only orders that await payment |
| Handover.AttachForExactly | infinitemarkets/services/checkout.py:766-790 | the caller of an attach is left the invoice to send exactly when the attach made an invoice_pending order await payment |
| Handover.SendExactly | infinitemarkets/services/checkout.py:766-790 | the web path asks for the invoice it attached exactly while the order still awaits payment, the Gamma path in any state |
| Handover.RecoveryExactly | infinitemarkets/services/order_messages.py:882-918 | recovery reads exactly the awaiting orders with a pending payment and no request, and asks later for what it read, whatever the order is by then |
| Idempotency.OneOrderPerKey | infinitemarkets/services/checkout.py:96-191 | in every run two orders of one key are the same order, and the key's record links it |
| Idempotency.LinksAreWrittenOnce | infinitemarkets/services/checkout.py:916-923 | no run rewrites a request hash, a link or an order, or lowers a token |
| Idempotency.OrderAppearsWithItsLink | infinitemarkets/services/checkout.py:916-923 | an order appears only together with its link, under the live token |
| Idempotency.StaleTokenIsPowerless | infinitemarkets/services/checkout.py:163-191 | after a reclaim the earlier worker can neither link, complete nor fail the record, in any continuation |
| Idempotency.CompletedChangesOnlyByErasure | infinitemarkets/services/settlement.py:942-972 | a step changes a completed record with its response exactly when retention runs at its expiry or later, or 90 days after its order became terminal |
| Idempotency.ReplayedUntilRetention | infinitemarkets/services/settlement.py:942-972 | over every run in which its order rests, the record is unchanged exactly until the first such retention, and its response is lost from then on |
| Idempotency.CompletedReplays | infinitemarkets/services/checkout.py:96-160 | until then every retry replays that response, or is refused for a different request, and changes nothing |
| Idempotency.ErasedRecordIsReopened | infinitemarkets/services/checkout.py:96-160 | after an erasure a retry reopens the record under a new token but resumes the order it has |
| Idempotency.ClaimReplies | infinitemarkets/services/checkout.py:122-141 | a claim of a known key conflicts, replays, or is refused as in progress, the last exactly while the same request's claim is in progress with its lease still running; each leaves the record alone |
| Idempotency.ClaimGrants | infinitemarkets/services/checkout.py:105-160 | a granted claim holds the record for 120 seconds under the next token, as a fresh attempt or a resumption of exactly the linked order |
| Idempotency.LeaseIsRespected | infinitemarkets/services/checkout.py:129-150 | over every run no retry before the end of a claim's lease takes its token or lease away, unless the claim itself completed or failed |
| Idempotency.RetriesWaitForTheLease | infinitemarkets/services/checkout.py:129-150 | until then every retry is told to wait, and from the end of the lease on the next one takes over under the next token |
| Idempotency.InsertExactly | infinitemarkets/services/checkout.py:802-976 | an order is inserted exactly below ten open orders, by the live claim of a record without an order |
| Idempotency.ClosingExactly | infinitemarkets/services/checkout.py:163-191 | a record is completed or failed exactly by its live claim, completed only with the order it is linked to |
| Idempotency.IdempotencyStore.ClaimIdempotency | infinitemarkets/services/checkout.py:96-160 | takes the claim step: fresh, resume, replay, in progress or conflict |
| Idempotency.IdempotencyStore.InsertOrderIntake | infinitemarkets/services/checkout.py:802-976 | refuses at ten open orders; else inserts the order and writes its link in one transaction, or rolls the order back |
| Idempotency.IdempotencyStore.CompleteIdempotency | infinitemarkets/services/checkout.py:163-181 | completes only the live, linked record |
| Idempotency.IdempotencyStore.FailIdempotency | infinitemarkets/services/checkout.py:184-191 | fails only the live record |
| CheckoutGuarantee.OneInvoicePerKey | infinitemarkets/services/checkout.py:658-689 | in every run of keys, intakes and saga as one machine, a key has at most one order and one create_invoice call in all, and that order exists and is linked |
| CheckoutGuarantee.ResumeFindsItsOrder | infinitemarkets/services/checkout.py:1315-1328 | a reclaimed key that resumes names an order of the shop that is its own |
| CheckoutGuarantee.LinksAndOrdersAgree | infinitemarkets/services/checkout.py:802-976 | in every run a record's link is exactly the set of orders of its key |
| CheckoutGuarantee.PlaceExactly | infinitemarkets/services/checkout.py:802-976 | an intake is placed, order, items, audit row and link together, exactly for a new order of a live claim below the cap; else nothing changes |
| CheckoutGuarantee.SidesMoveApart | infinitemarkets/services/checkout.py:658-689 | apart from the intakes, keys and saga take exactly their own steps and leave the other side alone |
| OutboxTheorems.RunKeeps | harness/queues.py:54-441 | every run keeps unique claims per token, bounded attempts, leases only on claimed rows, quorum of published rows and published dependencies of claimed ones |
| OutboxTheorems.OneClaimantPasses | harness/tx.py:399-420 | in every run at most one claim of a row can pass a leased write, whatever its workers' clocks read |
| OutboxTheorems.TokensNeverDecrease | harness/tx.py:313-396 | a row's token never decreases in any continuation |
| OutboxTheorems.EarlierClaimIsFencedOut | harness/queues.py:359-402 | a claim with an older token changes nothing, in any continuation |
| OutboxTheorems.ReclaimOvertakes | harness/queues.py:381-397 | a claim or stale requeue that goes through takes the token past every claim given out before |
| OutboxTheorems.PublishedIsSound | harness/queues.py:287-347 | in every run a published row has durable quorum, at most 20 attempts, and each dependency has quorum and is published (or superseded after it was) |
| OutboxTheorems.PublishedIsLeftOnlyBySupersede | harness/queues.py:404-441 | published is left exactly by a supersede update whose pass had read the row earlier |
| OutboxTheorems.OrderMessageStaysPublished | harness/queues.py:404-441 | a published order message stays published in every continuation |
| OutboxTheorems.UninterruptedSupersedeSparesPublished | harness/queues.py:404-441 | a pass that reads and updates with nothing in between leaves published rows alone |
| OutboxTheorems.RacingSupersedeTakesBackPublished | harness/queues.py:404-441 | any public row with evidence, a live claim and a newer revision can be read, published and then superseded |
| OutboxTheorems.SuchARowOccurs | harness/queues.py:404-441 | a sequence of steps from the empty tables that reaches such a row |
| OutboxTheorems.NoDependencyCycle | harness/queues.py:110-118 | in every run a cycle of dependencies contains a self-edge |
| OutboxTheorems.SelfDependentNeverPublishes | harness/queues.py:147-161 | an intent that depends on itself is never claimed and never published |
| OutboxEffects.PassSupersedesExactly | harness/queues.py:404-441 | an uninterrupted pass supersedes a row exactly when it is public, in a supersedable state, and another row has the same aggregate type, subject and kind and a larger revision |
| OutboxEffects.OnlyOutdatedRowsAreSuperseded | harness/queues.py:418-429 | in every run each superseded row is outdated by such a row: while nothing publishes a later revision of it, no row is superseded |
| OutboxEffects.ClaimExactly | harness/queues.py:134-169 | a row is claimed exactly when it waits, is due, has fewer than 20 attempts and no unpublished dependency; it gets the next token and a lease, and nothing else changes |
| OutboxEffects.LeasedWritesExactly | harness/tx.py:399-420 | a leased write lands exactly under the row's current token before the end of its lease |
| OutboxEffects.RequeueExactly | harness/queues.py:381-397 | recovery takes a row back exactly under the token it read and after the end of the lease, under a new token and due at once |
| OutboxEffects.OutcomeExactly | harness/queues.py:287-347 | published exactly with quorum, failed exactly at the twentieth attempt without it, else partial exactly with some evidence; the next attempt waits for the backoff |
| OutboxEffects.QuorumExactly | harness/queues.py:239-245 | quorum written on the evidence rows of the intent: any accepted one, for an order message one of each copy |
| OutboxEffects.BackoffDoubles | harness/queues.py:48-51 | five seconds, doubled per attempt, up to 1800 |
| OutboxEffects.MissingAppend | harness/queues.py:187-194 | the targets to send are the declared ones without evidence, each as often and in the order declared |
| OutboxEngine.OutboxModel.EnqueueIntent | harness/queues.py:68-120 | inserts row and edges once, or nothing when the id exists or a dependency does not |
| OutboxEngine.OutboxModel.Claim | harness/queues.py:134-169 | claims distinct due rows with published dependencies in order of next attempt and id, up to the limit, leaving none out before one taken |
| Ranking.SelectFirst | harness/tx.py:358-375 | the ordered, bounded selection: none left out before one taken, and the limit used up if any remain |
| Ranking.RankedByTime | harness/tx.py:358-375 | taken rows come by time and then id, and a row is left out only when the limit is used up by rows no later than it |
| OutboxEngine.BatchSpecified | harness/tx.py:376-396 | a batch gives exactly its rows the state, lease and next token, and leaves every other row and its readiness alone |
| OutboxEngine.OutboxModel.PublishAttempt | harness/queues.py:196-237 | returns the declared targets without accepted evidence in their order, and only to the live claimant |
| OutboxEngine.OutboxModel.RecordPublications | harness/queues.py:247-285 | appends exactly the outcomes to the evidence |
| OutboxEngine.OutboxModel.DecideOutcome | harness/queues.py:287-347 | under a live claim: published iff quorum, failed iff attempts are used up without it, else partial or pending with bounded backoff |
| OutboxEngine.OutboxModel.RequeueStale | harness/queues.py:359-402 | exactly the rows in flight with an expired lease return to pending or partially published by their evidence, under a new token |
| OutboxEngine.OutboxModel.SupersedeObsolete | harness/queues.py:404-441 | with nothing in between, supersedes exactly the public rows in a supersedable state for which another row has the same aggregate type, subject and kind and a larger revision |
| OutboxEngine.OutboxModel.SupersedeScanned | harness/queues.py:430-439 | the update of a row read earlier: exactly with a newer revision of the same aggregate type, subject and kind it ends superseded, whatever its state is by now |
| EmailTheorems.RunKeeps | infinitemarkets/services/email.py:66-119 | every run keeps claims of a row apart by token, an earlier claim dead once there is a later one, and live claims tied to the row's token and lease |
| EmailTheorems.DeadlineWithinLeaseExactly | infinitemarkets/services/email.py:248-261 | the deadline stays in the lease exactly when the monotonic reading is not ahead of the whole second, and never exceeds it by a second |
| EmailTheorems.CallEndsByLeaseExactly | infinitemarkets/services/email.py:331-348 | a call that starts ends by its lease exactly when 30 seconds of the lease are left or its deadline is inside |
| EmailTheorems.OverlapNeedsLateCall | infinitemarkets/services/email.py:334-348 | in every run, of two calls of a row in flight the earlier one outlives its lease, which ended less than a second ago |
| EmailTheorems.NoOverlap | infinitemarkets/services/email.py:334-348 | in every run in which the row's calls fit their leases at most one of them is in flight at any time |
| EmailTheorems.LateCallIsOverlapped | infinitemarkets/services/email.py:392-405 | from every state with a call that outlives the lease of a row it still claims, the next claimant's call overlaps it |
| EmailTheorems.LateCallOccurs | infinitemarkets/services/email.py:248-261 | a run that reaches such a state |
| EmailTheorems.FinalStatesAreAbsorbing | infinitemarkets/services/settlement.py:942-966 | sent and suppressed are never left, failed exactly by a retention that finds the order terminal for 90 days, and then to suppressed |
| EmailTheorems.FailedStaysUntilRetention | infinitemarkets/services/settlement.py:942-966 | over every run in which its order stays terminal, a failed row stays exactly until the first retention 90 days after that |
| EmailTheorems.FinalRowsAreNotClaimed | infinitemarkets/services/email.py:66-102 | a final row is never claimed again, in any continuation |
| EmailEffects.ClaimExactly | infinitemarkets/services/email.py:66-102 | a row is claimed exactly when it is pending, due and has attempts left, for 120 seconds under the next token |
| EmailEffects.PrepareExactly | infinitemarkets/services/email.py:246-316 | only the holder of an unexpired claim suppresses, defers or prepares its row, and what each leaves in the row |
| EmailEffects.StartExactly | infinitemarkets/services/email.py:331-348 | a call starts exactly before its deadline and is cut off there or after 30 seconds, whichever comes first |
| EmailEffects.RecoverExactly | infinitemarkets/services/email.py:392-405 | exactly the claimed rows whose lease has ended return to pending, with their token and attempts |
| EmailEffects.FinishExactly | infinitemarkets/services/email.py:349-376 | only the holder of an unexpired claim settles its row: sent, pending again until the attempts are used up, then failed |
| EmailEffects.OptOutExactly | infinitemarkets/views_public_api.py:295-306 | an opt-out suppresses exactly the order's pending and claimed customer rows; the merchant's rows, final rows and other orders' rows stay as they are |
| EmailEffects.RetainExactly | infinitemarkets/services/settlement.py:942-966 | exactly the rows of orders terminal for 90 days are ended, under a new token and without a claim; sent stays sent |
| EmailEngine.EmailQueue.ClaimBatch | infinitemarkets/services/email.py:66-102 | claims the first 16 due rows by next attempt and id, each by a claim of its own, and changes no other row |
| EmailEngine.EmailQueue.PrepareSend | infinitemarkets/services/email.py:246-316 | re-reads the claim, then suppresses, defers, or fixes the deadline |
| EmailEngine.EmailQueue.BeginCall | infinitemarkets/services/email.py:331-348 | starts a call exactly with time left, for at most 30 seconds and not past the deadline |
| EmailEngine.EmailQueue.EndSend | infinitemarkets/services/email.py:348-376 | classifies a finished call under a live claim only: sent, failed at the attempt limit, else pending |
| EmailEngine.EmailQueue.RecoverStaleClaims | infinitemarkets/services/email.py:392-405 | exactly the claimed rows whose lease ended return to pending |
| EmailEngine.EmailQueue.OptOutOrder | infinitemarkets/views_public_api.py:295-306 | the queued customer rows of the order are suppressed, and every other row stays |
| EmailEngine.EmailQueue.PruneRetention | infinitemarkets/services/settlement.py:961-966 | exactly the rows of orders terminal for 90 days end sent or suppressed without a claim |
| Leases.GrantsStrictlyIncrease | harness/tx.py:423-464 | in every run the tokens handed out for a name strictly increase, whatever the clocks read |
| Leases.NoCommitAfterTakeover | infinitemarkets/db.py:167-202 | a commit after a grant carries at least its token, and with the same token it is the same holder's |
| Leases.CommitsFollowTokenOrder | infinitemarkets/db.py:197-202 | fenced transactions of a name commit in non-decreasing token order |
| Leases.TakeoverWaitsForExpiry | harness/tx.py:423-464 | another holder is granted a name only after the grant before has expired, and each commit lies inside the newest grant |
| Leases.AcquireExactly | harness/tx.py:423-464 | a lease is refused exactly while another holder's runs; otherwise it runs until now + ttl under the next token, and other names stay |
| Leases.FencedExactly | infinitemarkets/db.py:139-202 | a fenced transaction begins, and later commits, exactly under its own holder and token before the end of the lease |
| Leases.TaskLeases.AcquireLease | harness/tx.py:423-464 | renewal, takeover, first grant or refusal; the granted lease ends at now + ttl under a token that tops all earlier ones of the name |
| Leases.TaskLeases.RunFenced | infinitemarkets/db.py:139-202 | a transaction commits exactly when its fence holds at begin and again at commit |
| InboxIntake.IntakeIsGapFree | infinitemarkets/services/inbox.py:761-896 | in every run with prompt cursorless sessions, a wrap stored before the cursor, backdated at most 3 days and inside the first window was handed over, unless that wrap itself was delivered before registration |
| InboxIntake.SingleWorkerIntakeIsGapFree | infinitemarkets/services/inbox.py:761-896 | with one worker, over every crash, close, re-subscription and re-opened session and whatever happens to other wraps, a missing wrap was delivered before registration |
| InboxIntake.EarlyDeliveryIsLost | infinitemarkets/services/inbox.py:798-807 | for every wrap backdated at most 3 days a one-worker run in which it is sent before registration, dropped, and passed by the cursor |
| InboxIntake.FarApartSessionsLeaveAGap | infinitemarkets/services/inbox.py:761-772 | for every second cursorless session that starts later than 27 days after the first, a run that leaves a gap |
| InboxSessions.SinceExactly | infinitemarkets/services/inbox.py:761-772 | a first session reaches back 30 days, a later one three days behind the cursor, none before zero |
| InboxSessions.DeliverExactly | infinitemarkets/services/inbox.py:844-861 | a stored wrap inside the window is handed on exactly when its subscription is registered |
| InboxSessions.EoseExactly | infinitemarkets/services/inbox.py:877-896 | the cursor becomes the start of exactly a registered session whose stored matches were all sent |
| InboxEngine.InboxRuntime.Open | infinitemarkets/services/inbox.py:774-807 | start time first, then the cursor decides the filter, before the subscription is registered |
| InboxEngine.InboxRuntime.Registered | infinitemarkets/services/inbox.py:805-807 | the subscription id is recorded |
| InboxEngine.InboxRuntime.MaybeResubscribe | infinitemarkets/services/inbox.py:946-968 | the same session and filter under a new id |
| InboxEngine.InboxRuntime.OnEvent | infinitemarkets/services/inbox.py:844-861 | hands an event on exactly when its subscription is registered |
| InboxEngine.InboxRuntime.OnEose | infinitemarkets/services/inbox.py:877-896 | the cursor becomes the session start, for a registered subscription only |
| InboxEngine.InboxRuntime.CloseSession | infinitemarkets/services/inbox.py:814-842 | a closed session is forgotten and the cursor stays |
| InboxDedupe.RunKeepsUnique | infinitemarkets/migrations.py:891-899 | every run keeps one row per outer id and one row per rumor |
| InboxDedupe.ValidatedAtMostOnce | infinitemarkets/services/inbox.py:315-340 | in every run, stale passes included, a rumor becomes validated at most once and its row stays, unless a muted-author delete hits a validated row |
| InboxDedupe.LateDeleteAllowsSecondValidation | infinitemarkets/services/inbox.py:283-305 | after such a delete a retry under a fresh outer id is validated again, from every state |
| InboxDedupe.TwoValidationsOccur | infinitemarkets/services/inbox.py:283-305 | the run, for any two outer events that wrap one rumor |
| InboxDedupe.FirstRowWins | infinitemarkets/services/inbox.py:315-340 | a received row is validated exactly when no row has its rumor, and a duplicate exactly when the merchant already has it |
| InboxDedupe.ValidateExactly | infinitemarkets/services/inbox.py:315-340 | of a row in any state: validated, a duplicate or left alone, exactly by which merchants' rows carry its rumor, and what each leaves in the row |
| InboxDedupe.StalePassSelfDuplicates | infinitemarkets/services/inbox.py:315-340 | a second pass over a validated row marks it a duplicate of itself |
| InboxDedupe.RumorOfAnotherMerchantIsStuck | infinitemarkets/migrations.py:704-707 | while one merchant's row carries a rumor, no row of another merchant with it is validated in any continuation |
| InboxDedupe.InboxTable.AdmitEvent | infinitemarkets/services/inbox.py:188-203 | inserts exactly when the outer id is new |
| InboxDedupe.InboxTable.ProcessReceived | infinitemarkets/services/inbox.py:315-340 | validated, duplicate, or an index error that changes nothing, each exactly in its case |
| GammaIntake.OneOrderPerExternalId | infinitemarkets/services/checkout.py:1575-1628 | in every run at most one order per merchant, buyer and external id |
| GammaIntake.LaterIntakes | infinitemarkets/services/checkout.py:1613-1628 | once an order exists, every later intake of its key creates nothing: the same request finds it, a different one is refused, or the cap refuses first |
| GammaIntake.IntakeExactly | infinitemarkets/services/checkout.py:1557-1628 | a new order exactly for a new key and id below ten open orders of this buyer with this merchant; a known key is found when the request agrees |
| GammaIntake.OpenCountIsSize | infinitemarkets/services/checkout.py:1557-1574 | the count against the cap is the number of those open orders |
| GammaIntake.OrderIntake.InsertGammaOrder | infinitemarkets/services/checkout.py:1557-1628 | creates exactly one row for a new key, otherwise leaves the orders alone |
| CatalogTheorems.BulkKeepsLogInStep | infinitemarkets/services/catalog.py:1043-1206 | after any accepted bulk action a live collection that held or holds one of the products has a strictly larger revision and a newest intent matching its membership; all others are as before |
| CatalogTheorems.InStepIsKept | infinitemarkets/services/catalog.py:220-257 | any bulk action, accepted or refused, keeps every collection that was in step in step |
| CatalogTheorems.DeleteAllEffect | infinitemarkets/services/catalog.py:1254-1323 | the same for any sequence of product deletions |
| CatalogTheorems.TombstonesOfBulkDelete | infinitemarkets/services/catalog.py:1254-1323 | the k-th tombstone of a bulk delete waits for exactly the collections of its product that stay live and active without the first k + 1 products, each at its revision of that moment |
| CatalogTheorems.DependencyIsOvertakenExactly | infinitemarkets/services/outbox.py:52-65 | such a republication is superseded in the same transaction exactly when a later product of the list is in the collection |
| CatalogTheorems.TombstoneIsStuckExactly | infinitemarkets/services/outbox.py:209-217 | the k-th tombstone waits for a superseded row exactly when a live collection of its product stays active and holds a later product of the list |
| CatalogTheorems.TwoDeletedTogetherStick | infinitemarkets/services/catalog.py:1101-1106 | any two publishable products of one live collection, deleted together, leave the first tombstone so |
| CatalogTheorems.DraftTombstoneWaits | infinitemarkets/services/catalog.py:1173-1206 | a drafted product that had been published is tombstoned, waiting for exactly the collections republished without it, none of them superseded |
| CatalogTheorems.HalfUpIsNearest | infinitemarkets/services/catalog.py:1134-1138 | the markup rounds to the nearest integer, halves away from zero |
| CatalogEffects.MarkupIsNearest | infinitemarkets/services/catalog.py:1133-1142 | a marked-up price is the integer nearest to amount + amount * percent / 100, ties away from zero, and leaves the int64 range exactly when that sum reaches 2^63 - 1/2 |
| CatalogEffects.BulkEditsExactly | infinitemarkets/services/catalog.py:1130-1206 | after an accepted edit each selected row has its revision plus one and exactly the field the action names changed, to the value it names; it is published if it may be; memberships follow a move or a draft; every other product is as before |
| CatalogEffects.RefusedExactly | infinitemarkets/services/catalog.py:1043-1145 | not found exactly for a product or target that is missing, deleted or another merchant's; invalid exactly for a bad request, a draft to be moved or a price out of range |
| CatalogEffects.PricesOut | infinitemarkets/services/catalog.py:1133-1145 | the edits roll back exactly when some price before rounding reaches 2^63 - 1/2 |
| CatalogEffects.BulkDeletesExactly | infinitemarkets/services/catalog.py:1254-1323 | each deleted row is marked under its next revision and tombstoned at that revision, its memberships end, and nothing of another product changes |
| CatalogEffects.EditTellsCollections | infinitemarkets/services/catalog.py:220-257 | an accepted edit gives each live collection it touches exactly one new revision, announced as 30405 exactly while it has an active member and as a tombstone otherwise; no other collection changes |
| CatalogEffects.DeleteTellsCollections | infinitemarkets/services/catalog.py:1254-1323 | a deletion advances each collection once per membership of the product, announced by what is left in it |
| CatalogEffects.EditAnnouncesProduct | infinitemarkets/services/catalog.py:1173-1206 | a publishable product ends with a 30402 intent at its new revision, waiting for exactly its collections at their current revisions |
| CatalogEngine.CatalogService.RepublishBulkCollections | infinitemarkets/services/catalog.py:220-257 | the loop bumps and announces exactly the live collections of the merchant, and returns those published rather than tombstoned |
| CatalogEngine.CatalogService.DeleteProductLocked | infinitemarkets/services/catalog.py:1254-1323 | the loop takes the delete step |
| CatalogEngine.CatalogService.EditEach | infinitemarkets/services/catalog.py:1130-1171 | the edit loop applies the action to every product, or reports the overflow |
| CatalogEngine.CatalogService.BulkProducts | infinitemarkets/services/catalog.py:1043-1206 | the whole action in one transaction: the error of the checks and unchanged tables, or the bulk step |
| CatalogEngine.Sorted | infinitemarkets/services/catalog.py:228 | the collections once each in ascending order |
| Fx.ConversionCovers | infinitemarkets/services/fx.py:122-172 | a conversion succeeds exactly on a usable quote of its currency with nonnegative arguments, and is the least whole amount covering the exact price |
| Fx.RefusalReasons | infinitemarkets/services/fx.py:122-172 | each refusal has its reason, and the earlier check wins |
| Fx.SatQuoteIsIdentity | infinitemarkets/services/fx.py:108-119 | a SAT quote is one satoshi to the satoshi and 10^8 to the bitcoin, and usable for exactly five minutes |
| Fx.SatsCostThemselves | infinitemarkets/services/checkout.py:542-565 | an integer amount of satoshis converts to exactly that amount, or is refused as negative or stale |
| Fx.ComponentIsCovered | infinitemarkets/services/checkout.py:542-590 | any other component converts exactly under a usable quote of its currency, to the least whole amount covering coefficient * 10^exponent / 10^decimals * rate |
| Fx.SatCartIsPlainSum | infinitemarkets/services/checkout.py:536-602 | a cart priced in whole satoshis costs their plain sum |
| Fx.DownIsQuotient | infinitemarkets/services/fx.py:153 | repeated division by ten is division by the power of ten |
| Fx.ScalingKeepsMajor | infinitemarkets/services/checkout.py:577-584 | moving a fractional amount's exponent into the decimals keeps its value |
| Fx.MoreDecimalsSameResult | infinitemarkets/services/checkout.py:577-584 | scaling by 10^k with k more decimals changes no conversion |
| Fx.CheckedTotalSat | infinitemarkets/services/fx.py:175-188 | returns the sum exactly when all components are nonnegative and the sum is between 1 and 2^63-1, although every prefix is checked |
| Fx.QuoteCurrency | infinitemarkets/services/fx.py:61-105 | a quote exists exactly when the provider answers with a positive rate for a three-letter code; it names the upper-case code, its rate is the mean of the positive rates, and it is usable for five minutes |
| Fx.TotalIsTight | infinitemarkets/services/checkout.py:536-602 | exact price <= total < exact price + number of components |
| Fx.PriceEach | infinitemarkets/services/checkout.py:542-590 | the loop prices every component under one quote per currency, or fails exactly when one cannot be priced |
| Fx.PriceCart | infinitemarkets/services/checkout.py:536-602 | succeeds exactly when all components convert, all quotes are still usable at the end and the total is in range; the total is tight, and the plain sum for a cart in whole satoshis |
| Encoding.FieldsOfPrefixed | infinitemarkets/crypto.py:48-54 | decoding undoes the length-prefixed encoding |
| Encoding.PrefixedOfFields | infinitemarkets/crypto.py:48-54 | and the encoding undoes the decoding |
| Encoding.PrefixedIsInjective | infinitemarkets/crypto.py:48-54 | no two lists of fields shorter than 2^32 share an encoding |
| Encoding.LenPrefixed | infinitemarkets/crypto.py:48-54 | the loop fails exactly on a field that does not fit its prefix, else yields the encoding |
| Encoding.U32IsBigEndian | infinitemarkets/crypto.py:52 | a length is four bytes, most significant first |
| Encoding.AadsNeverCollide | infinitemarkets/crypto.py:57-66 | associated data are equal exactly for the same record, table, column and version |
| Encoding.IndexMessagesNeverCollide | infinitemarkets/crypto.py:121-131 | index messages are equal exactly for the same purpose, merchant and value, and never equal associated data |
| Encoding.MessagesSpellTheirParts | infinitemarkets/crypto.py:57-66 | decoded, the associated data are the program's name and the four parts of the place in order, an index message its three parts |
| Encoding.EnvelopeRoundTrip | infinitemarkets/crypto.py:69-113 | decryption undoes encryption, and a different padded version is refused |
| Encoding.EnvelopeLayout | infinitemarkets/crypto.py:69-87 | an envelope is the version in four bytes filled up with NUL, twelve bytes of nonce and the sealed text; a longer version is refused |
| Encoding.DecryptExactly | infinitemarkets/crypto.py:90-113 | an envelope opens exactly when it has 32 bytes, carries the version and the cipher accepts it at this place; each refusal exactly in its case |
| Encoding.VersionIsRecoveredExactly | infinitemarkets/crypto.py:116-118 | the version is read back exactly when it does not end in NUL |
| PublicToken.DecodeEncode | infinitemarkets/crypto.py:142-144 | decoding undoes base64url encoding for all byte strings |
| PublicToken.EncodeDecode | infinitemarkets/crypto.py:147-157 | re-encoding gives the text back exactly when its spare bits are zero |
| PublicToken.GroupsKeepTheBits | infinitemarkets/crypto.py:142-144 | the bits of three bytes in order, six at a time, a short group filled up with zeros (section 4 of RFC 4648) |
| PublicToken.LetterOfTable | infinitemarkets/crypto.py:142-144 | the alphabet of section 5 of RFC 4648 |
| PublicToken.GeneratedTokensAreAccepted | infinitemarkets/crypto.py:142-157 | the token of any 32 bytes is accepted and stands for them |
| PublicToken.AcceptedExactly | infinitemarkets/crypto.py:147-157 | accepted are exactly 43 alphabet characters whose last carries no spare bits |
| PublicToken.RefusedExactly | infinitemarkets/crypto.py:147-157 | malformed is exactly what the pattern refuses, not canonical exactly what re-encodes differently, and an accepted token's hash is that of its bytes |
| PublicToken.OneTokenPerValue | infinitemarkets/crypto.py:147-157 | an accepted token is the encoding of its bytes, so two tokens for the same bytes are equal |
| RateBuckets.WindowAdmitsExactly | infinitemarkets/services/email.py:122-136 | each window admits exactly the smaller of its requests and the cap |
| RateBuckets.WindowHolds | infinitemarkets/services/email.py:127 | a request counts in the window that starts at the last multiple of the width |
| RateBuckets.AnyIntervalAdmitsAtMostTwiceTheCap | infinitemarkets/services/inbox.py:81-96 | any interval no longer than a window admits at most twice the cap |
| RateBuckets.ZeroCapAdmitsOne | infinitemarkets/services/email.py:122-136 | the first request of a window passes even with cap zero |
| RateBuckets.RateLimiter.Ask | infinitemarkets/services/email.py:122-136 | a request is admitted exactly while fewer than cap requests were made in its window |

## Left out

- SQL dialects, drivers and connection handling: a transaction is an atomic step, a unique index is a check in the step.
- HTTP routes, templates, the Nostr SDK, websockets, DNS checks and wallet plumbing: input and output.
- `services/settlement.py`, `orders.py`, `outbox.py`, `tasks.py`: the harness versions of settlement and outbox are modelled; of production settlement only the retention updates are.
- SagaTheorems.StockConserved: stock edited by the merchant during a run is not a step; the initial stock is a parameter.
- SagaTheorems.ClosedStays: the merchant-side transitions out of confirmed, expired and cancelled (`services/orders.py`) are not steps.
- SagaTheorems.OrderReservationAndAuditAgree: the same merchant-side transitions are not steps.
- SagaEngine.InvoiceSaga.Attach: an invoice that fails the correlation check (`checkout.py:1132-1173`) is the MarkUnknown step instead.
- Locks.SortedClaimsNeverDeadlock: about claims among themselves, as the source promises; the order's row lock and the locks of cancel, expiry and settlement are not part of the model.
- Reconcile.PassAmidRaisesExactly: about the section on pending payments; resuming received orders and recovering projections are the Begin, Attach and MarkRejection steps. Orders for which LNbits holds several invoices do not occur in any run.
- SagaEngine.InvoiceSaga.ReconcilePending: one uninterrupted pass; interruptions are the subject of PassAmidRaisesExactly.
- The cap on held reservations per product, and all timestamps that no guard reads.
- Idempotency.OneOrderPerKey: the SHA-256 scope is a number, so keys whose hashes collide are one key.
- Handover.RequestsAreSound: recovery may enqueue a second request of its own for an order; only the requests of checkout are bounded.
- OutboxEngine.OutboxModel.EnqueueIntent: other payload fields than targets and outer event ids are not part of the row.
- OutboxEngine.OutboxModel.SupersedeObsolete: one uninterrupted pass; interrupted ones are made of ScanRow and SupersedeScanned.
- EmailTheorems.NoOverlap: a call is taken to end when its timeout cuts it off, and the time between reading the clock and starting the call is zero.
- Rendering of mails, suppression reasons and random jitter: parameters of the steps.
- Leases.TaskLeases.RunFenced: the check and the commit are one step, since the check holds the lease row's lock until the commit.
- InboxIntake.IntakeIsGapFree: that a relay sends all stored matches before EOSE is assumed, as NIP-01 requires; whether `admit_event` then stores or rejects a wrap is not part of the statement.
- InboxDedupe.ValidatedAtMostOnce: the blocklist is not modelled, so muting and unmuting are free choices; one outer event always unwraps to the same rumor.
- Unwrapping, signature checks and dispatch by kind: each is a free choice of the step that uses its result.
- Catalog.Overtaken: says that a later intent of the collection exists; that the earlier one was still pending follows from both being enqueued in one transaction.
- Catalog.Bulk: shipping dependencies and titles are not modelled; an intent is one entry of a log. The types of the request's values and the list of visibilities are not checked, and the ids are distinct, as the source's deduplication leaves them.
- Fx.QuoteCurrency: upper-casing is that of ASCII letters; whether a code is alphabetic is a parameter.
- Fx: decimals are exact rationals, so the 28-digit context, NaN and infinities are not modelled beyond the provider filter.
- Encoding: HMAC, SHA-256 and AES-GCM are functions; Unicode normalisation is left out, text is its UTF-8 bytes.
- `keystore.py`, `nostr_auth.py`, field validators, metrics and themes: straight-line checks and output, with no state that a run could break.
