# Verified model of the commerce backend

This Dafny project models the stateful core of the backend and proves what that core keeps.
`dafny verify dfyconfig.toml` checks all of it.

## What is modelled

**Ticket sale** (`Ledger`, `RowByRow`, `Conservation`, `TicketCounts`, `Overselling`,
`Admission`, `TicketService`). Ticket types, purchases and tickets are three tables; reservation, completion,
refund, failure, expiry, scanning at the door, regeneration of a code, activation by hand and
edits of a capacity are transactions over them, with the check the table of types carries, and
a run is any list of transactions in commit order. The code does not test the status of a
purchase before releasing it, nor the quantity it reserves, so exact conservation of stock is
proved to hold precisely on the runs whose steps meet a stated guard; a weaker inequality holds
on all runs. The guard alone does not bound the admissible tickets. A step is called careful
when it meets its guard, does not expire what was paid or activate what has fallen, and
reserves no negative quantity; `SafeIffCareful` proves that these are exactly the steps after
which no careful continuation oversells. `RowByRow` states what each transaction and each kind of
notification does to every row. `TicketsDatabase` changes the tables in place, and each method is
proved equal to its transaction.

**Idempotency** (`Idempotency`, `Interleaving`, `SerialOrder`, `MixedRuns`, `Webhook`).
`tryProcess` for an arbitrary processor: first as calls one after the other, then as interleaved
insert, work, update and delete steps of any number of callers, each of which may fail. The
committed work always takes effect in commit order, and once per key when every response could
be stored. A call can be told "already processed" on account of one that is still under way and
then fails: such a refusal is right, whatever follows, exactly when a call on the key has
answered "processed" by then (`RefusedRightlyIff`), and the answers of a run whose handlers may
fail are those of calls made one after the other exactly when every key with a refused call has
a processed one (`SerialIffBacked`). `Webhook` makes the ticket notifications a processor, with
the moment a handler reads its purchase apart from the moment it commits, and combines all this
with the invariants of the sale, also among steps of others.

**Ticket codes and OAuth state** (`SecureQr`, `Base64Url`, `Utf8`, `OAuthState`). Base64url
(section 5 of RFC 4648) and UTF-8 are modelled in full, because the OAuth state is only
unambiguous thanks to both: the redirect is joined with `___` although `_` is a base64url
digit, and three of them in a row need an octet UTF-8 never uses.

**Image cache** (`ImageCache`, `ImageCacheService`, `ImageProxy`). A map in insertion order
with a running byte counter, expiry and eviction by sorting. It is proved to refine an
unbounded write history, also under interleaved calls of the proxy.

**Notifications** (`Templates`, `Multicast`). The placeholder regex as a scanner, one-pass
substitution with truncation and escaping, and sending in batches of 500 with index-aligned
failures.

**Fees** (`Fees`). Exact integer cents and hundredths of a percent: the two rounding
expressions of tickets and orders, compared on all inputs.

**Billing** (`MonthGrid`, `Calendar`, `Billing`, `BillingRowByRow`, `SubscriptionCalls`). Month arithmetic as
`setMonth` does it in UTC (section 21.4.1 of ECMA-262), and membership records against an
external subscription service whose preapprovals also change on their own; first with each
operation as one step, then with the reading of a row, the external calls and the saving of the
whole row apart.

Rows of a table are named by their position, which stands for the generated key. Clocks,
answers of external services and failures of calls are parameters of the operations.

## Where the code differs from its description

- `cleanupExpired` of the idempotency service deletes records that have not expired
  (`src/core/idempotency/idempotency.service.ts:56-61`), and `tryProcess` never reads the
  expiry. The exactly-once results are over runs without that clean-up.
- The eviction is called least recently used but orders entries by the time of writing; a read
  does not renew an entry (`src/image-proxy/cache/image-cache.service.ts:97-118`).
- A callback state without redirect part, or with an empty one, falls back to the configured
  redirect, so an empty redirect is the one that does not survive the round trip
  (`src/payments/controller/mercado-pago-oauth.controller.ts:369-378`).
- The two fee roundings differ on negative half cents: one rounds them up, the other away from
  zero (`HalfCentRefund`; `src/orders/services/orders.service.ts:168-169`). Only the ticket path
  can receive such a total, since the quantity of a purchase is not validated
  (`src/events/controllers/tickets.controller.ts:67-85`); prices and quantities of orders are
  (`src/orders/dtos/create.order.item.dto.ts:15-18`, `src/catalog/dto/catalog-item.dto.ts:63-82`).

## Model

| member | source | states |
|---|---|---|
| `Conservation.ConservedIffGuarded` | src/events/controllers/tickets-webhook.controller.ts:301-426 | From exact counters, a transaction of any kind and any quantity leaves every sold counter equal to the quantity of its PENDING and COMPLETED purchases if and only if it meets its guard: completions hit a live purchase, releases hit a live one of which enough is counted, or nothing is moved |
| `Conservation.RunConservesIffGuarded` | src/events/services/tickets.service.ts:39-150 | Over any run, the counters are exact before and after every step if and only if every step meets that guard in the state it finds |
| `Conservation.ClampNeverBites` | src/events/controllers/tickets-webhook.controller.ts:413-420 | Releasing a live purchase of an exact ledger subtracts its whole quantity: the clamp at zero has no effect and the check of the table does not refuse |
| `Conservation.BoundedStep` | src/events/controllers/tickets-webhook.controller.ts:398-426 | Any transaction, guarded or not, keeps 0 <= sold <= capacity and sold <= quantity held, unless it is an accepted reservation of a negative quantity |
| `Conservation.RunBounded` | src/events/services/ticket-cleanup.service.ts:27-46 | The same on every run without such reservations, with expiries taken from lists of any age |
| `Conservation.RunWithinCapacities` | src/events/entities/ticket-type.entity.ts:13 | On every run whatever, of any quantities, no counter exceeds its capacity |
| `Conservation.ReservationKeepsBoundsIff` | src/events/services/tickets.service.ts:49-80 | A reservation of any quantity keeps the bounds if and only if it is refused or leaves the counter at zero or above |
| `Conservation.StaysBoundedIffSane` | src/events/controllers/tickets.controller.ts:50-65 | From an exact ledger, the bounds hold after a step and all further runs without negative reservations if and only if the step is not an accepted negative reservation |
| `Ledger.WellFormedStep` | src/events/services/tickets.service.ts:39-150 | Every transaction keeps purchases pointing at ticket types, and tickets at purchases of their own type |
| `RowByRow.ReservationRows` | src/events/services/tickets.service.ts:39-84 | Accepted exactly when the type exists and has the seats left; then they are counted and one PENDING purchase dated now is appended, and nothing else changes |
| `RowByRow.CompletionRows` | src/events/services/tickets.service.ts:86-150 | A purchase that is not COMPLETED becomes so and gets one ACTIVE ticket per seat, each with the code generated for its own key; otherwise nothing changes |
| `RowByRow.RefundRows` | src/events/controllers/tickets-webhook.controller.ts:301-338 | The purchase and every one of its tickets become REFUNDED, its stock returns down to zero, no other row changes; refused exactly without the purchase or by the check of the table |
| `RowByRow.FailureRows` | src/events/controllers/tickets-webhook.controller.ts:343-382 | The same with FAILED and CANCELLED |
| `RowByRow.ExpiryRows` | src/events/services/ticket-cleanup.service.ts:32-46 | The purchase becomes FAILED and its stock returns; no ticket and no other row changes |
| `RowByRow.RegenerationRows` | src/events/services/tickets.service.ts:356-377 | The ticket gets the code generated now for its own key and keeps its status; nothing else changes |
| `RowByRow.ActivationRows` | src/events/services/tickets.service.ts:270-278 | The ticket becomes ACTIVE and nothing else changes |
| `RowByRow.CapacityRows` | src/events/services/ticket-types.service.ts:59-77 | Only that capacity changes, and is refused exactly when it is below what is sold |
| `TicketCounts.TicketsExactIffFresh` | src/events/services/tickets.service.ts:86-150 | After a transaction a COMPLETED purchase has exactly its quantity of tickets neither cancelled nor refunded and any other purchase none, if and only if the transaction neither expires a purchase with tickets nor activates a fallen ticket by hand |
| `TicketCounts.RunExactIffFresh` | src/events/controllers/tickets-webhook.controller.ts:310-363 | The same over runs, throughout; refunds, failures and repeated completion of a failed purchase included |
| `TicketCounts.AdmissibleByPurchase` | src/events/services/tickets.service.ts:108-139 | ACTIVE and USED tickets of a type, counted one by one, are at most the standing tickets counted purchase by purchase, and exactly those when no other status stands |
| `TicketCounts.ClaimsAreLive` | src/events/services/tickets.service.ts:100-139 | With exact tickets, the tickets of a type and those its PENDING purchases will get are together what its live purchases hold |
| `TicketCounts.NoOverselling` | src/events/services/tickets.service.ts:49-54 | With exact counters and exact tickets, ACTIVE plus USED tickets of a type are at most its sold counter and its capacity |
| `TicketCounts.SaleIsSafe` | src/events/services/tickets.service.ts:39-150 | On every run of careful steps (guarded, fresh, no negative reservation) from an opened sale: counters exact, tickets exact, and no type has more admissible tickets than capacity |
| `Overselling.FillUp` | src/events/services/tickets.service.ts:39-150 | From any well-formed ledger a careful continuation ends with every claim on a type turned into tickets and the rest of its capacity sold on top |
| `Overselling.SafeIffCareful` | src/events/controllers/tickets-webhook.controller.ts:301-426 | From any state a careful sale reaches, a step leaves the capacities safe for all careful continuations if and only if the step is careful itself |
| `Overselling.RunSafeIffCareful` | src/events/services/tickets.service.ts:39-150 | The same over runs: safe before and after every step if and only if every step is careful |
| `Overselling.StaleExpiryOversells` | src/events/services/ticket-cleanup.service.ts:27-46 | A concrete run whose steps all hit live purchases, one of them a stale expiry, admits two tickets for one seat |
| `Overselling.DeadCompletionOversells` | src/events/services/tickets.service.ts:100-106 | Completing a failed purchase again, in a run without stale expiry, admits two tickets for one seat |
| `Overselling.DoubleReleaseOversells` | src/events/controllers/tickets-webhook.controller.ts:343-366 | Failing one purchase twice lets two others be paid and admitted on one seat |
| `Admission.RunCodesIssued` | src/events/services/tickets.service.ts:126-136 | On every run the stored code of a ticket is one issued for that very ticket |
| `Admission.CodesDistinct` | src/events/services/tickets.service.ts:184-200 | Two tickets never carry the same code |
| `Admission.ScanExactly` | src/events/services/tickets.service.ts:284-304 | A stored code admits exactly when its ticket is ACTIVE and, if it is longer than 50 characters with a hyphen or an underscore, at most seven days old; it then consumes that ticket and changes nothing else; otherwise it is refused |
| `RowByRow.ScanRows` | src/events/services/tickets.service.ts:223-253 | An admission turns exactly its own ticket, which carries the code, from ACTIVE to USED; a refusal of a found ticket says whether it was used or not active |
| `RowByRow.UnstoredCodeRefused` | src/events/services/tickets.service.ts:177-304 | Why a code that no ticket stores is refused, reason by reason |
| `Admission.UnknownCodeRejected` | src/events/services/tickets.service.ts:177-203 | A code no ticket stores is refused on both branches |
| `Admission.SpentAdmittedPerActivation` | src/events/services/tickets.service.ts:227-278 | A ticket that is not ACTIVE is admitted at most once for each time it is activated by hand later |
| `Admission.AdmittedAtMostOnce` | src/events/services/tickets.service.ts:223-278 | Over any run, from any tables, a ticket is admitted at most once, and once more for each activation by hand |
| `Admission.RegenerateRetires` | src/events/services/tickets.service.ts:356-377 | Regenerating at a later timestamp removes the old code from the tables |
| `Admission.RegeneratedAdmits` | src/events/services/tickets.service.ts:356-377 | The new code of an ACTIVE ticket admits it, for seven days at least |
| `Admission.RetiredForEver` | src/events/services/tickets.service.ts:356-377 | A code no ticket stores stays refused on both branches after any further run whose issues are later than its own timestamp |
| `SecureQr.ReadGenerated` | src/events/services/qrcode-secure.service.ts:64-90 | Decoding an issued code gives back its payload and signature |
| `SecureQr.ValidateGenerated` | src/events/services/qrcode-secure.service.ts:98-150 | An issued code validates to its own data exactly while it is at most seven days old |
| `SecureQr.ValidatesExactly` | src/events/services/qrcode-secure.service.ts:98-150 | What validates is data with a signature, at most seven days old, whose signature is the one of its own payload |
| `SecureQr.TamperedIsRefused` | src/events/services/qrcode-secure.service.ts:119-139 | A payload shown under the signature of another one is refused |
| `SecureQr.GenerateInjective` | src/events/services/qrcode-secure.service.ts:192-211 | Codes of different payloads never coincide |
| `Idempotency.RepeatsDoNotMatter` | src/core/idempotency/idempotency.service.ts:26-54 | Any list of calls leaves the state of the list without every call after the first successful one of its key, run with no idempotency at all |
| `Idempotency.KeysAreSuccesses` | src/core/idempotency/idempotency.service.ts:46-53 | A key is recorded exactly when some call on it succeeded |
| `Idempotency.LastAnswer` | src/core/idempotency/idempotency.service.ts:33-53 | A recorded key is refused and changes nothing; any other call gets the result or the error of its own work, and its key stays exactly if that succeeded |
| `Idempotency.OneSuccessPerKey` | src/core/idempotency/idempotency.service.ts:38-42 | After a success every later call on the key answers already processed |
| `Idempotency.RedeliveryIsNoOp` | src/core/idempotency/idempotency.service.ts:33-44 | A call on a recorded key slipped in anywhere changes neither the state nor the keys at the end |
| `Webhook.RepeatedDeliveriesDoNotMatter` | src/events/controllers/tickets-webhook.controller.ts:119-127 | The ledger after any list of ticket notifications with repeats is that of the list without them |
| `Webhook.DifferentRequestsAreHandled` | src/events/controllers/tickets-webhook.controller.ts:119-127 | Deliveries that differ in their request ids, or in their data ids where they have none, are all handled: none is taken for a repeat |
| `Webhook.DifferentRequestIdsAreHandled` | src/events/controllers/tickets-webhook.controller.ts:119-127 | In particular whenever all request ids are given and different |
| `Webhook.SameRequestIsRefused` | src/events/controllers/tickets-webhook.controller.ts:119-132 | After a processed delivery one with the same request id, or with the same data id when neither has a request id, is answered already processed |
| `RowByRow.ProcessedDelivery` | src/events/controllers/tickets-webhook.controller.ts:124-126 | A processed order, or one without action, completes a PENDING purchase and leaves any other alone |
| `RowByRow.RefundedDelivery` | src/events/controllers/tickets-webhook.controller.ts:227-229 | A refund ends its purchase and all its tickets as REFUNDED and touches no other row but the stock |
| `RowByRow.FailedDelivery` | src/events/controllers/tickets-webhook.controller.ts:231-238 | An expired, failed or cancelled order ends its purchase as FAILED with all its tickets CANCELLED |
| `RowByRow.UnknownDelivery` | src/events/controllers/tickets-webhook.controller.ts:240-241 | Any other action is accepted and changes nothing |
| `Webhook.DeliveryConservesIff` | src/events/controllers/tickets-webhook.controller.ts:203-382 | A notification keeps the stock exact if and only if, being a release, it meets the guard when it commits, and, being a processed order, the status read was not PENDING or the purchase is live when it commits |
| `Webhook.UninterruptedProcessedConserves` | src/events/controllers/tickets-webhook.controller.ts:211-259 | With nothing committed between its read and its transaction, a processed order keeps the stock exact |
| `Webhook.ExpiryBetweenReadAndCommit` | src/events/controllers/tickets-webhook.controller.ts:211-274 | From every exact ledger, the expiry of a PENDING purchase between the read and the transaction of its payment keeps everything, and the completion then breaks the stock |
| `Webhook.DeliveriesKeep` | src/events/controllers/tickets-webhook.controller.ts:203-243 | Any list of notifications, repeated or contradictory, keeps counters within capacity and below what is held, and purchases and tickets in agreement |
| `Webhook.InterleavedDeliveriesKeep` | src/events/controllers/tickets-webhook.controller.ts:119-136 | The same under any interleaving of deliveries, each handler having read its purchase at whatever moment |
| `MixedRuns.RepeatsDoNotMatterMixed` | src/core/idempotency/idempotency.service.ts:26-54 | Repeated calls have no effect on the final state among any steps of others |
| `MixedRuns.OneHolderAmongOthers` | src/core/idempotency/idempotency.service.ts:26-54 | Among any steps of others at most one call on a key is inside or was processed |
| `Webhook.RepeatedDeliveriesAmongSteps` | src/events/controllers/tickets-webhook.controller.ts:119-127 | Repeated notifications have no effect on the ledger among reservations, expiries, scans and all other transactions |
| `Webhook.InterleavedDeliveriesAmongSteps` | src/events/controllers/tickets-webhook.controller.ts:119-136 | Interleaved deliveries among such transactions, as long as these are fresh and reserve nothing negative, keep counters within their bounds and purchases and tickets in agreement |
| `Interleaving.AtMostOneHolder` | src/core/idempotency/idempotency.service.ts:26-54 | Under any interleaving of calls at most one call on a key is between insert and exit or has returned processed: true |
| `Interleaving.KeyPresentExactly` | src/core/idempotency/idempotency.service.ts:33-53 | The key is in the table exactly while a call is inside, after a success, or after a delete that failed |
| `Interleaving.CompletionsCounted` | src/core/idempotency/idempotency.service.ts:46-53 | The processor of a key commits at most once more than its response updates failed |
| `Interleaving.SuccessIsFinal` | src/core/idempotency/idempotency.service.ts:46-49 | After a success the processor of that key never commits again and the key never leaves |
| `Interleaving.CommitsAreSerial` | src/core/idempotency/idempotency.service.ts:26-54 | If every response was stored, the state is that of delivering the committed calls one after the other in commit order, one per key |
| `Interleaving.LogIsFinished` | src/core/idempotency/idempotency.service.ts:46-49 | The committed deliveries are, as a multiset, those of the calls that finished and of those whose response could not be stored |
| `Interleaving.RefusedMeansHeldOrThrown` | src/core/idempotency/idempotency.service.ts:38-53 | Already processed is answered only while the key is in the table or when a call on it has thrown |
| `Interleaving.RefusedMeansProcessedOnce` | src/core/idempotency/idempotency.service.ts:38-53 | Once nobody on a key is inside, and if no call on it threw, each already processed is matched by exactly one call that returned processed: true |
| `Interleaving.RefusedThoughNothingProcessed` | src/core/idempotency/idempotency.service.ts:38-53 | With a handler that fails, a second delivery can be answered already processed although nothing ever was |
| `Interleaving.RefusalRightIff` | src/core/idempotency/idempotency.service.ts:38-53 | While its key is present, a refusal is right, in the sense that whenever nobody on the key is inside a call on it has answered processed, whatever follows, if and only if one has answered so already |
| `Interleaving.RefusedRightlyIff` | src/core/idempotency/idempotency.service.ts:33-53 | The same for the insert that finds its key, in every reachable state |
| `Interleaving.SettledIsSerial` | src/core/idempotency/idempotency.service.ts:26-54 | When no call threw and none is inside, tables, keys and answers are those of the deliveries one after the other: the processed ones in commit order, then the refused ones |
| `SerialOrder.SerialIffBacked` | src/core/idempotency/idempotency.service.ts:26-54 | Once nobody is inside, with handlers that may fail: some order of the calls makes the sequential service give each of them its answer if and only if every key with a refused call has a processed one |
| `SerialOrder.BackedIsSerial` | src/core/idempotency/idempotency.service.ts:26-54 | Such an order is that in which the handlers ran, then the refusals; tables and keys are the same too |
| `Interleaving.UninterruptedCall` | src/core/idempotency/idempotency.service.ts:26-54 | A call whose steps are not interrupted is a call of the sequential service, whichever of its own steps fail |
| `TicketService.TicketsDatabase.CompletePurchase` | src/events/services/tickets.service.ts:86-150 | The ticket loop appends exactly the tickets of the purchase, each with the code of its own id |
| `TicketService.TicketsDatabase.GenerateTickets` | src/events/services/tickets.service.ts:155-171 | A reservation followed by its completion, as two transactions; it fails exactly as the reservation does |
| `TicketService.TicketsDatabase.ProcessOrderAction` | src/events/controllers/tickets-webhook.controller.ts:203-243 | Each action, decided on the status read first, changes the tables as its handler says; unknown actions change nothing |
| `TicketService.TicketsDatabase.Withdraw` | src/events/controllers/tickets-webhook.controller.ts:301-382 | Status, tickets and stock of a refunded or failed purchase change together, whatever the status was, or are rolled back together |
| `TicketService.TicketsDatabase.CleanupExpiredPendingPurchases` | src/events/services/ticket-cleanup.service.ts:13-61 | The loop applies one expiry per selected row whose own transaction does not fail |
| `TicketService.CleanupExactly` | src/events/services/ticket-cleanup.service.ts:14-56 | On any tables, run without interruption, the clean-up changes a purchase, to FAILED, only if it was PENDING, older than the cutoff, its own transaction does not fail, and its stock may be given back in its turn, which always holds with no negative purchase |
| `TicketService.ReservationsLastHalfAnHour` | src/events/services/ticket-cleanup.service.ts:13-46 | A reservation is left PENDING for thirty minutes, and made FAILED by a clean-up after that whose transaction does not fail |
| `TicketService.CleanupKeepsExactness` | src/events/services/ticket-cleanup.service.ts:27-46 | An uninterrupted clean-up keeps everything a sale keeps |
| `TicketService.HandleTicketWebhook` | src/events/controllers/tickets-webhook.controller.ts:119-136 | One delivery through the table of keys changes tables and keys as tryProcess says, whether the response can be stored and the key deleted or not |
| `TicketService.HandleAll` | src/events/controllers/tickets-webhook.controller.ts:119-136 | A list of deliveries does what DeliverAll says, which is what the theorems on repeats are about |
| `Base64Url.RoundTrip` | src/payments/controller/mercado-pago-oauth.controller.ts:84 | Decoding the base64url of any bytes gives the bytes back |
| `Base64Url.AlphabetExactly` | src/payments/controller/mercado-pago-oauth.controller.ts:84 | The digits are those of the URL-safe alphabet |
| `Base64Url.ReadExactly` | src/payments/controller/mercado-pago-oauth.controller.ts:370 | Read are the digits of that alphabet, and the two of the ordinary one that differ |
| `Base64Url.GroupsExactly` | src/payments/controller/mercado-pago-oauth.controller.ts:84 | Three bytes are written as four digits of six bits, highest first; shorter rests are filled with zero bits and not padded |
| `Base64Url.TripleNeedsFF` | src/payments/controller/mercado-pago-oauth.controller.ts:84-85 | Three underscores in a row occur in base64url only where a byte is 0xFF |
| `Utf8.RoundTrip` | src/payments/controller/mercado-pago-oauth.controller.ts:84 | Decoding the UTF-8 of any text gives the text back |
| `Utf8.ForbiddenOctets` | src/payments/controller/mercado-pago-oauth.controller.ts:84 | UTF-8 never contains the octet 0xFF |
| `OAuthState.RedirectHasNoSeparator` | src/payments/controller/mercado-pago-oauth.controller.ts:83-85 | The encoded redirect never contains the separator |
| `OAuthState.SplitPrinted` | src/payments/controller/mercado-pago-oauth.controller.ts:365-367 | Splitting a printed state at the separator gives exactly the core and the encoded redirect |
| `OAuthState.ParsePrinted` | src/payments/controller/mercado-pago-oauth.controller.ts:365-399 | For ids without underscore and any redirect, the callback reads the user, the commerce or none, and the redirect (or the configured one for an empty redirect) |
| `OAuthState.LegacyState` | src/payments/controller/mercado-pago-oauth.controller.ts:389-393 | A state of the older format gives the user and the configured redirect |
| `OAuthState.ConfiguredExactly` | src/payments/controller/mercado-pago-oauth.controller.ts:373-376 | The first setting that is not empty, else the built-in address |
| `OAuthState.PrintedInstant` | src/payments/controller/mercado-pago-oauth.controller.ts:79-81 | The core of a state ends, behind an underscore, with the decimal number of its instant |
| `OAuthState.ParsedIdsArePlain` | src/payments/controller/mercado-pago-oauth.controller.ts:381-392 | Whatever the state, the ids read from it are non-empty and have no underscore |
| `OAuthState.RoundTripExactly` | src/payments/controller/mercado-pago-oauth.controller.ts:79-85 | Parsing inverts printing if and only if the user id is non-empty, no id has an underscore and the redirect is non-empty |
| `ImageCache.SortFacts` | src/image-proxy/cache/image-cache.service.ts:98-101 | The eviction order is a rearrangement of the entries in ascending timestamps |
| `ImageCache.SortStable` | src/image-proxy/cache/image-cache.service.ts:98-101 | Entries of one timestamp keep their insertion order |
| `ImageCache.EvictedExactly` | src/image-proxy/cache/image-cache.service.ts:103-117 | Evicted is the shortest prefix of that order that frees the required space plus a tenth of the capacity, or everything when none does |
| `ImageCache.SurvivorsExactly` | src/image-proxy/cache/image-cache.service.ts:103-117 | An entry survives, unchanged, if and only if it is not in that prefix |
| `ImageCache.SurvivorsAreNewer` | src/image-proxy/cache/image-cache.service.ts:98-117 | No survivor is older than an evicted entry |
| `ImageCacheService.RoomyFits` | src/image-proxy/cache/image-cache.service.ts:46-49 | After the eviction for a write, the write fits or nothing is left |
| `ImageCacheService.RunConsistent` | src/image-proxy/cache/image-cache.service.ts:43-86 | After any run the counter is the sum of the stored sizes and within the capacity, unless one single larger entry is all there is |
| `ImageCacheService.StoredIsLatest` | src/image-proxy/cache/image-cache.service.ts:57-64 | Every stored entry is the latest write of its key |
| `ImageCacheService.HitIsLatest` | src/image-proxy/cache/image-cache.service.ts:21-41 | A hit is the latest value written to the key, written within the time to live |
| `ImageCacheService.ReadExactly` | src/image-proxy/cache/image-cache.service.ts:21-41 | Reading a live entry answers it and leaves the whole cache unchanged; any other read answers nothing and at most drops what is stored under its key |
| `ImageCacheService.DeleteExactly` | src/image-proxy/cache/image-cache.service.ts:71-80 | Deleting a key drops what is stored under it and no other entry |
| `ImageCacheService.ClearExactly` | src/image-proxy/cache/image-cache.service.ts:82-86 | Clearing leaves nothing stored and nothing counted |
| `ImageCacheService.WriteIsHit` | src/image-proxy/cache/image-cache.service.ts:43-69 | What was just written is found until its time to live passes, whatever was evicted |
| `ImageCacheService.WriteStaysHit` | src/image-proxy/cache/image-cache.service.ts:21-86 | It stays found, however often, over any reads of live entries, deletes of other keys and writes of other keys that fit |
| `ImageCacheService.FittingWriteKeepsAll` | src/image-proxy/cache/image-cache.service.ts:46-64 | A write that fits evicts nothing |
| `ImageCacheService.Cache.GetEntry` | src/image-proxy/cache/image-cache.service.ts:21-41 | The value found and the removal of an expired entry |
| `ImageCacheService.Cache.SetEntry` | src/image-proxy/cache/image-cache.service.ts:43-69 | The new contents, with the counter consistent |
| `ImageCacheService.Cache.EvictLeastRecentlyUsed` | src/image-proxy/cache/image-cache.service.ts:97-118 | The deleting loop leaves exactly what the eviction theorems speak of |
| `ImageProxy.CachedAnswerIsRecent` | src/image-proxy/services/image-proxy.service.ts:24-31 | With interleaved calls and removals, a cached answer is one a provider gave for that very url at most an hour before |
| `ImageProxy.FetchedIsCached` | src/image-proxy/services/image-proxy.service.ts:33-39 | What a provider answered is found from then on for an hour |
| `ImageProxy.AskingKeepsAnswers` | src/image-proxy/services/image-proxy.service.ts:24-31 | Asking for a url, for the same one not later than a lookup, takes no answer away |
| `ImageProxy.RemovalsExactly` | src/image-proxy/cache/image-cache.service.ts:71-86 | Removing one url leaves the answers for all others; clearing leaves none |
| `ImageProxy.GetImage` | src/image-proxy/services/image-proxy.service.ts:16-49 | Invalid urls are refused untouched; a hit asks no provider; a miss returns and stores the answer; a failed fetch stores nothing |
| `Templates.MatchAtExactly` | src/notifications/notifications.service.ts:268 | The match at a position is the one name whose token starts there |
| `Templates.WordsExactly` | src/notifications/notifications.service.ts:268 | What a name may consist of, by the codes of the characters |
| `Templates.ScanIsTheReading` | src/notifications/notifications.service.ts:293-294 | A text has exactly one reading as literals and tokens, the scanned one |
| `Templates.ScanConcatenates` | src/notifications/notifications.service.ts:293-294 | The scanned pieces concatenate back to the text |
| `Templates.EscapeIsOnePass` | src/notifications/notifications.service.ts:284-286 | The two replacement passes are one per-character map |
| `Templates.EscapeFacts` | src/notifications/notifications.service.ts:284-286 | Escaping has a left inverse on all strings, leaves no bare quote and at most doubles the length |
| `Templates.EscapeExactly` | src/notifications/notifications.service.ts:284-286 | A backslash and a quote get a backslash before them, character by character, and nothing else is touched |
| `Templates.ResolvedLength` | src/notifications/notifications.service.ts:301-307 | A resolved text outgrows its template by at most 2000 characters per placeholder |
| `Templates.NothingGivenNothingChanges` | src/notifications/notifications.service.ts:294-298 | A text none of whose names is given resolves to itself |
| `Templates.LiteralVerbatim` | src/notifications/notifications.service.ts:294 | A literal appears as its own character between what comes before and after it |
| `Templates.UnknownVerbatim` | src/notifications/notifications.service.ts:296-298 | A placeholder without a parameter stays as it was written |
| `Templates.InsertedVerbatim` | src/notifications/notifications.service.ts:294-308 | A known parameter appears as its own value, truncated and escaped, between what comes before and after, whatever the value looks like |
| `Templates.OnlyOwnNamesMatter` | src/notifications/notifications.service.ts:294-308 | Names that occur only inside inserted values have no effect on the message |
| `Templates.InsertedTextIsNotRescanned` | src/notifications/notifications.service.ts:294-308 | In particular a value that is itself a token is inserted as it is |
| `Templates.ResolvePlaceholders` | src/notifications/notifications.service.ts:288-310 | One pass renders every piece; the unresolved names are those without a parameter, each once, in the order they first occur |
| `Templates.UnknownInOrder` | src/notifications/notifications.service.ts:292-309 | What is reported for the beginning of a text is the beginning of what is reported for it |
| `Templates.UnknownAreExtractedMinusGiven` | src/notifications/notifications.service.ts:446-450 | The reported names of a template are exactly those extracted from its fields minus the given parameters |
| `Templates.TitleIsReportedFirst` | src/notifications/notifications.service.ts:446-450 | The title's unknown names are reported first, and each field counts its own |
| `Templates.NamesExactly` | src/notifications/notifications.service.ts:273-278 | The extracted names are those of the placeholders of the text |
| `Templates.ExtractPlaceholders` | src/notifications/notifications.service.ts:263-282 | The names of the three fields in ascending order without repeats |
| `Templates.BeforeExactly` | src/notifications/notifications.service.ts:281 | The order is that of the first character that differs, a beginning before the whole |
| `Templates.SendFromTemplate` | src/notifications/notifications.service.ts:417-496 | The exact errors in their order, limits included; on success the resolved texts and data, the reported names in order and how many were counted |
| `Templates.RefusedExactly` | src/notifications/notifications.service.ts:418-474 | Which of the seven errors a message gets, with the limits of 200 and 4000 characters and 4096 bytes |
| `Templates.DataExactly` | src/notifications/notifications.service.ts:463-469 | Key by key: the click action and a non-empty link win over the template's own data |
| `Templates.LinkExactly` | src/notifications/notifications.service.ts:442-444 | The link of a message is that of its template, resolved; an empty one counts as none |
| `Multicast.BatchesCover` | src/notifications/notifications.service.ts:164-166 | The batches are ceil(n / 500) pieces, all of 500 but the last, none empty, that concatenate to the list in order |
| `Multicast.ClearedTwice` | src/notifications/notifications.service.ts:186-189 | Clearing batch by batch, with indices local to the batch, is clearing by the responses as a whole |
| `Multicast.ClearedExactly` | src/notifications/notifications.service.ts:212-226 | A token is cleared exactly when a response to one of the user carries one of the two codes of an invalid token |
| `Multicast.RecipientsExactly` | src/notifications/notifications.service.ts:148-150 | Sent to are, in order, the users found that have a token which is not empty |
| `Multicast.Notifications.HandleBatchFailures` | src/notifications/notifications.service.ts:206-228 | Exactly the users whose own response carried an invalid-token code lose their token |
| `Multicast.Notifications.SendToMultipleUsers` | src/notifications/notifications.service.ts:128-204 | Nothing without the service; otherwise the batches sent, the counts (summing to n when no batch throws, zero otherwise) and the tokens cleared by the answered batches |
| `Fees.FeesAgreeExactly` | src/orders/services/orders.service.ts:168-169 | The rounding of orders and the rounding of tickets agree if and only if the fee is not a negative half cent, where tickets are one cent further from zero |
| `Fees.HalfCentRefund` | src/orders/services/orders.service.ts:168-169 | Minus one cent at 50 percent: a fee of minus one cent for tickets, of none for orders |
| `Fees.FeeFacts` | src/payments/services/marketplace-fee-resolver.service.ts:124-127 | For totals from zero and 0 to 100 percent both agree, the fee lies between zero and the total and is within half a cent of exact |
| `Fees.FeeMonotone` | src/payments/services/marketplace-fee-resolver.service.ts:124-126 | The fee grows with total and percentage |
| `Fees.SeparateFeesDrift` | src/payments/services/marketplace-fee-resolver.service.ts:124-126 | n separate fees differ from the exact fee of their sum by at most n/2 cents |
| `Fees.SetThenResolve` | src/payments/services/marketplace-fee-resolver.service.ts:247-300 | A custom fee once set is the one resolved for that tenant and commerce, taking the first matching row |
| `Fees.SetKeepsDistinct` | src/payments/services/marketplace-fee-resolver.service.ts:271-299 | Setting a custom fee keeps at most one row per tenant and per commerce |
| `Fees.SetThenAnyRow` | src/payments/services/marketplace-fee-resolver.service.ts:142-180 | With such rows every row a lookup could return, in whatever order they are stored, carries the fee that was set |
| `Fees.SettingExactly` | src/payments/services/marketplace-fee-resolver.service.ts:247-300 | Refused without tenant or outside 0 to 100 percent; otherwise exactly the row of the commerce, else that of the tenant, is edited, or one is appended |
| `Fees.CommerceRowDecides` | src/payments/services/marketplace-fee-resolver.service.ts:148-158 | The active row of the commerce, when it sets a fee, decides |
| `Fees.TenantRowDecides` | src/payments/services/marketplace-fee-resolver.service.ts:161-171 | Otherwise the active row of the tenant, when it sets a fee |
| `Fees.LowerLevelsDecide` | src/payments/services/marketplace-fee-resolver.service.ts:74-107 | Without a custom fee the plan of the commerce's owner decides, of the tenant when the commerce is unknown; then the platform; then nothing is charged |
| `Fees.CalculateFee` | src/payments/services/marketplace-fee-resolver.service.ts:112-136 | Fee plus net is the total, under the resolved percentage |
| `Fees.CalculateSecureOrderAmounts` | src/orders/services/orders.service.ts:126-179 | Subtotal from catalogue prices, the resolved percentage on the subtotal, items repriced; an error exactly when a product is missing, naming one |
| `Fees.LinesExactly` | src/orders/services/orders.service.ts:151-158 | A line costs the discount price if there is one, else the price, times the quantity, and shows that price |
| `MonthGrid.TimePlusMonthsExactly` | src/membership/services/billing-admin.service.ts:595-599 | k months add the lengths of the k months from the current one: 28k to 31k days, never earlier |
| `MonthGrid.TimeComposeExactly` | src/membership/services/billing-admin.service.ts:596-597 | j then k months equal j + k months if and only if the day exists in the month in between, or that month and the last are equally long |
| `MonthGrid.TimeComposeUpTo28` | src/membership/services/billing-admin.service.ts:596-597 | In particular always for days up to 28 |
| `MonthGrid.Landing` | src/membership/services/billing-admin.service.ts:597 | A day lands in the intended month, or runs over into the next by what the month is too short |
| `Calendar.MonthStep` | src/membership/services/billing-admin.service.ts:597 | The day-number formula and the table of month lengths agree, across years and leap years |
| `Calendar.GregorianIsValid` | src/membership/services/billing-admin.service.ts:597 | The Gregorian months satisfy what the month theorems assume |
| `Calendar.GregorianStarts2023` | src/membership/services/billing-admin.service.ts:597 | Among them the months of early 2023 start where the calendar says |
| `Calendar.OverflowExample` | src/membership/services/billing-admin.service.ts:597 | 31 January 2023: one month gives 3 March, twice one month 3 April, two months 31 March |
| `Billing.LinkedStep` | src/membership/services/billing-admin.service.ts:154-240 | Every operation, taken as one step, keeps: AUTO stores a preapproval, stored ones are one's own, and every uncancelled one is stored by its membership |
| `Billing.OneLiveSubscription` | src/membership/services/billing-admin.service.ts:304-435 | Over any run of whole operations from memberships without subscription: at most one uncancelled preapproval each, it is the stored one, and AUTO stores one |
| `SubscriptionCalls.SingleIffTidy` | src/membership/services/billing-admin.service.ts:69-435 | With reading, awaiting and saving the whole row as separate steps of every operation: a membership keeps at most one uncancelled preapproval, stored or about to be, for all tidy continuations if and only if the event is tidy: no switch begins beside a call that may still save, no other operation beside a switch that may still bring a live preapproval, and no live one is dropped |
| `SubscriptionCalls.SubscriptionsSingleIffTidy` | src/membership/services/billing-admin.service.ts:154-435 | The same over any interleaving from memberships without subscriptions, before and after each event |
| `SubscriptionCalls.UninterruptedCall` | src/membership/services/billing-admin.service.ts:154-578 | A call of any of the operations that is not interrupted, and whose external calls do not fail, is the operation of the model of single steps |
| `Billing.SyncedIffLocal` | src/membership/controllers/membership-webhook.controller.ts:298-347 | A step keeps the local status equal to the external one if and only if it is not a change made outside |
| `Billing.RunSyncedIffLocal` | src/membership/services/billing-admin.service.ts:504-578 | The same over runs, throughout |
| `Billing.SyncRestored` | src/membership/controllers/membership-webhook.controller.ts:307-337 | However far off, a successful operation or a notification about the stored preapproval makes the membership exact again |
| `Billing.ExtensionExactly` | src/membership/controllers/membership-webhook.controller.ts:192-213 | Both extensions activate, add exactly the month lengths, and drop the pending payment always or only when it is this one |
| `BillingRowByRow.EnableRows` | src/membership/services/billing-admin.service.ts:154-206 | One more preapproval, stored with its status, AUTO, active, one month from now; refused for the stated reasons only |
| `BillingRowByRow.ToAutoRows` | src/membership/services/billing-admin.service.ts:304-351 | The same, leaving the expiry and dropping the pending payment |
| `BillingRowByRow.ToManualRows` | src/membership/services/billing-admin.service.ts:386-411 | The stored preapproval is cancelled outside and forgotten, MANUAL; nothing else changes, and nothing at all when the cancellation fails |
| `BillingRowByRow.PauseAndResumeRows` | src/membership/services/billing-admin.service.ts:504-578 | The stored preapproval and its local copy become paused or authorized, and nothing else changes |
| `BillingRowByRow.PaymentLinkRows` | src/membership/services/billing-admin.service.ts:69-115 | The pending payment is stored and the mode is MANUAL; nothing else changes |
| `BillingRowByRow.ExtensionRows` | src/membership/services/billing-admin.service.ts:580-611 | An extension leaves mode, preapproval and status alone |
| `BillingRowByRow.NotificationRows` | src/membership/controllers/membership-webhook.controller.ts:321-337 | The status is copied; authorized activates, cancelled deactivates, any other leaves the membership as active as it was |
| `BillingRowByRow.StrayNotification` | src/membership/controllers/membership-webhook.controller.ts:306-319 | A notification that cannot be read, or that no membership stores, changes nothing |
| `Billing.BillingService.MigrateToManualBilling` | src/membership/services/billing-admin.service.ts:386-411 | The stored preapproval is cancelled outside first; if that throws nothing changes |
| `Billing.BillingService.PauseOrResume` | src/membership/services/billing-admin.service.ts:504-578 | External status first, local copy second; nothing changes when there is none or the call throws |

## Left out

- Templates.SendFromTemplate: the length of the data as JSON is a parameter, and handing the message to the multicast is not stated.
- Multicast.Notifications.SendToMultipleUsers: the users found are a parameter in their order, the service is assumed to answer one response per token with matching counts, the data filter for sensitive keys needs the lower-casing of any Unicode text, and a clearing of tokens that fails is not modelled.
- Fees.CalculateFee: a lookup that throws, which the code treats as no fee on that level, is a missing row.
- ImageProxy.CachedAnswerIsRecent: the age counts from the moment the answer was stored, and the digest of urls is assumed free of collisions.
- SecureQr.ValidateGenerated: JSON and the HMAC are an arbitrary codec whose parser reads back what its printer wrote; parsed objects with missing fields are not modelled.
- OAuthState.RoundTripExactly: a state supplied by the caller itself replaces the printed one and is not modelled.
- Utf8.RoundTrip: a Dafny character is a Unicode scalar, so lone surrogates do not occur, and lengths of templates count a supplementary character once.
- Billing.OneLiveSubscription: whole operations as single steps; `SubscriptionCalls` takes each of them apart. The other endpoints that write a preapproval id (membership subscription and its own administration) are not operations of either model, and the external service is assumed to keep a cancelled preapproval cancelled.
- SubscriptionCalls.SingleIffTidy: each read, external call and save of one row is one step.
- Billing.ExtensionExactly: plan, amount, features and dates other than the expiry are not modelled, nor are audit and payment records.
- MonthGrid.TimePlusMonthsExactly: in UTC, and without the range limit of time values.
- The nested transaction of a processed order: completion is the transaction of `completePurchase`, and the later update of all its tickets to ACTIVE is not modelled, since the outcome of the nesting depends on the isolation of the database.
- Races inside one operation on tickets: each transaction is one step with one reading of the clock, and so are the scan, the regeneration of a code, the activation by hand and the edit of a capacity, which read a row and save it later without a transaction.
- Creating and removing ticket types.
- Signature, routing and reference parsing of the webhooks; responses stored by the idempotency table; its expiry.
- Providers and url validation of the image proxy, statistics of the cache.
- Disabling a custom fee; discounts, order fulfilment, roles and plan defaults.
- Floating point: amounts are exact cents.
- Logging, dependency injection, HTTP, PDF, migrations, pagination.
