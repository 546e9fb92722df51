# Cullen: a Dafny model of its durable protocols

Cullen is an offline-first point of sale. Each node keeps its own SQLite database and exchanges
business facts with others over the LAN. This project models the persistence side of that system
and proves what it promises: what may be lost, repeated or reordered without harm, which
permissions a live session carries, which histories can always be read back, and which sums are
exact. Every table is a map from its primary key, and every store call one transaction; a rejected
row leaves the tables as they were.

Objects whose methods update rows are classes over map fields. Each method is proved equal to a
function of the old tables, loops included, and the properties are proved about those functions,
for every run. Files that only compute are functions and lemmas.

| file | models |
|---|---|
| `Outbox.dfy`, `OutboxClaims.dfy`, `OutboxOrder.dfy`, `OutboxDrain.dfy` | the sender's outbox: per-destination deliveries, claims, generations; what each call may touch, order and progress |
| `Inbox.dfy`, `Reception.dfy`, `InboxClaims.dfy`, `InboxRuns.dfy` | the receiver: custody, pending work, discrepancies, the reception and processing that drive them |
| `LanProtocol.dfy` | one sender, any destinations, and a network that loses, repeats and reorders; workers stop anywhere |
| `Identity.dfy`, `IdentityStore.dfy`, `IdentityRuns.dfy` | operators, roles, grants, sessions, lockouts, enrolment tickets |
| `SessionRuns.dfy`, `IdentityCalls.dfy` | the life of a session token told from calls and clocks; what each identity call answers and writes |
| `NumberText.dfy`, `CanonicalJson.dfy` | the canonical JSON printer, with a reader that inverts it |
| `Rounding.dfy`, `Money.dfy` | BigInt rounding, tax inclusion and extraction, the report's SQL rounding |
| `Versioned.dfy`, `ReferenceProjection.dfy`, `CommercialProjection.dfy` | versioned upserts, product child rows, sales and returns |
| `ReferenceOrder.dfy`, `ReferenceRetries.dfy`, `UnitOrder.dfy` | which published references leave one catalogue, whatever order they arrive in and whatever is refused and retried |
| `Policies.dfy`, `PolicyCalls.dfy` | operational policies with two writers and one reader |
| `FiscalDocuments.dfy`, `FiscalDays.dfy`, `FiscalDaySaves.dfy`, `FiscalFlows.dfy` | append-only fiscal histories, and days held in memory across other writers' saves |
| `CoordinatedOperations.dfy` | distributed operations and their derived status |
| `CatalogLoad.dfy` | the batched catalogue load |
| `Wrappers.dfy`, `Selection.dfy`, `Sorting.dfy` | options and results, ordered row selection, stable sorting |

What the proofs found, beyond confirming the promises:

- The outbox keeps its per-aggregate order exactly when no new fact precedes one a destination was
  already offered (`OutboxOrder.EnqueueKeepsIff`, `OutboxOrder.LateFactBreaksOrder`); nothing in the store
  checks it.
- `divideByQuantity` rounds as its comment says exactly for positive quantities: with a negative one its
  helper is called outside its stated range and never returns the nearest amount, as ten divided by minus
  three shows (`Money.NegativeQuantityMisrounds`). Neither caller passes one: a stock balance never falls
  below zero (packages/core/src/domain/inventory/stock-item.ts:228-238), and a rate is positive
  (packages/core/src/domain/currency/exchange-rate.ts:53).
- The report's SQL rounds as the domain does for every line the schema can store, whose price is not
  negative and whose quantity is positive (`Money.StoredLineAgrees`); the two part only for products at or
  below minus half a unit (`Money.NegativeProductParts`), which it excludes. Nothing is claimed of sums beyond 64 bits.
- A sale return delivered before its sale leaves no trace in the projection
  (`CommercialProjection.ReturnMarkedIff`, `CommercialProjection.ReturnBeforeSaleIsLost`).
- A terminal that gets the published products in another order can be left for ever with old versions.
  A reference is refused while another product holds one of its barcodes, and `ReferenceRetries.PUBLISHED`
  is six references, all taken in the order they were published, of which a terminal that gets the last one
  early keeps only first versions, however often the others are retried
  (`ReferenceRetries.RetryingIsNotEnough`), though each product's versions reached it in order. Products
  settle in every order exactly when no product's last reference shares a barcode with any reference of
  another that could be stored (`ReferenceOrder.SettlesIff`); with retries until nothing moves, exactly when
  no choice of versions that share nothing blocks every newer one short of the last
  (`ReferenceRetries.RetriesSettleIff`). Units of measure are the same with their codes
  (`UnitOrder.UnitsSettleIff`, `UnitOrder.RetryingUnitsIsNotEnough`).
- A fiscal day saved two or more transitions past a version the store has left can be accepted and then
  no longer reads (`FiscalFlows.CarelessRunBreaks`); one transition at a time it cannot
  (`FiscalFlows.RunReads`). The caller saves after every transition, so its flows are safe however they
  interleave (`FiscalFlows.FlowsRead`). Documents do not have this problem.
- `begin` leaves a status its steps contradict for an empty list of steps
  (`CoordinatedOperations.BegunWithoutSteps`), and when a repetition extends a completed operation
  (`CoordinatedOperations.RepetitionExtendsCompleted`). Its caller always names a step, and looks for the
  operation first, in another transaction
  (packages/core/src/application/sync/coordinated-stock-operations.ts:57-90).
- Asking again for the tax policy in force makes no new version exactly when the caller's locale
  sorts the codes as SQL does (`Policies.ReactivationIff`, `Policies.ReactivationMakesVersion`).
- The documentation grants ten effective sends in a delivery cycle
  (docs/architecture/adr/0026-lan-operativa-y-recuperacion-entre-nodos.md:254); the code counts
  claims, so one whose lease expires before it sends uses up the budget too. The model follows the code.

`dafny verify dfyconfig.toml` checks the whole project.

## Model

| member | source | states |
|---|---|---|
| LanProtocol.CustodyIsPrefix | packages/drivers/db/src/outbox-store.ts:72-134 | in every allowed run the custody of each aggregate at each node is a prefix of the sender's (version, event) order, fact by fact unchanged |
| LanProtocol.PublishedMeansCustody | packages/drivers/db/src/outbox-store.ts:170-185 | a delivery published to a node is in that node's custody, in every run |
| LanProtocol.GenerationsSettleOnce | packages/drivers/db/src/outbox-store.ts:170-231 | each (event, destination, generation) settles at most once, whatever answers come late or twice |
| LanProtocol.OldClaimsAreSpent | packages/drivers/db/src/outbox-store.ts:170-231 | once a newer generation was opened, no settlement of an older claim changes anything, at any later time |
| LanProtocol.OutboxOnlyAdvances | packages/drivers/db/src/outbox-store.ts:126-134 | generations never go back, facts never change, and a published delivery is never written again |
| LanProtocol.NothingArrivesLate | packages/core/src/application/events/receive-sync-event.ts:209-227 | a message of the protocol is never taken into custody as overtaken by a newer version |
| LanProtocol.PublishedAppliesAtMostOnce | packages/core/src/application/sync/process-sync-inbox.ts:97-136 | end to end: a published fact is in custody, and a consumer's effect was committed once exactly when its work is APPLIED |
| LanProtocol.ClaimsNameGenerations | packages/drivers/db/src/outbox-store.ts:126-149 | every claim handed to a worker names the generation its row was just given, one above the last |
| Outbox.EnqueuedIs | packages/drivers/db/src/outbox-store.ts:40-59 | known facts keep their row, of the facts with an id that is new the first is stored, and nothing else is |
| Outbox.EnqueueTwiceIsOnce | packages/drivers/db/src/outbox-store.ts:55 | enqueueing the same facts again changes nothing |
| Outbox.InsertEvents | packages/drivers/db/src/outbox-store.ts:40-59 | the insert, fact by fact, leaves the table of the enqueue |
| Outbox.OutboxStore.ClaimAvailable | packages/drivers/db/src/outbox-store.ts:61-154 | materializes, selects due rows without unpublished predecessors in creation order up to the limit, isolates unsupported versions and leases the rest |
| Outbox.ClaimRows | packages/drivers/db/src/outbox-store.ts:116-149 | the filter and the claim loop leave exactly the marked table and return exactly the claims of the kept rows |
| Outbox.Filter | packages/drivers/db/src/outbox-store.ts:116-124 | keeps the deliverable rows in order and isolates the others |
| Outbox.KeptIsDeliverable | packages/drivers/db/src/outbox-store.ts:116-124 | the kept rows are exactly the selected ones whose version the catalogue publishes or whose type it does not know |
| Outbox.MaterializedIs | packages/drivers/db/src/outbox-store.ts:314-328 | every fact has a delivery for the destination; rows there were stay, and each new one is of a fact without one and starts pending and due |
| Outbox.InsertMissing | packages/drivers/db/src/outbox-store.ts:314-328 | the insert-select, row by row, adds the missing deliveries of the facts it goes over |
| Outbox.OutboxStore.MarkPublished | packages/drivers/db/src/outbox-store.ts:170-185 | settles only the generation being processed |
| Outbox.OutboxStore.MarkFailed | packages/drivers/db/src/outbox-store.ts:187-201 | returns only the generation being processed to PENDING |
| Outbox.OutboxStore.MarkBlocked | packages/drivers/db/src/outbox-store.ts:203-217 | blocks only the generation being processed |
| Outbox.OutboxStore.MarkPaused | packages/drivers/db/src/outbox-store.ts:219-231 | pauses only the generation being processed |
| Outbox.OutboxStore.ResumeDelivery | packages/drivers/db/src/outbox-store.ts:233-246 | opens a new cycle for a paused delivery and keeps its generation |
| OutboxClaims.ClaimTakesOnlySendable | packages/drivers/db/src/outbox-store.ts:72-134 | a claim changes only rows that were pending and due, or under a lease that had run out, of facts whose predecessors were all published: each is leased with one generation more, or isolated when the catalogue lacks its version |
| OutboxClaims.LiveRowsStand | packages/drivers/db/src/outbox-store.ts:78-82 | a row under a lease that lasts, or waiting for its next attempt, or published, blocked or paused, is unchanged by a claim and named by none of those handed out |
| OutboxClaims.HandedIsSendable | packages/drivers/db/src/outbox-store.ts:116-149 | every claim handed out is of a supported fact that could be sent, and names the generation its row is then in |
| OutboxClaims.LeasedIsHanded | packages/drivers/db/src/outbox-store.ts:126-149 | every row that was leased is handed to the worker |
| OutboxClaims.ClaimKeepsLimit | packages/drivers/db/src/outbox-store.ts:100-110 | a limit that is not negative bounds the rows changed and the claims handed out, and each changed row is of a fact that occurred before any sendable one left out, by instant and then id |
| OutboxClaims.HandedInOrder | packages/drivers/db/src/outbox-store.ts:100-149 | the claims come in the order in which their facts occurred |
| OutboxClaims.LateSettlementIsVoid | packages/drivers/db/src/outbox-store.ts:170-231 | a settlement of a generation that is not the one being processed changes nothing |
| OutboxClaims.SettlementWrites | packages/drivers/db/src/outbox-store.ts:170-231 | every column a settlement in time gives its row, and that no other row changes |
| OutboxClaims.FailedIsRetried | packages/drivers/db/src/outbox-store.ts:187-201 | a failed delivery may be sent again exactly from its next attempt on |
| OutboxClaims.ClosedIsNotSent | packages/drivers/db/src/outbox-store.ts:170-231 | a delivery that was published, blocked or paused is not sent again, whenever |
| OutboxClaims.ResumedIsSent | packages/drivers/db/src/outbox-store.ts:233-246 | a paused delivery that is resumed may be sent exactly from then on, in a new cycle of the same generation |
| OutboxOrder.EnqueueKeepsIff | packages/drivers/db/src/outbox-store.ts:40-59 | enqueueing keeps the order invariant exactly when no added fact precedes one already offered to a destination |
| OutboxOrder.LateFactBreaksOrder | packages/drivers/db/src/outbox-store.ts:40-59 | a first fact enqueued after the second was offered: the tables lose the order |
| OutboxOrder.ClaimKeeps | packages/drivers/db/src/outbox-store.ts:72-134 | a claim keeps: any row ever claimed or not PENDING has all its predecessors published to its destination, and cycle attempts never exceed attempts |
| OutboxOrder.SettleKeeps | packages/drivers/db/src/outbox-store.ts:170-231 | so does every settlement, current or late |
| OutboxOrder.ResumeKeeps | packages/drivers/db/src/outbox-store.ts:233-246 | so does a resumption |
| OutboxOrder.HeadStopsSuccessors | packages/drivers/db/src/outbox-store.ts:82-100 | while a predecessor is not published to a destination, a fact is untouched there |
| OutboxOrder.OneProcessingPerAggregate | packages/drivers/db/src/outbox-store.ts:82-100 | at most one delivery of an aggregate is being processed for a destination |
| OutboxOrder.DestinationsAreIndependent | packages/drivers/db/src/outbox-store.ts:72-134 | a claim for one destination leaves every other destination's rows as they are |
| OutboxOrder.ClaimProgress | packages/drivers/db/src/outbox-store.ts:70-134 | if some aggregate's head is due, a claim with a non-zero limit leases or isolates a selected row |
| OutboxOrder.WaitsBehindHead | packages/drivers/db/src/outbox-store.ts:82-100 | every unpublished fact is, or waits behind, an unpublished head of its aggregate |
| OutboxDrain.BatchCloses | packages/core/src/application/events/outbox-relay.ts:71-137 | a batch whose claims are all acknowledged publishes or blocks exactly the rows it selected |
| OutboxDrain.DrainLeavesOnlyWaitingHeads | packages/core/src/application/events/outbox-relay.ts:71-137 | repeated acknowledged batches terminate, and then every unpublished fact is behind a blocked, paused or waiting head |
| Inbox.InboxStore.Record | packages/drivers/db/src/sync-reception-store.ts:89-131 | custody and its work rows appear together or not at all; a known event id changes nothing |
| Inbox.InsertWork | packages/drivers/db/src/sync-reception-store.ts:117-127 | one pending row for each consumer, or a constraint error when one is met twice |
| Inbox.InboxStore.ClaimPending | packages/drivers/db/src/sync-inbox-work-store.ts:86-120 | leases the ready items in reception order and returns the generation given to each |
| Inbox.LeaseItems | packages/drivers/db/src/sync-inbox-work-store.ts:86-120 | the claim loop leases exactly the selected items |
| Inbox.InboxStore.MarkApplied | packages/drivers/db/src/sync-inbox-work-store.ts:139-157 | applies only the current generation of pending work |
| Inbox.InboxStore.MarkRetryable | packages/drivers/db/src/sync-inbox-work-store.ts:159-178 | postpones only the current generation, without a new one |
| Inbox.InboxStore.OpenDiscrepancy | packages/drivers/db/src/sync-inbox-work-store.ts:180-215 | moves the current work to DISCREPANCY and adds a record only if the item has none |
| Inbox.InboxStore.ScheduleDiscrepancyRetry | packages/drivers/db/src/sync-inbox-work-store.ts:258-272 | returns disputed work of an open record to pending with the same generation |
| Inbox.InboxStore.ResolveDiscrepancy | packages/drivers/db/src/sync-inbox-work-store.ts:278-302 | resolves an open record only once its work is applied |
| InboxClaims.ClaimWrites | packages/drivers/db/src/sync-inbox-work-store.ts:86-120 | a claim touches only work to apply of a fact in custody that is not waiting nor under a lease that lasts, and opens one generation more of it |
| InboxClaims.LiveWorkStands | packages/drivers/db/src/sync-inbox-work-store.ts:86-100 | applied or disputed work, work that waits, and work under a lease that lasts is left as it is and handed to nobody |
| InboxClaims.ClaimKeepsLimit | packages/drivers/db/src/sync-inbox-work-store.ts:86-120 | the limit bounds what is handed out, in the order of reception, event and consumer, before any due work that is left out |
| InboxClaims.PostponedIsDue | packages/drivers/db/src/sync-inbox-work-store.ts:139-178 | postponed work is due again exactly from its next attempt on, and applied work never |
| InboxClaims.DisputedIs | packages/drivers/db/src/sync-inbox-work-store.ts:180-215 | disputed work gets a record unless it has one, is due no more, and a clash of ids or a spent generation changes nothing |
| InboxClaims.RescheduledIs | packages/drivers/db/src/sync-inbox-work-store.ts:258-272 | disputed work of an open record may be tried again at once in the generation it had, and nothing else changes |
| InboxClaims.ResolvedIs | packages/drivers/db/src/sync-inbox-work-store.ts:278-302 | an open record is resolved, with who and why, exactly when its work is applied |
| InboxClaims.ProgressIs | packages/drivers/db/src/sync-inbox-work-store.ts:310-332 | progress is a discrepancy when some work is disputed, and applied exactly when all of it is |
| InboxClaims.RecordedIs | packages/drivers/db/src/sync-reception-store.ts:89-131 | custody brings the envelope as received and one due row for each of its consumers |
| Reception.Receive | packages/core/src/application/events/receive-sync-event.ts:117-202 | the receipt and the tables for an unreachable registry, ownership refusals, duplicates, identity conflicts, new custody and failed custody |
| Reception.TakenIsRight | packages/core/src/application/events/receive-sync-event.ts:117-227 | each receipt on its own cause: whom the envelope belongs to, what custody holds under its id, and what custody holds of its aggregate and dependencies; after an acceptance or a duplicate custody holds exactly the envelope delivered, and otherwise nothing changes |
| Reception.Processor.PendingDependency | packages/core/src/application/sync/process-sync-inbox.ts:142-151 | whether some dependency still has work that is not applied |
| Reception.Processor.Consume | packages/core/src/application/sync/process-sync-inbox.ts:97-136 | an item is skipped when its claim is gone, or its effect and confirmation commit together, or nothing changes and what is left to do is returned |
| Reception.Processor.Conclude | packages/core/src/application/sync/process-sync-inbox.ts:153-176 | the later transaction that postpones the item or opens its discrepancy, guarded by the generation alone |
| Reception.BackoffGrows | packages/core/src/application/sync/process-sync-inbox.ts:164-176 | retry waits never shrink and stay between half a second and a minute |
| InboxClaims.BackoffDoubles | packages/core/src/application/sync/process-sync-inbox.ts:164-176 | half a second, then twice as long each time, up to a minute |
| InboxClaims.WaitsIff | packages/core/src/application/sync/process-sync-inbox.ts:142-151 | an item waits exactly while some dependency was never received or has work that is not applied |
| InboxClaims.ConsumedIs | packages/core/src/application/sync/process-sync-inbox.ts:97-136 | a held item that does not wait gets its effect and its confirmation together; in every other case nothing changes and the sequel says why |
| InboxClaims.ConcludedIs | packages/core/src/application/sync/process-sync-inbox.ts:153-176 | what becomes of an item that was not finished, whoever holds its lease by then |
| InboxRuns.EffectsHappenOnce | packages/drivers/db/src/sync-inbox-work-store.ts:139-157 | in every run an effect was committed once exactly when its work is APPLIED, and never otherwise |
| InboxRuns.NothingIsLost | packages/drivers/db/src/sync-reception-store.ts:89-131 | custody, the work owed, applied rows and resolved records survive every later step unchanged |
| InboxRuns.DisputesAgree | packages/drivers/db/src/sync-inbox-work-store.ts:180-302 | disputed work has exactly one record and it is open; a resolved record's work is applied |
| InboxRuns.ProgressIsStable | packages/drivers/db/src/sync-inbox-work-store.ts:310-332 | once the progress of an event is APPLIED it stays so after every step, and never without custody |
| CanonicalJson.CanonicalDecidesFacts | packages/shared/src/json.ts:13-24 | two values print one text exactly when they are the same fact: maps for objects, order kept in arrays, -0 read as 0, non-finite numbers read as null |
| CanonicalJson.ReadsBack | packages/shared/src/json.ts:18-24 | a reader gets back exactly the fact from the canonical text, whatever follows it |
| CanonicalJson.StringRoundTrip | packages/shared/src/json.ts:19-22 | quoting loses nothing: escapes, control characters and lone surrogates are read back |
| CanonicalJson.SortedInOrder | packages/shared/src/json.ts:21 | distinct keys come out strictly increasing by code unit |
| CanonicalJson.OneArrangement | packages/shared/src/json.ts:21 | a set of keys has only one sorted arrangement |
| CanonicalJson.KeyLessIff | packages/shared/src/json.ts:21 | one key comes before another exactly when it is a proper prefix of it, or has the lower of the first units that differ |
| CanonicalJson.OtherUnitsAre | packages/shared/src/json.ts:19 | control characters without a letter of their own and lone surrogates are written by their four lower-case digits, and any other unit as it is |
| CanonicalJson.LoneIff | packages/shared/src/json.ts:19 | the surrogates written by their digits are exactly those without their other half |
| CanonicalJson.QuotedIsWhole | packages/shared/src/json.ts:19-22 | a written string has no half of a surrogate pair, whatever halves the text has |
| CanonicalJson.TextIs | packages/shared/src/json.ts:18-24 | the text of one object, unit by unit: keys in order and no space |
| NumberText.NumberRoundTrip | packages/shared/src/json.ts:19 | every finite number is read back from its printed form, in all four notations |
| NumberText.NotationIs | packages/shared/src/json.ts:19 | digits and zeros up to 21 places, a point down to six zeros after it, and an exponent otherwise |
| Rounding.DivideIsNearestIff | packages/shared/src/money.ts:14-29 | the division is the nearest integer, ties away from zero, exactly when the denominator is positive |
| Rounding.NearestIsUnique | packages/shared/src/money.ts:10-13 | there is only one such integer |
| Rounding.DivideIsOdd | packages/shared/src/money.ts:14-29 | rounding treats both signs alike |
| Rounding.DivideIsMonotone | packages/shared/src/money.ts:14-29 | rounding keeps order |
| Money.IncludeThenExtract | packages/shared/src/tax-rate.ts:31-60 | unless something overflows, extracting from the included gross gives back the tax and the amount exactly, for either sign and every rate |
| Money.ExtractionIsTotal | packages/shared/src/money.ts:101-109 | base and tax always rebuild the gross, the base is the nearest one between zero and it, and extraction never overflows |
| Money.PercentageIsNearest | packages/shared/src/money.ts:82-90 | a percentage is the nearest amount, or an overflow when no safe amount is |
| Money.SumsAre | packages/shared/src/money.ts:59-62 | sums and differences are exact, of one currency, and refused only out of the safe range |
| Money.MultiplyIsNearest | packages/shared/src/money.ts:115-124 | a quantity's total is the nearest amount, or an overflow when no safe amount is |
| Money.DivideByQuantityIff | packages/shared/src/money.ts:130-145 | zero is refused; the result is the nearest amount exactly for a positive quantity, and then an overflow exactly when no safe amount is nearest |
| Money.NegativeQuantityMisrounds | packages/shared/src/money.ts:14-29 | ten divided by minus three gives minus two, where minus three is the nearest |
| Money.ReportAgreesIff | packages/drivers/db/src/reporting-repositories.ts:328-337 | while its sums fit 64 bits, the SQL expression equals multiplyByQuantity exactly for products above minus half a unit |
| Money.NegativeProductParts | packages/drivers/db/src/reporting-repositories.ts:328-337 | at minus half a unit the SQL gives zero and the domain minus one |
| Money.StoredLineAgrees | packages/drivers/db/src/migrations/0001-initial-business-schema.ts:100-105 | for every price and quantity the schema allows whose sums fit 64 bits, the SQL expression is the domain's total, or its overflow |
| Money.SummaryDrift | packages/drivers/db/src/reporting-repositories.ts:350-373 | a summary row differs from the exact total by at most half a minor unit for each of its lines |
| IdentityRuns.AcceptedMeansUnchanged | packages/drivers/db/src/authentication-store.ts:171-222 | from any keyed tables without sessions, in every history an accepted session's operator has its local permissions of login, and the principal carries those of login exactly when no grant says otherwise now |
| IdentityRuns.HistoryIsHonest | packages/drivers/db/src/identity-administration-store.ts:150-251 | authorization versions never fall, and an operator whose version stands is as active and may do exactly what it could |
| IdentityRuns.EditIsHonest | packages/drivers/db/src/identity-administration-store.ts:597-608 | every call that changes what anyone may do raises that operator's version |
| IdentityRuns.AffectedIff | packages/drivers/db/src/identity-administration-store.ts:34-35 | of the operators there were, exactly those an edit reports as affected, or whose credential it renews or expires, advance their version |
| IdentityRuns.AffectedSessionsEnd | packages/drivers/db/src/authentication-store.ts:191-204 | from any keyed tables without sessions, once an edit affects an operator no session it had is accepted again in any later history |
| IdentityRuns.PrincipalIsAuthority | packages/drivers/db/src/authentication-store.ts:308-373 | the principal of an accepted session lists exactly the permissions that authorize its actor |
| SessionRuns.AcceptedIff | packages/drivers/db/src/authentication-store.ts:171-222 | in every history of a node, told from the calls and their clocks: a verification is accepted exactly when a login issued the token, nothing has revoked, refused or purged it since, it is before the absolute end given at login and within half an hour of the last one accepted, or before the idle end given at login, and the operator is active, at the version of the login and under no grant that is inactive or past its expiry |
| SessionRuns.EndedForGood | packages/drivers/db/src/authentication-store.ts:191-204 | once a token is revoked, or a verification of it refused, no later verification accepts it, whatever comes between, unless a login issues it anew |
| SessionRuns.AcceptedPrincipal | packages/drivers/db/src/authentication-store.ts:205-221 | the principal of an accepted verification is the operator, node and terminal of the login, until half an hour on or the absolute end, whichever is first |
| SessionRuns.AcceptedMay | packages/drivers/db/src/authentication-store.ts:308-373 | it may do exactly what the first grant of its operator's code says, or, without one, what an active role of the operator has among the active permissions |
| SessionRuns.AuthorizedIff | packages/drivers/db/src/authentication-store.ts:308-325 | an action is authorized exactly by the first grant of the operator's code while it stands, or without one by an active role of an active operator that has the active permission |
| SessionRuns.SeenIsLast | packages/drivers/db/src/authentication-store.ts:205-212 | a session's row says when it was last seen, at its login or at the last verification accepted since, and when it was first revoked or refused |
| IdentityRuns.TicketEnrolsOnce | packages/drivers/db/src/identity-administration-store.ts:347-410 | from any tables with sound tickets, a ticket that enrolled is refused and changes nothing after any later history, purges included: as consumed while its row stands and not found once it is purged, unless its token is issued anew after that |
| IdentityRuns.UnpurgedIsNeverReissued | packages/drivers/db/src/identity-administration-store.ts:314-345 | while no ticket is purged no token is issued twice |
| IdentityStore.IdentityDatabase.PurgeConsumedEnrollments | packages/drivers/db/src/identity-administration-store.ts:471-484 | drops exactly the tickets spent or expired before the threshold |
| IdentityRuns.TicketsKept | packages/drivers/db/src/identity-administration-store.ts:314-345 | at most one live ticket for each operator code, no spent ticket comes back, and only a purge drops any |
| IdentityRuns.FiveFailuresLockOut | packages/drivers/db/src/authentication-store.ts:104-133 | after a fifth failure in one window, whatever calls come between that do not log the operator in on the node, no PIN opens a session there, and nothing changes, until the lockout ends |
| IdentityRuns.FailuresCount | packages/drivers/db/src/authentication-store.ts:104-133 | in every such run the lockout row counts the failures of the window and when it began |
| Identity.FirstGrant | packages/drivers/db/src/migrations/0036-operator-grants-and-availability.ts:31-32 | a code has a grant exactly when some row has it, and the one found has the code |
| Identity.IntroducePermissions | packages/drivers/db/src/authentication-store.ts:286-295 | the loop adds exactly the permissions there were not, active |
| IdentityRuns.GrantsConverge | packages/drivers/db/src/catalog-reference-projection.ts:412-451 | grants depend only on which references were delivered, whatever the order and repetition |
| Identity.CheckRoles | packages/drivers/db/src/identity-administration-store.ts:563-572 | the error of the first role that cannot be assigned |
| Identity.CheckPermissions | packages/drivers/db/src/identity-administration-store.ts:574-581 | whether every code is a known active permission |
| Identity.InsertPairs | packages/drivers/db/src/identity-administration-store.ts:583-595 | the loop adds exactly the pairs of the owner with each item |
| Identity.BumpAuthorization | packages/drivers/db/src/identity-administration-store.ts:603-608 | the loop advances the version of each operator named and nothing else |
| Identity.Bumped | packages/drivers/db/src/identity-administration-store.ts:603-608 | named operators get a greater version, the others keep their row |
| IdentityStore.IdentityDatabase.CreateOperator | packages/drivers/db/src/identity-administration-store.ts:110-132 | the outcomes and tables of creating an operator with its roles |
| IdentityStore.IdentityDatabase.UpdateOperator | packages/drivers/db/src/identity-administration-store.ts:134-148 | a new name, and no new version |
| IdentityStore.IdentityDatabase.ChangeOperatorStatus | packages/drivers/db/src/identity-administration-store.ts:150-165 | the status and a new version |
| IdentityStore.IdentityDatabase.AssignOperatorRoles | packages/drivers/db/src/identity-administration-store.ts:167-186 | the roles replaced, and a new version |
| IdentityStore.IdentityDatabase.CreateRole | packages/drivers/db/src/identity-administration-store.ts:188-211 | the outcomes and tables of creating a role |
| IdentityStore.IdentityDatabase.UpdateRolePermissions | packages/drivers/db/src/identity-administration-store.ts:213-233 | the permissions replaced, and a new version for every bearer |
| IdentityStore.IdentityDatabase.ChangeRoleStatus | packages/drivers/db/src/identity-administration-store.ts:235-251 | the status, and a new version for every bearer |
| IdentityStore.IdentityDatabase.ReplaceOwnCredential | packages/drivers/db/src/identity-administration-store.ts:419-438 | a new PIN that keeps the version |
| IdentityStore.IdentityDatabase.ExpireCredential | packages/drivers/db/src/identity-administration-store.ts:440-452 | the mark to change it, and a new version |
| IdentityStore.IdentityDatabase.AuthorizeEnrollment | packages/drivers/db/src/identity-administration-store.ts:314-345 | a new ticket supersedes the live one |
| IdentityStore.IdentityDatabase.ConsumeEnrollment | packages/drivers/db/src/identity-administration-store.ts:347-410 | every refusal, and the operator, credential, version and ticket of a consumption |
| IdentityStore.IdentityDatabase.PurgeExpiredSessions | packages/drivers/db/src/identity-administration-store.ts:459-469 | drops exactly the sessions whose absolute expiry is past the threshold |
| IdentityStore.IdentityDatabase.CompleteAttempt | packages/drivers/db/src/authentication-store.ts:79-169 | refusals, failures counted toward a lockout, and the session a verified PIN opens |
| IdentityStore.IdentityDatabase.VerifyAndTouchSession | packages/drivers/db/src/authentication-store.ts:171-222 | accepts and extends a session, or revokes it |
| IdentityStore.IdentityDatabase.RevokeSession | packages/drivers/db/src/authentication-store.ts:254-258 | revokes a live session, once |
| IdentityStore.IdentityDatabase.ProvisionInitialAdmin | packages/drivers/db/src/authentication-store.ts:260-301 | provisions only a node without operators |
| IdentityCalls.UnassignableIff | packages/drivers/db/src/identity-administration-store.ts:563-572 | the first role that is unknown, or retired or reserved, decides the refusal, and without one there is none |
| IdentityCalls.CreateOperatorIs | packages/drivers/db/src/identity-administration-store.ts:110-132 | an operator is created exactly under a free code and id with roles that can all be given, and what is written of it |
| IdentityCalls.AssignRolesIs | packages/drivers/db/src/identity-administration-store.ts:167-186 | exactly the roles asked for are left to the operator, whose version alone rises |
| IdentityCalls.CreateRoleIs | packages/drivers/db/src/identity-administration-store.ts:188-211 | a role is created exactly under a free code and id with known active permissions |
| IdentityCalls.RoleStatusIs | packages/drivers/db/src/identity-administration-store.ts:235-251 | the status changes, and exactly the operators that have the role are affected and advance |
| IdentityCalls.RolePermissionsAre | packages/drivers/db/src/identity-administration-store.ts:213-233 | exactly the permissions asked for are left to the role, and exactly the operators that have it are affected and advance |
| IdentityCalls.CredentialEditsAre | packages/drivers/db/src/identity-administration-store.ts:419-452 | a new PIN clears the mark to change it and keeps the operator's version; the mark alone raises it |
| IdentityCalls.AuthorizeIs | packages/drivers/db/src/identity-administration-store.ts:314-345 | a ticket is stored live under a free id and token, and spends the live one of its operator code alone |
| IdentityCalls.RefusalsAre | packages/drivers/db/src/identity-administration-store.ts:347-410 | each refusal of a ticket exactly on its own cause, in the order of the checks, and without any change |
| IdentityCalls.EnrolsLocal | packages/drivers/db/src/identity-administration-store.ts:284-312 | a local operator is enrolled exactly when it is active and under no grant that fails |
| IdentityCalls.EnrolsGranted | packages/drivers/db/src/identity-administration-store.ts:284-312 | an operator that is not local is enrolled exactly by a grant that stands, under an id that is new |
| IdentityCalls.EnrolmentWrites | packages/drivers/db/src/identity-administration-store.ts:373-405 | the credential renewed or created, one operator created or advanced, the ticket spent, and nothing else |
| IdentityCalls.LogInIs | packages/drivers/db/src/authentication-store.ts:79-169 | a session is opened exactly for a right PIN of an active operator, checked against its present credential and not locked out, under a new token, with the operator's present version and the times given |
| IdentityCalls.FailureIs | packages/drivers/db/src/authentication-store.ts:104-133 | a wrong PIN counts one failure more in its window of a quarter of an hour, and the fifth locks out for as long |
| IdentityCalls.GrantIs | packages/drivers/db/src/catalog-reference-projection.ts:412-451 | a published grant is stored unless a version as high is, and keeps its row's place |
| IdentityCalls.ProvisionIs | packages/drivers/db/src/authentication-store.ts:260-301 | a node without operators gets exactly the admin's rows, unless a role is in the way |
| Versioned.ConvergesIff | packages/drivers/db/src/catalog-reference-projection.ts:180-223 | any order and repetition of deliveries gives one table exactly when the greatest version of each key names one content |
| Versioned.TableIsLatest | packages/drivers/db/src/catalog-reference-projection.ts:180-198 | the table holds, for each key delivered, a delivery of its greatest version |
| ReferenceProjection.ProductsConverge | packages/drivers/db/src/catalog-reference-projection.ts:225-289 | of the references taken: two histories that took the same ones, whatever each refused, leave the same products, barcodes and prices |
| ReferenceOrder.SettlesIff | packages/drivers/db/src/catalog-reference-projection.ts:225-289 | where the greatest version of each product names one content, every history that delivers the references, in any order, with repeats and refusals, each at least once with its category and unit known, ends with the shelf of the greatest versions, exactly when no product's last reference collides with itself or with a storable reference of another |
| ReferenceOrder.UnsharedConverge | packages/drivers/db/src/catalog-reference-projection.ts:225-289 | under that condition any two terminals delivered the same references end with the same shelf |
| ReferenceOrder.InsertedIff | packages/drivers/db/src/migrations/0001-initial-business-schema.ts:59-67 | a published set of barcodes goes in exactly when none collides with another of the set or with a row |
| ReferenceOrder.AnswerIs | packages/drivers/db/src/catalog-reference-projection.ts:225-289 | on a shelf that mirrors the references stored: a product is stale exactly behind the stored version, and otherwise refused exactly for an unknown category or unit, or a barcode that collides with its own or another product's |
| ReferenceOrder.TakenIff | packages/drivers/db/src/catalog-reference-projection.ts:225-289 | the references a history took are those some delivery of which was not refused |
| ReferenceRetries.RetriesSettleIff | packages/core/src/application/sync/process-sync-inbox.ts:104-136 | retrying until nothing moves ends with the greatest versions, whatever the history, exactly when the only choice of references that share nothing and block every newer one is that of the greatest versions |
| ReferenceRetries.IdleIsStable | packages/core/src/application/sync/process-sync-inbox.ts:104-136 | where retries no longer change anything, what is stored is such a choice |
| ReferenceRetries.StableIsReached | packages/drivers/db/src/catalog-reference-projection.ts:225-289 | every such choice is where some history that delivers all the references ends |
| ReferenceRetries.RetryingIsNotEnough | packages/drivers/db/src/catalog-reference-projection.ts:255-263 | six references whose arrival leaves two products at their first version for ever, whatever is delivered again |
| ReferenceRetries.PublishedDoNotSettle | packages/core/src/application/catalog/update-product.ts:87-97 | retries do not settle those references, though the order they were published in does |
| ReferenceRetries.ArrivalIsOrderly | packages/drivers/db/src/outbox-store.ts:82-100 | they arrive all, and each product's in the order of its versions |
| ReferenceProjection.ShelfMirrors | packages/drivers/db/src/catalog-reference-projection.ts:225-289 | after any history, refusals included, the shelf is that of the references taken |
| ReferenceProjection.ProductKeepsMirror | packages/drivers/db/src/catalog-reference-projection.ts:225-289 | a product's barcodes, and each column of its single published price, are always those of its stored version |
| ReferenceProjection.UnitsConverge | packages/drivers/db/src/catalog-reference-projection.ts:200-223 | of the units taken: two histories that took the same ones, whatever codes were refused, leave the same units |
| UnitOrder.UnitsSettleIff | packages/drivers/db/src/catalog-reference-projection.ts:200-223 | any order and repetition of the units ends with the greatest version of each, exactly when no unit's last code is the code of another unit in any reference |
| UnitOrder.UnitAnswerIs | packages/drivers/db/src/catalog-reference-projection.ts:200-223 | a unit is stale exactly behind the stored version, refused exactly for a code another unit holds, and stored otherwise |
| UnitOrder.RetryingUnitsIsNotEnough | packages/drivers/db/src/catalog-reference-projection.ts:200-223 | six references after three of which two units stay at their first version for ever |
| ReferenceProjection.InsertBarcodes | packages/drivers/db/src/catalog-reference-projection.ts:255-263 | the loop inserts each published barcode, or stops at the first clash |
| ReferenceProjection.InsertedIs | packages/drivers/db/src/catalog-reference-projection.ts:255-263 | what it inserts is exactly the published set, and no other row changes |
| ReferenceProjection.Projection.ApplyCategory | packages/drivers/db/src/catalog-reference-projection.ts:180-198 | the version-guarded upsert and its answer |
| ReferenceProjection.Projection.ApplyUnitOfMeasure | packages/drivers/db/src/catalog-reference-projection.ts:200-223 | the upsert, with the unique code of units |
| ReferenceProjection.Projection.ApplyPaymentMethod | packages/drivers/db/src/catalog-reference-projection.ts:291-315 | the version-guarded upsert and its answer |
| ReferenceProjection.Projection.ApplyProduct | packages/drivers/db/src/catalog-reference-projection.ts:225-289 | the upsert with its child rows replaced, stale references and constraint errors |
| CommercialProjection.SalesConverge | packages/drivers/db/src/commercial-projection.ts:25-59 | the columns of projected sales depend only on which sales were delivered, whatever returns came between |
| CommercialProjection.ReturnMarkedIff | packages/drivers/db/src/commercial-projection.ts:65-83 | the return marked is exactly the first one delivered after its sale, and without one none is |
| CommercialProjection.ReturnBeforeSaleIsLost | packages/drivers/db/src/commercial-projection.ts:65-83 | a return delivered before its sale leaves it unmarked |
| CommercialProjection.Projection.ApplySale | packages/drivers/db/src/commercial-projection.ts:25-59 | the guarded upsert, which keeps a marked return |
| CommercialProjection.Projection.ApplySaleReturn | packages/drivers/db/src/commercial-projection.ts:65-83 | marks the first return of a known sale |
| CommercialProjection.Projection.ApplyFiscalEntry | packages/drivers/db/src/commercial-projection.ts:175-214 | the guarded upsert, so fiscal entries converge as any versioned row |
| Policies.RunRefines | packages/drivers/db/src/operational-policy-writer.ts:77-112 | for every interleaving of both writers, the tables say what one current policy for each kind says |
| Policies.ActiveIsProvided | packages/drivers/db/src/operational-policy-providers.ts:22-72 | the active row is the only one of its kind, has its greatest version, and is what the provider returns with its stored configuration |
| Policies.ActivationIsProvided | packages/drivers/db/src/operational-policy-writer.ts:28-75 | after an activation that was not refused the provider returns exactly the configuration asked for |
| Policies.ReactivationIff | packages/drivers/db/src/operational-policy-writer.ts:13-18 | asking again for the policy in force makes no version exactly when the codes come in SQL's order |
| Policies.ReactivationMakesVersion | packages/drivers/db/src/operational-policy-writer.ts:13-18 | two codes given in the other order: asking twice makes a second version of one configuration |
| Policies.PolicyStore.Activate | packages/drivers/db/src/operational-policy-writer.ts:77-112 | unchanged, created with the next version, or rejected |
| Policies.PolicyStore.ApplyOperationalPolicy | packages/drivers/db/src/catalog-reference-projection.ts:317-374 | stale, refused, or recorded with the published version |
| Policies.PolicyStore.Configure | packages/drivers/db/src/operational-policy-writer.ts:62-74 | stores exactly the configuration rows of a version |
| Policies.DeactivatedIsOne | packages/drivers/db/src/operational-policy-writer.ts:91-95 | deactivating the active row a writer found deactivates all of its kind |
| Policies.InsertCodes | packages/drivers/db/src/operational-policy-writer.ts:69-73 | the loop stores exactly the eligible codes |
| PolicyCalls.PublishedIs | packages/drivers/db/src/catalog-reference-projection.ts:317-374 | a publication is stale unless it is above every version of its kind, refused exactly for a taken id or a percentage outside zero to a hundred, and otherwise is the active version with its own configuration |
| PolicyCalls.ActivatedIs | packages/drivers/db/src/operational-policy-writer.ts:28-112 | an activation changes nothing exactly when the active rows say what is asked for with its codes in increasing order, is rejected exactly when it cannot be stored, and otherwise is the active version one above the greatest |
| FiscalDocuments.ReadNeverFails | packages/drivers/db/src/fiscal-document-repository.ts:323-336 | after any sequence of accepted and refused saves, the check on read passes for every document |
| FiscalDocuments.RunGrows | packages/drivers/db/src/fiscal-document-repository.ts:52-130 | stored transitions are versions 1..n ending in the stored status, only grow at their end, and an issued document never changes |
| FiscalDocuments.SaveAppends | packages/drivers/db/src/fiscal-document-repository.ts:169-196 | an accepted save raises the version and appends exactly the transitions after the stored one |
| FiscalDocuments.SaveThenReadIff | packages/drivers/db/src/fiscal-document-repository.ts:198-272 | a save reads back as it was given exactly when the memory's history starts with the stored one |
| FiscalDocuments.PendingIsSuffix | packages/drivers/db/src/fiscal-document-repository.ts:184-195 | of a history that agrees with its snapshot, the pending part is what follows the stored version |
| FiscalDocuments.SaveAnswers | packages/drivers/db/src/fiscal-document-repository.ts:52-196 | over any tables, each error exactly on its own cause and in the source's order: a stored or given history that contradicts its snapshot or is behind, another content, the version stored already, an issued document, an event id in use; any other save is accepted |
| FiscalDocuments.NextIsSaved | packages/drivers/db/src/fiscal-document-repository.ts:52-130 | a stored document that is not issued takes its next transition, and reads it back |
| FiscalDocuments.FiscalDocumentRepository.Save | packages/drivers/db/src/fiscal-document-repository.ts:52-130 | the tables of an accepted save, or the first error and no change |
| FiscalDays.SaveKeepsIff | packages/drivers/db/src/fiscal-day-repository.ts:27-118 | a save keeps every history readable exactly when each report of the memory follows the store: it moves only if not issued there, and otherwise is as it is there |
| FiscalFlows.RunReads | packages/drivers/db/src/fiscal-day-repository.ts:27-118 | memories loaded, opened, moved and saved in any interleaving: while each save is at most one transition past its base, or its base still stands, every day reads back |
| FiscalFlows.FlowsRead | packages/core/src/application/fiscal/print-fiscal-report.ts:60-156 | however flows that print reports interleave their transactions, every day reads back |
| FiscalFlows.StepIs | packages/core/src/application/fiscal/print-fiscal-report.ts:123-156 | a step goes on with the day it moved and saved, or else writes nothing and ends its flow |
| FiscalFlows.LateFlowEnds | packages/core/src/application/fiscal/print-fiscal-report.ts:123-156 | a flow whose day another has saved since writes nothing and ends |
| FiscalFlows.SavedIsDerived | packages/drivers/db/src/fiscal-day-repository.ts:27-118 | a memory that was saved is consistent with what it left, so it can be moved and saved again |
| FiscalFlows.CarelessRunBreaks | packages/drivers/db/src/fiscal-day-repository.ts:304-333 | a concrete run of two memories of one day, the second saved two transitions past a base that no longer stands: accepted, and the day does not read |
| FiscalDays.MovesKeepDerived | packages/core/src/domain/fiscal/fiscal-day.ts:145-362 | the domain's calls keep reports distinct, their transitions rising, and what the store has issued |
| FiscalDays.StaleMemoryBreaksTheDay | packages/drivers/db/src/fiscal-day-repository.ts:304-333 | a concrete memory behind the store whose save is accepted and leaves a day that no longer reads |
| FiscalDays.FiscalDayRepository.Save | packages/drivers/db/src/fiscal-day-repository.ts:27-118 | the tables of an accepted save, or the first error and no change |
| FiscalDays.SaveReports | packages/drivers/db/src/fiscal-day-repository.ts:73-91 | the loop inserts or updates each report, except rows issued before the save |
| FiscalDaySaves.SaveAnswers | packages/drivers/db/src/fiscal-day-repository.ts:27-118 | over any tables, each error exactly on its own cause and in the source's order, and any other save is accepted |
| FiscalDaySaves.SaveWrites | packages/drivers/db/src/fiscal-day-repository.ts:42-113 | what an accepted save writes column by column: issued reports keep their row, and nothing else changes |
| FiscalDaySaves.OpenedLives | packages/core/src/domain/fiscal/fiscal-day.ts:145-362 | however the domain moves a day from its opening, each report's transitions are a path of its state machine, at most the last report is a Z, and the day is open without it and closed exactly when it was issued |
| FiscalDaySaves.SettledStays | packages/core/src/domain/fiscal/fiscal-day.ts:172-362 | a report that was issued or has failed is never moved again |
| FiscalDaySaves.MoveIs | packages/core/src/domain/fiscal/fiscal-day.ts:145-362 | when a call of the domain is taken, what it writes, and that it touches no other report |
| CoordinatedOperations.RunKeeps | packages/drivers/db/src/coordinated-operation-store.ts:58-158 | in every history a kind and fingerprint name one operation for ever, and an applied step never changes |
| CoordinatedOperations.BeginSettlesIff | packages/drivers/db/src/coordinated-operation-store.ts:58-104 | beginning keeps the status true to the steps exactly when a new operation has a step and a repetition does not extend a completed one |
| CoordinatedOperations.BegunWithoutSteps | packages/drivers/db/src/coordinated-operation-store.ts:58-104 | an operation begun without steps is pending while its steps say completed |
| CoordinatedOperations.RepetitionExtendsCompleted | packages/drivers/db/src/coordinated-operation-store.ts:58-104 | a completed operation begun again with one more step stays completed while that step is pending |
| CoordinatedOperations.RecordSettles | packages/drivers/db/src/coordinated-operation-store.ts:174-187 | recording a step always leaves the derived status |
| CoordinatedOperations.RecordKeepsCompletedIff | packages/drivers/db/src/coordinated-operation-store.ts:126-158 | a completed operation stays so exactly when what is recorded is no new step short of applied |
| CoordinatedOperations.RunSettles | packages/drivers/db/src/coordinated-operation-store.ts:58-187 | while calls stay within the steps begun, every status is the derived one and COMPLETED is for ever |
| CoordinatedOperations.CoordinatedOperationStore.Begin | packages/drivers/db/src/coordinated-operation-store.ts:58-104 | finds or opens the operation of a fingerprint and adds its missing steps |
| CoordinatedOperations.CoordinatedOperationStore.RecordStep | packages/drivers/db/src/coordinated-operation-store.ts:126-158 | takes a step that is not applied yet and refreshes the status |
| CoordinatedOperations.InsertSteps | packages/drivers/db/src/coordinated-operation-store.ts:84-99 | the loop inserts exactly the missing steps, each for its node |
| CoordinatedOperations.DerivedIff | packages/drivers/db/src/coordinated-operation-store.ts:174-187 | a rejected step asks for review, all steps applied complete, and anything else is pending |
| CoordinatedOperations.RecordIs | packages/drivers/db/src/coordinated-operation-store.ts:126-158 | a step of a known operation is written unless it is applied already, the operation takes the status all its steps call for then, and nothing else changes |
| CoordinatedOperations.BeginIs | packages/drivers/db/src/coordinated-operation-store.ts:58-104 | the operation of the kind and fingerprint gets the steps it is missing, pending at the right node; without one it is opened, unless its id is another's |
| CatalogLoad.FindAllProducts | packages/drivers/db/src/catalog-repositories.ts:182-208 | the batched load equals loading each product, barcode and price order and errors included |
| CatalogLoad.GroupBy | packages/drivers/db/src/catalog-repositories.ts:31-39 | one pass leaves each key the rows that have it, in order, and no empty bucket |
| CatalogLoad.HistoryAgrees | packages/drivers/db/src/catalog-repositories.ts:192-220 | a product's bucket of all prices sorted by product and time is its own prices sorted by time, ties included |
| Sorting.FilterOfSort | packages/drivers/db/src/fiscal-document-repository.ts:175-186 | filtering sorted rows is sorting the filtered ones, ties included |

## Left out

- `outbox_event.status`: a local summary, not the authority on delivery; only delivery rows are modelled.
- Payload columns, counters and listings of the sync stores: stored or read as they are, they add only easy members.
- Envelope validation, size limits, transport and acknowledgement parsing: the relay's answer is an outcome of the model, and a publication needs an answer the destination gave.
- The relay's retry budget and jitter: any settlement may follow a claim, so the theorems hold for every budget.
- Two senders for one aggregate: each aggregate has one owner node, and the protocol model has one sender.
- Consumers' own business effects: an effect is counted once for each commit, and shares the transaction of its confirmation.
- Identifiers, PIN hashing, token generation and clocks are parameters; a reused identifier is a constraint error.
- Case folding of operator codes: codes are compared by their folded form.
- Clock rollback protection of grants: the watermark is not monotone, because touching a session overwrites the instant it was last seen.
- Trimming and upper-casing of policy codes: activations take them already normalized.
- `applyStockAvailability`, exchange rates, shift openings and closures, cash movements: order-dependent by design, or simpler cases of the same upsert.
- Unique columns no property needs, such as a document's reference or a day's date: their errors only refuse more saves.
- FiscalDays.Read: orders a day's reports by id alone, without the instant they were requested.
- Ties in a query's order: rows come in table order, as a stable sort over the scan leaves them.
- Fiscal evidence: which transitions it allows is left to the domain, so every legal transition is allowed here.
- Crash between the two statements of `recordStep`: the source does not demand a transaction there; the model takes the call as one step.
- CommercialProjection.SalesConverge: says nothing of the return columns, which depend on order; ReturnMarkedIff says exactly when a return is marked.
- Money.ReportAgreesIff: says nothing of sums beyond 64 bits, where SQLite turns to floating point.
- Money.SummaryDrift: adds and rounds over unbounded integers; beyond 64 bits a line turns to floating point and a sum is an error, which is not part of this model.
- Reception.Receive: keeps no quarantine rows of what it refuses, which are evidence apart from custody and may fail to be written; a custody row that vanishes in a race is not part of it either.
- FiscalFlows.FlowsRead: takes no idempotency keys, day dates or terminals, whose checks only end more flows.
- Domain validation in `Product.restore` and its parts: it reads only what both loads are proved to pass alike.
- Report joins, weighted average cost, HTTP, Electron, backups and the command-line tools: input and output, or floating point.
