# Verified model of the warehouse back end

The project models the parts of the back end that decide where stock is and what the books say about it, and the
small algorithms around them. It has three groups.

**The stock ledger.** `Domain`, `Stock`, `Allocation`, `Release`, `Picking`, `Inbound`, `ReceiptLifecycle`,
`Counting`, `CountResults`, `Shipping` and `Units` give one tenant's tables (stock rows, movement lines, batches,
receipts, orders, picking tasks, count tasks, handling units, shipments) and each service call as a function from
tables to tables or an error. `ReleaseOutcome`, `PickingTasks`, `Receiving`, `CountTasks` and `HandlingUnits` say in
terms of the tables alone when a call is accepted and what it leaves: which rows a release takes by expiry date, what
a task asks for, what a confirmation books and where. `Machine` puts the twenty-one calls into one step machine and
proves what holds on every run of it; `History`, `Lifecycles`, `AuditTrail`, `RunBounds`, `Tolerances`, `Dispatches`
and `Reshipments` add what never changes or goes back, which call wrote which line, what only some runs respect and
exactly which, and what is shipped against what is packed. `Tables` finds, updates and creates the single records of a
call with the loops of the services, and `Store` is the class whose methods run whole calls on working copies of the
tables; each method is proved to leave exactly the specified tables, or, when the call throws, the tables it found. A
thrown error stands for the roll-back of the surrounding transaction. `Scenarios` holds concrete runs from an empty
tenant for properties that do not hold.

**Arithmetic and state in memory.** `RateLimit` (fixed windows), `Base32` and `Totp` (the codec with its 32-bit
accumulator, the truncation and the acceptance window), `Measures` and `Monitoring` (metrics counted over samples,
sliding window, alert rules).

**Planning.** `Waves`, `Distances`, `Routing`, `Relocation`, `Abc` and `TenantCode`.

`Wrappers`, `Sorting` and `Numbers` hold shared notions. Quantities, distances and ratios are exact reals.

Results that a reader of the code might not expect, with the member that shows the input and the one that says exactly
when the property holds:

- A key is granted at most 119 checks in any half-open minute, not 120 (`AtMost119PerInterval`), and 119 is reached
  (`BoundIsReached`). Dropping expired windows never changes an answer, and the test `resetAt < now` behind it never
  succeeds (`SurvivorsAreOpen`).
- A pick with a negative quantity is accepted (`NegativePickIsAccepted`); picked quantities stay in bounds on a run
  exactly when no confirmation takes back more than was picked (`PickingStaysWithinBoundsIff`).
- A task line named twice takes both quantities from stock but remembers only the second (`RepeatedLineForgets`);
  picked quantities, stock and movements agree exactly when the overwritten entries sum to nothing
  (`PickedAgreesWithStockIff`). The books stay balanced all the same.
- Receiving line by line ignores the over-receipt policy (`FloorReceiptExceedsLimit`); `LimitHoldsIff` gives the runs
  that respect it.
- A count is taken over all stock on a key, but one that equals the expectation is not booked and any other is booked on
  one status (`StaleCountIsNotBooked`, `CountIsMissed`). On hand ends at the count exactly when, in the first case, the
  expectation is still what is on hand and, in the second, the other statuses hold nothing in sum
  (`OnHandMatchesCountIff`).
- Allocation ignores the unit of measure of the order line (`OtherUnitIsReserved`); `LineReservesItsUnitIff` says when
  all stock a line reserves is in its unit.
- A relocation suggestion can ask for more than its donor holds and leave the rows further apart
  (`HalfUnitIsOverdrawn`): the first exactly when the donor holds less than one unit (`SuggestionsAreCoveredIff`), the
  second exactly when its two rows are less than one unit apart (`SuggestionsLevelIff`).
- Taking back a pick can leave more packed than picked (`PackedIsTakenBack`); a run avoids it exactly when no
  confirmation leaves an order line with less picked than is packed for it (`PackingStaysWithinPickedIff`).
- A handling unit can be shipped twice (`UnitShipsTwice`); a dispatch ships exactly what leaves the packed goods that
  still wait if and only if none of its units has left before (`DispatchShipsWhatWaitsIff`), and a run ships no unit
  twice exactly when every dispatch meets that condition (`UnitsShipOnceIff`).
- Validating a one-time password throws while the clock is within the first time step of the epoch (`ValidateTotp`).

## Model

| member | source | states |
|---|---|---|
| `Stock.FoundRowIsTheGroup` | src/modules/inventory/inventory.service.ts:540-549 | with one row per key and status, the quantity of the row found first is the sum of the whole group, so find-then-update sees all of it |
| `Stock.AddToShifts` | src/modules/inventory/inventory.service.ts:416-444 | find-then-update and find-then-create move any sum of stock by the added quantity if the row belongs to it, and otherwise not at all |
| `Allocation.AllocationOrderIsTheQuery` | src/modules/outbound/outbound.service.ts:176-187 | the rows tried are all AVAILABLE rows of the product in the warehouse, once each, by expiry with undated rows last, or by age |
| `Allocation.AllocateRowsIsGreedy` | src/modules/outbound/outbound.service.ts:189-237 | no row is touched unless every row listed before it is drained, and the search only stops when the line is satisfied or all rows are drained |
| `Allocation.AllocateRowsCrosses` | src/modules/outbound/outbound.service.ts:198-236 | key by key, what leaves AVAILABLE arrives in RESERVED |
| `Release.LineGetsItsShare` | src/modules/outbound/outbound.service.ts:169-242 | one line ends at min(requested, prior allocation + AVAILABLE stock of its product in the warehouse), and that stock falls by the rise |
| `Release.LineFollowsTheQueryOrder` | src/modules/outbound/outbound.service.ts:176-237 | a row is touched only if every row before it in expiry or age order is drained; AVAILABLE rows outside the query are not touched |
| `Release.ReleaseAllocatesExactly` | src/modules/outbound/outbound.service.ts:163-243 | every line of the order ends with exactly its share of the stock left over by the lines before it |
| `Release.ReleaseMeetsDemandOrEmptiesSupply` | src/modules/outbound/outbound.service.ts:163-243 | over the whole order a product receives min(what its lines still ask for, its AVAILABLE stock) |
| `Release.FullyAllocatedIffSupplyCovers` | src/modules/outbound/outbound.service.ts:245-261 | the order comes out fully allocated exactly when stock covers demand product by product and no line had more than it asked for |
| `Release.ReleaseOnlyReserves` | src/modules/outbound/outbound.service.ts:198-236 | release keeps the stock of every key, moves only from AVAILABLE to RESERVED, and keeps rows unique and non-negative |
| `ReleaseOutcome.ReleaseTakesWhatExpiresFirst` | src/modules/outbound/outbound.service.ts:176-242 | of two AVAILABLE rows of a product in the order's warehouse, an accepted release touches the second only after draining the first: when the product has expiry dates, if the first's batch expires earlier, or only the first's expires, or the dates are equal and the first is older; otherwise if the first is older |
| `ReleaseOutcome.ReleaseTakesItsOwnStock` | src/modules/outbound/outbound.service.ts:176-242 | only AVAILABLE rows of the order's products at locations of its warehouse lose stock, and a line left short leaves none of its product there |
| `ReleaseOutcome.ReleaseOutcomeInEveryState` | src/modules/outbound/outbound.service.ts:137-268 | after any sequence of calls: a release is accepted exactly for a draft that stock covers, or whose warehouse neither enforces full allocation nor forbids partial shipments; it comes out fully allocated if covered, else partially if some line asks for a product of which a row holds stock, else released; only a missing order is "not found" |
| `Units.LineReservesItsUnitIff` | src/modules/outbound/outbound.service.ts:176-237 | all stock a line reserves is in the line's own unit exactly when no listed row holds stock in another unit, or the stock listed before the first such row covers the line |
| `Scenarios.OtherUnitIsReserved` | src/modules/outbound/outbound.service.ts:176-237 | a run in which a released line in BOX holds stock in EA |
| `Picking.PickAllKeepsStock` | src/modules/outbound/outbound.service.ts:398-459 | whatever is submitted, an accepted confirmation keeps the ledger, unique rows and non-negative rows |
| `Picking.PickAllTakesWhatIsSubmitted` | src/modules/outbound/outbound.service.ts:412-435 | RESERVED stock of a key falls by the sum submitted for task lines on it |
| `Picking.PickAllMovesWhatIsSubmitted` | src/modules/outbound/outbound.service.ts:447-458 | the movement lines take the same sum out of the key |
| `Picking.PickAllOnlyTakesReserved` | src/modules/outbound/outbound.service.ts:412-435 | no other stock status changes |
| `Picking.PickAllRemembersTheLast` | src/modules/outbound/outbound.service.ts:399-440 | each task line ends at its picked quantity before the call plus the last entry submitted for it |
| `Picking.PickAllNeverOverPicks` | src/modules/outbound/outbound.service.ts:404-410 | picked never exceeds the quantity to pick |
| `Picking.PickedWithinBoundsIff` | src/modules/outbound/outbound.service.ts:404-440 | picked stays between 0 and the quantity to pick exactly when no line's last entry takes back more than was picked |
| `Picking.PickedAgreesWithStockIff` | src/modules/outbound/outbound.service.ts:398-458 | key by key, for every accepted submission: the rise in picked equals the RESERVED drop, and equals the movement quantity, exactly when the entries overwritten by a later one for the same task line sum to nothing; otherwise it falls short by that sum |
| `Picking.DistinctLinesForgetNothing` | src/modules/outbound/outbound.service.ts:398-440 | a submission that names each task line once overwrites nothing |
| `PickingTasks.TaskAsksForReservedStock` | src/modules/outbound/outbound.service.ts:271-348 | a task is made exactly for an allocated order; for every order line and key it asks for all stock reserved on the key if that is of the line's product and in the order's warehouse, else for nothing, in one line per key with nothing picked |
| `PickingTasks.ConfirmAcceptsIff` | src/modules/outbound/outbound.service.ts:367-435 | a confirmation is accepted exactly for a started task when every entry names a line, asks for no more than is left to pick, and for no more than the reserved row holds after the entries before it |
| `PickingTasks.ConfirmationSetsStatus` | src/modules/outbound/outbound.service.ts:399-494 | task and order lines end at what the last entries say; the task is completed exactly when every line is picked in full, the order picked when every order line is, partially picked when only some is, and as before otherwise |
| `Inbound.BookMovesAllThree` | src/modules/inbound/inbound.service.ts:276-307 | one booking moves the receipt line, AVAILABLE stock in the warehouse and the movement log by the same quantity |
| `Inbound.BookKeepsStock` | src/modules/inbound/inbound.service.ts:286-307 | a booking keeps the ledger, unique rows and non-negative rows |
| `ReceiptLifecycle.ReceiveAllIsConsistent` | src/modules/inbound/inbound.service.ts:201-308 | confirming distinct lines keeps ledger, tolerances, unique batches and the receipt's log, never lowers a received quantity, and receives something |
| `ReceiptLifecycle.ReceiveAllMovesAllThree` | src/modules/inbound/inbound.service.ts:201-308 | over a whole confirmation, rise in received, stock added and movement lines are one quantity |
| `Receiving.ConfirmAcceptsIff` | src/modules/inbound/inbound.service.ts:134-253 | a confirmation is accepted exactly for an open receipt with lines, a location of its warehouse and distinct payloads, each of which has a positive quantity, the code and date its product needs, and both tolerances, judged on the receipt before the call |
| `Receiving.ConfirmationBooksWhatIsSubmitted` | src/modules/inbound/inbound.service.ts:201-330 | each named line ends at received plus the quantity submitted, or at what is expected if none is; other lines stay; AVAILABLE stock on exactly the product, batch of the code, location and unit rises by the same, no other key or status changes, and the log gains exactly one such line per payload; new batches are those the payloads name |
| `Receiving.FloorReceiptBooks` | src/modules/inbound/inbound.service.ts:435-589 | receiving from the floor: the exact condition for acceptance, and the quantity, or what is still expected if that is less, on line, stock and log |
| `ReceiptLifecycle.ConfirmKeepsInbound` | src/modules/inbound/inbound.service.ts:134-355 | confirming a receipt keeps every receipt consistent with its status, its tolerances and its movement lines |
| `ReceiptLifecycle.ReceiveLineKeepsInbound` | src/modules/inbound/inbound.service.ts:435-589 | receiving one line from the floor keeps the same |
| `ReceiptLifecycle.AddLineKeepsInbound` | src/modules/inbound/inbound.service.ts:53-96 | adding a line to a draft keeps the same |
| `ReceiptLifecycle.CompleteKeepsInbound` | src/modules/inbound/inbound.service.ts:591-627 | closing a receipt keeps the same |
| `Tolerances.ConfirmedLinesAreTolerated` | src/modules/inbound/inbound.service.ts:230-253 | an accepted confirmation leaves every line it names within the over- and the under-receipt tolerance, and no other line changed |
| `Tolerances.FloorReceiptKeepsLimitIff` | src/modules/inbound/inbound.service.ts:483-524 | receiving from the floor keeps every line within the over-receipt tolerance exactly when the percentage is not negative or the received total stays under it |
| `Tolerances.StepKeepsLimitIff` | src/modules/inbound/inbound.service.ts:53-627 | of all calls only adding a line (at less than -100 percent) and receiving from the floor can break the over-receipt tolerance, each under an exact condition on its arguments |
| `Tolerances.LimitHoldsIff` | src/modules/inbound/inbound.service.ts:53-627 | a run keeps every line within the over-receipt tolerance in all its states exactly when each accepted call meets that condition, which percentages of zero and more always do |
| `Scenarios.FloorReceiptExceedsLimit` | src/modules/inbound/inbound.service.ts:483-524 | a run in which ten of ten are received although nine are the most allowed |
| `Counting.StatusToCountIsPredominant` | src/modules/inventory/inventory.service.ts:674-713 | an adjustment goes to AVAILABLE if that holds stock, else to a status with rows and the most stock, in whatever order groups are listed |
| `Counting.AdjustSetsOneRow` | src/modules/inventory/inventory.service.ts:530-576 | an adjustment sets the chosen row to the new quantity and no other key or status |
| `Counting.SetRowKeepsStock` | src/modules/inventory/inventory.service.ts:551-606 | setting a row with its movement line keeps the ledger, unique rows and non-negative rows |
| `Counting.AddCountLinesKeepsDistinct` | src/modules/inventory/inventory.service.ts:101-141 | the lines of every count task keep pairwise distinct keys |
| `Counting.CreateCountKeepsDistinct` | src/modules/inventory/inventory.service.ts:26-80 | so they do when a task is created with given or suggested lines |
| `CountTasks.AddLinesOutcome` | src/modules/inventory/inventory.service.ts:82-207 | lines are accepted exactly for an open task, keys that are distinct and new to it, and known products, batches of the product and locations of its warehouse; each expects what the caller says or all stock on its key but scrap |
| `CountTasks.CreateOutcome` | src/modules/inventory/inventory.service.ts:26-80 | the same for a new task, with the lines given or suggested |
| `CountTasks.SuggestionsAreRows` | src/modules/inventory/inventory.service.ts:49-72 | a suggestion is at most fifty rows of the warehouse, each with its own quantity |
| `CountTasks.SubmitAcceptsIff` | src/modules/inventory/inventory.service.ts:226-319 | a submission is accepted exactly for a started task when it names the pending lines, once each, and every count that differs from its expectation is not negative and of a known place |
| `CountTasks.AdjustOutcome` | src/modules/inventory/inventory.service.ts:477-628 | an adjustment is accepted exactly for a known place and a quantity that is not negative, and sets one status of the key in the unit given or else the product's own |
| `CountResults.SubmitCoversAndCompletes` | src/modules/inventory/inventory.service.ts:240-331 | a successful submission names exactly the pending lines, once each, and always completes the task |
| `CountResults.MarkAllAcceptsIff` | src/modules/inventory/inventory.service.ts:254-284 | recording succeeds exactly for distinct, existing, uncounted lines |
| `CountResults.AdjustAllAcceptsIff` | src/modules/inventory/inventory.service.ts:493-528 | booking fails exactly for a differing line whose place is unknown or whose count is negative |
| `CountResults.SubmitSetsChosenRows` | src/modules/inventory/inventory.service.ts:286-319 | every differing line leaves its chosen row at the count, the choice depends on the stock before the submission only, nothing else changes |
| `CountResults.SubmissionOrderIsIrrelevant` | src/modules/inventory/inventory.service.ts:226-337 | the order of the entries changes neither acceptance nor stock nor the recorded lines |
| `CountResults.OnHandMatchesCountIff` | src/modules/inventory/inventory.service.ts:240-331 | for every entry of an accepted submission: stock on hand over all statuses ends at the count exactly when the count differs from the expectation and the other statuses held nothing in sum, or equals it and the expectation was still what was on hand |
| `Machine.CountMatchesOnHandIffInEveryState` | src/modules/inventory/inventory.service.ts:240-331 | the same after any sequence of calls |
| `CountResults.OnHandMatchesAdjustmentIff` | src/modules/inventory/inventory.service.ts:530-576 | after one adjustment stock on hand equals the new quantity exactly when the other statuses held nothing in sum |
| `Scenarios.CountIsMissed` | src/modules/inventory/inventory.service.ts:286-319 | a run whose accepted count of four leaves six on hand |
| `Scenarios.StaleCountIsNotBooked` | src/modules/inventory/inventory.service.ts:254-314 | a run whose count of five, as expected when the task was made, is accepted and completes while seven stay on hand |
| `Shipping.PackingStaysWithinPicked` | src/modules/outbound/outbound.service.ts:594-633 | an accepted packing call raises each order line it names, to at most its picked quantity, and no other line |
| `HandlingUnits.PackingOutcome` | src/modules/outbound/outbound.service.ts:570-642 | packing is accepted exactly when each item is positive, of its order line's product, and fits under what is picked beside all that is packed before it; it appends one line per item to the unit |
| `HandlingUnits.LoadingOutcome` | src/modules/outbound/outbound.service.ts:705-770 | loading is accepted exactly for a shipment that has not left and distinct, packed units of its warehouse; it links each unit to every order it holds a line of, and each pair once |
| `HandlingUnits.DispatchOutcome` | src/modules/outbound/outbound.service.ts:772-836 | a dispatch is accepted exactly for a shipment with links that has not left, and logs one movement line per packed line of its units, with product, batch, quantity and unit |
| `Shipping.DispatchShipsTheContents` | src/modules/outbound/outbound.service.ts:791-823 | dispatch leaves stock alone and logs, per product, exactly the contents of the linked units |
| `Shipping.DispatchKeepsStock` | src/modules/outbound/outbound.service.ts:808-823 | its movement lines have neither source nor target, so the ledger holds |
| `Dispatches.ShippedWithinPacked` | src/modules/outbound/outbound.service.ts:791-823 | after any sequence of calls no shipment has shipped more than its units hold now, and if no unit went out with two shipments, no more of a product has been shipped than packed |
| `Reshipments.DispatchShipsWhatWaitsIff` | src/modules/outbound/outbound.service.ts:772-836 | after any sequence of calls, an accepted dispatch ships, product by product, exactly what leaves the packed goods that still wait if and only if none of the shipment's units has left before |
| `Reshipments.UnitsShipOnceIff` | src/modules/outbound/outbound.service.ts:705-836 | a run ships no unit with two shipments, in any of its states, exactly when no accepted dispatch carries a unit that has left before |
| `Scenarios.UnitShipsTwice` | src/modules/outbound/outbound.service.ts:729-823 | a run in which one unit joins two shipments: five packed, ten shipped |
| `Machine.RunKeepsInv` | src/modules/outbound/outbound.service.ts:137-494 | every call keeps the joint invariant of stock, receipts, counts, tasks and orders, hence every run does |
| `Machine.LedgerHoldsOnEveryRun` | src/modules/inventory/inventory.service.ts:370-628 | after any sequence of calls, stock per product, batch, location and unit over all statuses is movements in minus movements out; no row is negative; one row per identity |
| `Machine.ReceiptsAreSoundOnEveryRun` | src/modules/inbound/inbound.service.ts:134-355 | after any sequence of calls: DRAFT has nothing received, RECEIVED has everything, PARTIALLY_RECEIVED some and not all, and received equals the receipt's movement lines; received stays within the over-receipt tolerance where that is not negative and within the expectation where it is |
| `Machine.ReleaseIsExactInEveryState` | src/modules/outbound/outbound.service.ts:157-268 | after any sequence of calls, an accepted release gives each line exactly its share of the stock left at its turn, and FULLY_ALLOCATED exactly when stock covers demand |
| `Machine.CountIsExactInEveryState` | src/modules/inventory/inventory.service.ts:240-331 | after any sequence of calls, an accepted count covers the pending lines, completes its task and books exactly the counted quantities |
| `RunBounds.PickingStaysWithinBoundsIff` | src/modules/outbound/outbound.service.ts:383-473 | a run keeps 0 <= picked <= to pick on every task line in all its states exactly when no accepted confirmation takes back more of a line than was picked |
| `RunBounds.CompletedTasksArePicked` | src/modules/outbound/outbound.service.ts:461-473 | after any sequence of calls a completed task is fully picked, and no line is picked beyond its quantity |
| `RunBounds.PackingStaysWithinPickedIff` | src/modules/outbound/outbound.service.ts:383-642 | a run never has more packed than picked on an order line, in any of its states, exactly when no accepted confirmation leaves an order line with less picked than is packed for it |
| `Scenarios.PackedIsTakenBack` | src/modules/outbound/outbound.service.ts:404-440 | a run whose last confirmation takes back one of three packed units: three packed, two picked |
| `Scenarios.NegativePickIsAccepted` | src/modules/outbound/outbound.service.ts:404-440 | a run whose last confirmation leaves -1 picked and 6 of 5 units reserved |
| `Scenarios.RepeatedLineForgets` | src/modules/outbound/outbound.service.ts:398-440 | a run whose last confirmation takes 5 units from stock and records 3 as picked |
| `History.HistoryIsNeverRewritten` | src/modules/outbound/outbound.service.ts:367-494 | over any sequence of calls completed tasks and received receipts never change again, a completed count keeps its lines and can only be cancelled by a review, which is final, and movement lines are only appended |
| `AuditTrail.EveryLineHasItsCall` | src/modules/outbound/outbound.service.ts:437-823 | on every run each movement line was written by one of the calls, and its kind, reference and ends are those of that call |
| `Lifecycles.StepMovesDocuments` | src/modules/outbound/outbound.service.ts:137-836 | each call changes the status of the documents it names only, along fixed transitions; new documents start at the beginning |
| `Lifecycles.NoDocumentGoesBack` | src/modules/outbound/outbound.service.ts:137-836 | over any sequence of calls no receipt, task, count, order or shipment returns to an earlier status |
| `Lifecycles.LinesHavePapersOnEveryRun` | src/modules/inbound/inbound.service.ts:53-308 | after any sequence of calls every receipt line names a batch, and carries an expiry date, where its product needs one |
| `Store.TenantStore.ReleaseOutboundOrder` | src/modules/outbound/outbound.service.ts:137-269 | the release loops leave exactly the specified tables, or on an error the tables as they were |
| `Tables.FindRow` | src/modules/outbound/outbound.service.ts:205-214 | the search loop finds the first row of a key and status |
| `Store.TenantStore.CreatePickingTask` | src/modules/outbound/outbound.service.ts:271-348 | the same for task creation: one task line per reserved row of each order line's product |
| `Store.TenantStore.ConfirmPickingTask` | src/modules/outbound/outbound.service.ts:367-494 | the same for pick confirmation |
| `Store.TenantStore.AddItemsToUnit` | src/modules/outbound/outbound.service.ts:570-642 | the same for packing |
| `Store.TenantStore.AssignUnitsToShipment` | src/modules/outbound/outbound.service.ts:705-770 | the same for loading a shipment |
| `Store.TenantStore.DispatchShipment` | src/modules/outbound/outbound.service.ts:772-836 | the same for dispatch |
| `Store.TenantStore.Confirm` | src/modules/inbound/inbound.service.ts:134-355 | the same for receipt confirmation |
| `Store.TenantStore.FindRepeatedLine` | src/modules/inbound/inbound.service.ts:179-185 | the set of seen ids detects exactly the submissions that name a line twice |
| `Store.TenantStore.AddLinesToCount` | src/modules/inventory/inventory.service.ts:82-207 | the same for adding count lines |
| `Store.TenantStore.Submit` | src/modules/inventory/inventory.service.ts:226-337 | the same for submitting a count, with its two loops |
| `Store.TenantStore.AdjustInventory` | src/modules/inventory/inventory.service.ts:477-628 | the same for an adjustment |
| `Tables.SumExpected` | src/modules/inventory/inventory.service.ts:638-663 | one pass over the rows sums what is expected on a key, without scrap |
| `Tables.DetermineStatus` | src/modules/inventory/inventory.service.ts:666-714 | the fold over the groups finds the status the specification names |
| `Store.TenantStore.Execute` | src/modules/outbound/outbound.service.ts:137-494 | any call moves the store as the step machine does and keeps the invariant |
| `RateLimit.RateLimiter.Check` | src/common/rate-limit.service.ts:32-47 | the answers a key has had are those of the limiter's log; a check extends the log and adds its answer to those of its own key only |
| `RateLimit.RateLimiter.CleanupExpired` | src/common/rate-limit.service.ts:24-30 | the loop drops exactly the windows whose end has come |
| `RateLimit.AnswersDependOnOwnChecksOnly` | src/common/rate-limit.service.ts:24-47 | with a clock that does not run backwards, a key's answers are those of one window per key that is never dropped, whatever other keys and cleanups do |
| `RateLimit.CleanupChangesNoAnswer` | src/common/rate-limit.service.ts:24-30 | two runs that differ only in cleanups give every key the same answers |
| `RateLimit.WindowGrantsUpToLimit` | src/common/rate-limit.service.ts:36-46 | within a window exactly the first 60 checks are granted |
| `RateLimit.RemainingIsHonoured` | src/common/rate-limit.service.ts:36-46 | an answer can be relied on: of the checks before its resetAt exactly as many are granted as it says remain, and resetAt is the end of its window |
| `RateLimit.AtMost119PerInterval` | src/common/rate-limit.service.ts:32-47 | no half-open minute sees more than 119 granted checks of a key |
| `RateLimit.BoundIsReached` | src/common/rate-limit.service.ts:32-47 | for every key a run of checks of the limiter with 119 granted in one half-open minute |
| `RateLimit.SurvivorsAreOpen` | src/common/rate-limit.service.ts:34-36 | after the cleanup no window has run out, so the test that follows it never succeeds |
| `Base32.ToBase32` | src/modules/auth/auth.service.ts:82-103 | for every buffer the output is the unpadded encoding of section 6 of RFC 4648, of length ceil(8n/5) |
| `Base32.SymbolsAreStandard` | src/modules/auth/auth.service.ts:83 | the symbols are those of RFC 4648, in its order |
| `Base32.ExampleOfTheStandard` | src/modules/auth/auth.service.ts:82-103 | the test vector of section 10 of RFC 4648: "foobar" is written MZXW6YTBOI |
| `Base32.FromBase32` | src/modules/auth/auth.service.ts:105-135 | a secret is rejected exactly when empty, outside the alphabet or shorter than 32 symbols; otherwise the result is the whole bytes its digits write |
| `Base32.WriteAndTypeBack` | src/modules/auth/auth.service.ts:82-135 | writing a buffer and typing it back in any case with any padding gives the buffer exactly when it has at least 20 bytes |
| `Base32.EncodingIsUnique` | src/modules/auth/auth.service.ts:82-103 | a buffer has one encoding |
| `Base32.DecodingIsUnique` | src/modules/auth/auth.service.ts:105-135 | digits decode to one byte sequence |
| `Base32.DecodingInvertsEncoding` | src/modules/auth/auth.service.ts:105-135 | decoding any encoding gives back the bytes |
| `Base32.EncodingInvertsDecodingIff` | src/modules/auth/auth.service.ts:105-135 | re-encoding what was decoded gives the same digits exactly when no set bit and no whole digit was dropped |
| `Base32.ShiftIn` | src/modules/auth/auth.service.ts:88-90 | shifting a group into the 32-bit word follows the unbounded number modulo 2^32 |
| `Base32.ReadOut` | src/modules/auth/auth.service.ts:92-95 | a group read out of the wrapped word is the one of the unbounded number |
| `Base32.MaskedReadOut` | src/modules/auth/auth.service.ts:92-95 | masking the accumulator to 12 bits would emit the same group |
| `Base32.MaskedShiftIn` | src/modules/auth/auth.service.ts:88-90 | and the masked accumulator stays the mask of the unmasked one |
| `Totp.TruncateIsStandard` | src/modules/auth/auth.service.ts:71-76 | for any 20-byte digest the reads stay in bounds and the bit operators give the 31-bit word of section 5.3 of RFC 4226 |
| `Totp.ExampleOfTheStandard` | src/modules/auth/auth.service.ts:70-79 | the example of section 5.4 of RFC 4226: the word 0x50ef7f19 and the code 872921 |
| `Totp.CodeIsSixDigits` | src/modules/auth/auth.service.ts:78-79 | the code is six digits reading as the word modulo 10^6 |
| `Totp.SameCodeIff` | src/modules/auth/auth.service.ts:78-79 | two words share a code exactly when they agree modulo 10^6 |
| `Totp.CountersDiffer` | src/modules/auth/auth.service.ts:66-68 | different time steps are hashed as different messages |
| `Totp.GenerateTotpCode` | src/modules/auth/auth.service.ts:64-80 | the program's code is the standard's code of the time step, and a step outside eight bytes is an error |
| `Totp.MatchesNow` | src/modules/auth/auth.service.ts:195-204 | under a decoded secret a code is accepted exactly when it is that of step T-1, T or T+1 |
| `Totp.ValidateTotp` | src/modules/auth/auth.service.ts:195-204 | the same from the written secret (section 5.2 of RFC 6238), with the exact conditions for an error |
| `Measures.P95IsNearestRank` | src/modules/monitoring/monitoring.service.ts:463-470 | p95 is one of the samples, at least 95% are at most it and fewer than 95% are below it |
| `Measures.RatesAddUp` | src/modules/monitoring/monitoring.service.ts:166-190 | availability and error rate sum to 1 |
| `Measures.MetricsMeasure` | src/modules/monitoring/monitoring.service.ts:166-190 | error rate times samples is the number of positions with a status of 500 or more, availability times samples the number of the others; p95 is the duration of a sample, at least 95% of the samples do not exceed it and fewer than 95% stay under it; without samples 0, 0 and 1 |
| `Measures.ConditionCountsSamples` | src/modules/monitoring/monitoring.service.ts:271-292 | on a window with samples each kind of condition holds exactly when the number of failed, served, or fast enough samples is on the right side of the threshold |
| `Monitoring.BreachCountsSamples` | src/modules/monitoring/monitoring.service.ts:271-292 | so whether a rule is breached is a count over the recorded samples not older than the window |
| `Monitoring.RecentKeeps` | src/modules/monitoring/monitoring.service.ts:435-439 | pruning keeps each sample at or past the cutoff as often as it occurs, and no other |
| `Monitoring.WindowIsRecentHistory` | src/modules/monitoring/monitoring.service.ts:435-461 | the incrementally pruned window holds, for every cutoff still to come, what pruning the full history would hold |
| `Monitoring.EvaluationSeesRecentHistory` | src/modules/monitoring/monitoring.service.ts:166-190 | so an evaluation sees exactly the recorded samples not older than the window |
| `Monitoring.ActiveIffHeldLongEnough` | src/modules/monitoring/monitoring.service.ts:271-310 | a rule is active exactly when its condition, over the full history, held at every evaluation from one at least windowMs earlier up to now |
| `Monitoring.StateFollowsLog` | src/modules/monitoring/monitoring.service.ts:294-309 | the stored breach start of a rule is the first evaluation of the present streak, whatever other rules did |
| `Monitoring.SloMonitor.UpdateSloWindow` | src/modules/monitoring/monitoring.service.ts:441-461 | recording a sample and pruning, as one step |
| `Monitoring.SloMonitor.PruneWindow` | src/modules/monitoring/monitoring.service.ts:435-439 | pruning keeps the samples not older than the cutoff, in order |
| `Monitoring.SloMonitor.GetStatus` | src/modules/monitoring/monitoring.service.ts:166-215 | prune, measure and evaluate all rules, as one step |
| `Waves.GroupsAreFilters` | src/modules/waves/waves.service.ts:79-84 | the group of a key is exactly the orders with that key, in order |
| `Waves.ChunksPartition` | src/modules/waves/waves.service.ts:47-54 | chunks concatenate back; with a positive size each has 1 to size elements and all but the last are full |
| `Waves.ChunkArray` | src/modules/waves/waves.service.ts:47-54 | the slicing loop builds those chunks |
| `Waves.WavesAreWellFormed` | src/modules/waves/waves.service.ts:88-124 | each wave is non-empty, has one grouping key, respects a positive maximum and carries the totals of its own orders |
| `Waves.KeysAgreeIff` | src/modules/waves/waves.service.ts:30-45 | orders share a key exactly when the strategy's own field agrees, a missing one counting as its default |
| `Waves.WaveOrdersBelongTogether` | src/modules/waves/waves.service.ts:79-108 | so all orders of a wave agree in the strategy's field |
| `Waves.UnlimitedWavesAreGroups` | src/modules/waves/waves.service.ts:79-108 | without a limit there is exactly one wave per key, holding its whole group |
| `Waves.TotalsCount` | src/modules/waves/waves.service.ts:110-118 | totals are the number of orders, the number of their lines and the sum of the quantities on them |
| `Waves.WavesPartitionOrders` | src/modules/waves/waves.service.ts:79-126 | in whatever order groups are visited, every order is in the waves exactly as often as it was given, and wave totals sum to the totals of all orders |
| `Waves.NoOrderTwice` | src/modules/waves/waves.service.ts:88-108 | distinct orders are never in two waves or twice in one |
| `Waves.TotalsOfPermutation` | src/modules/waves/waves.service.ts:110-118 | totals do not depend on the order of the orders |
| `Waves.GenerateWaves` | src/modules/waves/waves.service.ts:79-127 | the grouping, chunking and totalling loops build those waves |
| `Routing.StopsGroupLines` | src/modules/waves/waves.service.ts:330-340 | one stop per location, each holding exactly the lines of its location in order, and no line without a stop |
| `Routing.StopsHoldEveryId` | src/modules/waves/waves.service.ts:330-340 | the stops together hold every line id exactly as often as it occurs |
| `Routing.NearestIsNearest` | src/modules/waves/waves.service.ts:308-316 | the scan finds the first of the nearest stops |
| `Routing.WalkVisitsAll` | src/modules/waves/waves.service.ts:301-321 | the walk is a permutation of the nodes that starts with the first |
| `Routing.RouteIsGreedyTour` | src/modules/waves/waves.service.ts:342-354 | whatever was cached: the route starts at START, visits each stop once, always takes a nearest next stop by the cached distances, and carries every line id once |
| `Routing.StillAgrees` | src/modules/waves/waves.service.ts:345-352 | a distance matrix that agreed with the true distances when loaded still agrees |
| `Routing.TrueMemoChangesNothing` | src/modules/waves/waves.service.ts:346-368 | such a matrix gives the path that measuring every hop would give |
| `Routing.TrueMemoGivesTrueRoute` | src/modules/waves/waves.service.ts:346-368 | then every hop goes to a nearest unvisited stop by Manhattan distance, the total is the length of the route, and at least the distance from START to any stop |
| `Routing.LegsInCoordinates` | src/modules/waves/waves.service.ts:342-371 | with such a matrix: one leg per stop, START first at zero; every other leg carries the lines of its location, and its distance is the sum of how far aisle, row and level (or column) are from those of the leg before; the total sums the legs |
| `Distances.ManhattanIsGridDistance` | src/modules/waves/waves.service.ts:297-299 | the distance ignores shifts of both points, exchanges and mirrors of axes, is the length along one axis, and adds up over axes |
| `Distances.GridDistanceIsManhattan` | src/modules/waves/waves.service.ts:297-299 | and no other function has these properties |
| `Distances.DistanceInCoordinates` | src/modules/waves/waves.service.ts:289-299 | in coordinates: START is at zero, a missing number counts as zero and a missing level as the column |
| `Routing.LengthSpans` | src/modules/waves/waves.service.ts:297-299 | no route is shorter than the distance between any two of its stops |
| `Routing.CollectStops` | src/modules/waves/waves.service.ts:330-340 | the nested loops build the stops |
| `Routing.DistanceMatrix.NearestNeighbor` | src/modules/waves/waves.service.ts:301-321 | the loop over a matrix that grows meanwhile builds the route under the matrix as loaded |
| `Routing.DistanceMatrix.PickingPath` | src/modules/waves/waves.service.ts:330-371 | the whole path: legs and total under the matrix as loaded, and a matrix that only gained true entries |
| `Relocation.RelocationsMeetInTheMiddle` | src/modules/inventory/inventory-optimization.service.ts:96-125 | for non-negative rows: each row is used at most once, every warehouse keeps its total, donors end less than one unit under the mean, receivers less than one over |
| `Relocation.WholeRelocationsLevel` | src/modules/inventory/inventory-optimization.service.ts:96-125 | for whole non-negative rows: donors end at or above floor(mean), receivers at or below ceil(mean), no donor is overdrawn, and the sum of squared quantities does not grow |
| `Relocation.SuggestionsAreCoveredIff` | src/modules/inventory/inventory-optimization.service.ts:96-125 | every suggestion takes no more than its donor has exactly when the donor has at least one unit |
| `Relocation.RelocationsStayNonNegativeIff` | src/modules/inventory/inventory-optimization.service.ts:96-125 | carrying all suggestions out overdraws no row exactly when every donor has at least one unit |
| `Relocation.HalfUnitIsOverdrawn` | src/modules/inventory/inventory-optimization.service.ts:96-125 | rows of 0.5 and 0 in one warehouse: the only suggestion moves 1, leaves -0.5 and raises the sum of squares from 0.25 to 1.25 |
| `Relocation.SuggestionsLevelIff` | src/modules/inventory/inventory-optimization.service.ts:96-125 | for every suggestion on non-negative rows: carrying it out, alone or in its turn, raises the sum of squared quantities exactly when its rows are less than one unit apart |
| `Relocation.SuggestedQuantity` | src/modules/inventory/inventory-optimization.service.ts:112-121 | a suggestion moves the least whole number of units that closes the smaller of its two gaps to the mean |
| `Relocation.MeanIsTotalPerRow` | src/modules/inventory/inventory-optimization.service.ts:96-98 | the mean of a warehouse is its total over the number of its rows |
| `Relocation.QueuesAreComplete` | src/modules/inventory/inventory-optimization.service.ts:99-100 | a row is a donor exactly above 125% of the mean of its warehouse, and a receiver exactly below 75% |
| `Relocation.DonorsAreSound` | src/modules/inventory/inventory-optimization.service.ts:99-104 | donors are distinct rows above 125% of the mean, the largest first |
| `Relocation.ReceiversAreSound` | src/modules/inventory/inventory-optimization.service.ts:100-107 | receivers are distinct rows below 75% of the mean, the smallest first |
| `Relocation.PairOffIs` | src/modules/inventory/inventory-optimization.service.ts:109-124 | the i-th donor is paired with the i-th receiver until one queue or the limit is exhausted |
| `Relocation.SuggestRelocations` | src/modules/inventory/inventory-optimization.service.ts:86-125 | the loops over warehouses and queues build those suggestions |
| `Abc.ClassesAreLongestPrefixes` | src/modules/slotting/slotting.service.ts:128-141 | classes form A*, B*, C*; the first k products hold at most 80% of consumption exactly when k is at most the number of As, at most 95% exactly when at most the number of As and Bs |
| `Abc.LargerConsumerIsNotWorse` | src/modules/slotting/slotting.service.ts:128-141 | every product gets a class, and a strictly larger consumer never a worse one |
| `Abc.NothingConsumedIsAllA` | src/modules/slotting/slotting.service.ts:130-136 | without any consumption every product is in class A |
| `Abc.CalculateAbc` | src/modules/slotting/slotting.service.ts:128-141 | the accumulating loop assigns those classes |
| `TenantCode.CandidatesDiffer` | src/modules/onboarding/onboarding.service.ts:36-46 | the codes probed are pairwise distinct |
| `TenantCode.ProbesAreNumbered` | src/modules/onboarding/onboarding.service.ts:36-46 | the first code probed is the base name, every other one the base name, a dash and the number of the probe |
| `TenantCode.TakenProbesAreCounted` | src/modules/onboarding/onboarding.service.ts:36-46 | n taken probes need n taken codes |
| `TenantCode.GenerateTenantCode` | src/modules/onboarding/onboarding.service.ts:36-46 | the loop ends within one more probe than there are taken codes, at the first free candidate |

## Left out

- Storage: rounding of decimals to the scale of a column, surrogate keys (an id is a position in its table), time stamps, users, notes, movement headers and adjustment records; a movement line carries the kind and reference of its header.
- Rows come in creation order and ties in a query are broken by position; the order in which the database or a JavaScript object lists groups is a parameter or arbitrary.
- Concurrency and tenants: calls of one tenant run one after the other, each as one transaction.
- Which of the two errors a rejected call gives is part of every call; as a condition on the tables it is stated for release and task creation only.
- Identifiers that a call resolves by code, such as a location code when receiving one line, are taken as resolved.
- CANCELLED receipts: no modelled call produces them.
- Movements registered by hand through the movements controller, transfer orders, slotting execution and picking tasks of waves: they write stock or log lines without the other side, so the ledger does not hold for them.
- Cycle counts created through their own controller: they skip the check for repeated keys. Its review call is modelled; its execute call is not: it finds a line by product and location only, so lines that differ in batch or unit fall together, and drops entries without a line before it submits the rest.
- Dispatches.ShippedWithinPacked: the total over all shipments is bounded in one direction only, because with a unit shipped twice it can still stay within what is packed in units that never left; `Reshipments.DispatchShipsWhatWaitsIff` is exact dispatch by dispatch.
- Order-line picked quantities over several task lines: a confirmation overwrites them from one task line (`PickingTasks.ConfirmationSetsStatus`), so they are not claimed to add up.
- The HMAC of a one-time password is an arbitrary function to 20-byte digests; a validation takes one time stamp and decodes the secret once.
- Lower-case letters outside ASCII in a typed secret; tenant names are taken as already normalised.
- Recovery codes and the rest of the second-factor flow.
- One objective per monitor; rule conditions are taken as parsed or not; `Monitoring.ActiveIffHeldLongEnough` needs a clock that does not run backwards and distinct rule ids.
- Floating point: ratios, means, distances and percentiles are exact; coordinates that are not numbers are left out.
- Group keys that collide with members every JavaScript object has, and fractional or missing chunk sizes other than the default.
- The fields of a wave copied from its first order or from the request, and the query for eligible orders.
- Travel times of a picking path, which are a constant multiple of the distances.
- Relocation.RelocationsMeetInTheMiddle: carrying a suggestion out shifts quantity between its two rows, which makes sense for rows of one product only; the final suggestion between warehouses, which moves between totals and not rows, is left out.
- XYZ classes, slotting scores and compatibility: sums, squared thresholds and single-branch guards that would only add easy members.
- The front end, controllers, validation of requests, guards, queues, cron jobs, webhooks, connectors and reports.
