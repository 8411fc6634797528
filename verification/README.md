# Route-card workshop: a verified model of the operation life cycle

This project models the core of a small manufacturing tracker. A **route card** is a job ticket for a batch of parts. It
holds a route of **operations**, each carried out at a work centre by an executor. An operation is started, paused,
resumed and stopped. Its counters record good, scrapped and held-back pieces, either in aggregate or per **item** (one row
per piece). The card's status is derived from its operations, and a group card's status from its child cards. Every change
is written to the card's **audit log**. An **initial snapshot** records the card as it was first saved. Each card carries an
**EAN-13 barcode** drawn from a running sequence. Catalogue operations and route steps carry **operation codes**: either
random "OP-XXXX" codes or automatic step codes 005, 010, ….

The browser (`app.js`) keeps the card list and the operation catalogue in memory and mutates them in place. Here they are
the fields of the class `Repository.Workshop`, whose methods reassign them. The per-record logic is datatypes and
functions over values, following the JavaScript helpers function by function. The server (`server.js`) normalizes what it
loads and merges the cards a browser uploads; module `ServerStore` models that.

Modules, bottom-up:
- `Records`: the records, with the loose JSON conventions made explicit:
  - blank quantities are `Option<int>`;
  - counters are `int`, clamped on read;
  - timestamps are `Option<int>` with JavaScript truthiness.
- `Decimal`: `String(n)`, `padStart`, `parseInt`.
- `Hms`: duration formatting.
- `Ledger`: quantities and items.
- `CardStatus`: the derived card status and process state.
- `RouteOrder`: the stable sort by `order`, automatic step codes and the draft editor's move.
- `OperationMachine`: the start, pause, resume and stop transitions and the running-time projection.
- `AuditLog`: `ensureCardMeta`, `recordCardLog` and `logCardDifferences`.
- `Ean13`: check digit, sequence and generation.
- `OpCodes`: random operation codes.
- `CardCopy`: copying a card.
- `Workflow`: applying an action to the stored cards, saving a draft.
- `ServerStore`: the server's load-time normalization and upload merge.
- `Repository`: the mutable workshop state.

Nondeterminism is passed in:
- the clock is a parameter `now` in milliseconds;
- `genId` becomes `GenId(prefix, token)`, with tokens taken from caller-supplied oracles (`tokens`, `logTokens`, `itemTokens`, …);
- `Math.random` codes come from an oracle `draws: nat -> string`, read from a cursor that each call advances and returns.

Durations are kept in whole milliseconds where the source divides by 1000.

Where the code and the system's specification disagree, the model follows the code:
- `start`, `resume` and `stop` apply from any status; only `pause` checks it.
  A `resume` of a running operation restarts its clock without banking the time since it started (`ResumeRunningDropsInterval`).
- A refused `stop` keeps the running time it has already banked.
- A card whose only active operations are PAUSED is reported IN_PROGRESS, not PAUSED.
- The browser's `ensureOperationCodes` regenerates every code (see Findings).

## Model

| member | source | states |
|---|---|---|
| Hms.FormatSecondsToHMS | app.js:117-126 | the text reads back as hours, minutes below 60 and seconds below 60 that add up to the duration clamped at zero; it is eight characters below 100 hours |
| Decimal.NatToStringValue | app.js:122-124 | `String(n)` is digits that read back as `n` |
| Decimal.PaddedValue | app.js:122-124 | `String(n).padStart(w, '0')` is all digits and still reads back as `n` |
| Ledger.ToSafeCount | app.js:182-186 | a count read from loose data is never negative: non-negative values are kept, negative ones read as 0 |
| Ledger.OperationQuantity | app.js:244-254 | the target is the operation's own quantity, else the card's, else blank; a stored 0 counts as set; blank exactly when both are blank |
| Ledger.OperationQuantityFixpoint | app.js:244-254 | writing the resolved target back into the operation and resolving again gives the same target |
| Ledger.CardPlannedQuantity | app.js:215-238 | the planned quantity is the card's clamped quantity when set, else taken from the snapshot or the item lists; blank exactly when every source is missing |
| Ledger.SumItemCountsAppend | app.js:256-263 | summing item counters is additive over concatenation |
| Ledger.SumItemCountsCovers | app.js:256-263 | every item's clamped counters are bounded by the sum |
| Ledger.SumItemCountsSame | app.js:256-263 | lists whose items have the same clamped counters have the same sum |
| Ledger.CalculateFinalResults | app.js:265-282 | an empty route reports zeros; the summary is OK exactly when the batch is 0 or the reported counters add up to it |
| Ledger.RouteIdxLast | app.js:267-271 | the stable sort by `order` ends with the step that has the largest key, last among equal keys |
| Ledger.LastInRouteUnique | app.js:267-271 | at most one step is last in route order |
| Ledger.FinalResultsOfLastStep | app.js:265-282 | the final counters are exactly the clamped counters of the last step in route order |
| Ledger.CleanItem | app.js:323-330 | a rebuilt item keeps its id (a blank one is drawn), its name and its clamped counters, and has quantity 1 |
| Ledger.CleanItemIdempotent | app.js:323-330 | rebuilding a rebuilt item changes nothing |
| Ledger.CleanItemsIdempotent | app.js:323-330 | cleaning the item list twice is cleaning it once |
| Ledger.ResizedItemsIdempotent | app.js:334-347 | resizing the per-item list twice to the same target is resizing it once |
| Ledger.BuildItemsFromTemplate | app.js:284-299 | exactly as many rows as the clamped quantity; each reuses the template row's id and name at the same position or gets a drawn id; every row has quantity 1 and zero counters |
| Ledger.NormalizedOp | app.js:313-352 | only items and counters change; the counters are non-negative; each item has quantity 1 and an id; per item, exactly as many rows as the resolved target, positions keeping id and name, counters the item sums; in aggregate, the same number of items and each counter clamped, a zero counter taken from the items' sum |
| Ledger.NormalizeOperationItems | app.js:313-352 | the loop that rebuilds the item list computes exactly `NormalizedOp` |
| Ledger.NormalizedOpIdempotent | app.js:313-352 | normalizing twice is normalizing once (in aggregate mode once the counters are non-negative, as `ensureCardMeta` guarantees) |
| Ledger.ItemEditValue | app.js:3682-3683 | a per-item counter edit is the smaller of the item's quantity (1 when unset) and the clamped input |
| Ledger.ItemEditOnCleanItem | app.js:3682-3683 | on a normalized item an edit records 0 or 1, and 1 for any positive input |
| CardStatus.ChildrenOf | app.js:177-180 | exactly the cards filed under the group, none added |
| CardStatus.RecalcCardStatus | app.js:678-722 | only the status changes; a group card takes the priority-chain status of its children (see GroupDoneIff, GroupPausedIff); for a non-group card DONE iff all operations are DONE (and there is one), IN_PROGRESS iff one is running or paused, PAUSED iff none is and some are done and some unstarted |
| CardStatus.OpsStatusFacts | app.js:704-721 | each of the four outcomes for a non-group card in both directions: DONE iff all done; IN_PROGRESS iff any active; PAUSED iff nothing active but done and unstarted steps; NOT_STARTED otherwise |
| CardStatus.AppendUnstartedToDone | app.js:704-721 | appending an unstarted operation to an all-DONE card reopens it as PAUSED |
| CardStatus.GroupDoneIff | app.js:679-702 | a group is DONE iff it has children and all are DONE |
| CardStatus.GroupPausedIff | app.js:679-702 | a group is PAUSED iff nothing runs and a child is PAUSED, or finished and unstarted children meet |
| CardStatus.ServerOpsStatus | server.js:241-257 | the server's status is never PAUSED |
| CardStatus.ServerVersusClient | server.js:241-257 | the server agrees with the browser except that the browser's PAUSED is the server's NOT_STARTED |
| CardStatus.ServerDoneIff | server.js:241-257 | the server reports DONE iff the route is non-empty and all finished |
| CardStatus.VisibleChildren | app.js:797 | archived children are dropped unless asked for; nothing else is |
| CardStatus.ProcessDoneIff | app.js:813-828 | the process state is DONE iff all operations are done, which is iff the status is DONE |
| CardStatus.ProcessMixedAndEmpty | app.js:813-828 | running and paused operations together show MIXED; no operations show NOT_STARTED |
| CardStatus.ProcessPausedForDoneAndUnstarted | app.js:813-828 | finished and unstarted operations with nothing running show PAUSED, as the stored status does |
| CardStatus.GroupPausedOpMixed | app.js:796-811 | in a group, a visible child with a paused operation forces MIXED unless every child is DONE |
| CardStatus.PausedOpChildNotDone | app.js:813-821 | a card with a paused operation is never DONE in the process state |
| CardStatus.ArchivedChildIgnored | app.js:797 | filing an archived child under a group does not change the default process state |
| CardStatus.EmptyGroupNotStarted | app.js:798 | a group with no visible children is NOT_STARTED |
| RouteOrder.SortedIdxSorted | app.js:303 | the stable sort lists positions in ascending (order, position) |
| RouteOrder.SortedIdxPermutes | app.js:303 | listing the operations in sorted order neither loses nor duplicates any |
| RouteOrder.RouteIdxFacts | app.js:303 | the route order is sorted, lists no position twice and is a permutation of the operations |
| RouteOrder.StepCodeDigits | app.js:240-242 | a step code is digits denoting five times the step, three of them up to step 199 |
| RouteOrder.StepCodeInjective | app.js:240-242 | distinct steps get distinct codes |
| RouteOrder.RenumberAutoCodes | app.js:301-311 | the walk in route order computes `Renumbered`: the array keeps its order and every field but automatic codes |
| RouteOrder.RenumberedAt | app.js:301-311 | an automatic step gets the code of its counter value and a manual step is untouched |
| RouteOrder.RenumberedCodeRank | app.js:301-311 | the k-th automatic step in route order gets code `formatStepCode(k)`, with k between 1 and the number of automatic steps |
| RouteOrder.RenumberedCodesDistinct | app.js:301-311 | after renumbering no two automatic steps share a code |
| RouteOrder.RenumberedIdempotent | app.js:301-311 | renumbering twice is renumbering once |
| RouteOrder.FindById | app.js:2704 | the first position holding the id, or none when no step has it |
| RouteOrder.SwapOrders | app.js:2708-2710 | the two steps exchange their `order` values and nothing else changes |
| RouteOrder.MoveRouteOpInDraft | app.js:2701-2713 | a missing step or a move past either end leaves the draft as it is; otherwise the operations become the route order with the two orders swapped, renumbered |
| RouteOrder.MoveFacts | app.js:2701-2713 | a move keeps the multiset of steps, keeps the moved step at its route position with its neighbour's order, and the neighbour is `delta` away |
| OperationMachine.StartOp | app.js:3239-3247 | from any state: IN_PROGRESS, started now, elapsed 0, pause, finish and actual time cleared, first start set only if unset, nothing else changed |
| OperationMachine.PauseOp | app.js:3248-3256 | an operation not in progress is unchanged; otherwise its running interval is banked, it is paused now and the start time is cleared |
| OperationMachine.ResumeOp | app.js:3257-3266 | from any state: IN_PROGRESS from now; stored elapsed time is kept, seeded from the actual time only for a DONE operation without one |
| OperationMachine.FirstWrongItem | app.js:3277-3281 | the first item whose counters miss its expected pieces, or none exactly when all add up |
| OperationMachine.ApplyToOp | app.js:3239-3296 | only a stop can be refused |
| OperationMachine.FlushKeepsItems | app.js:3268-3273 | banking the running time changes nothing the quantity gate reads |
| OperationMachine.StopRejectedPerItem | app.js:3274-3284 | counting per item, a stop is refused iff some normalized row does not hold exactly one piece, and the refusal names the first such row |
| OperationMachine.StopRejectedAggregate | app.js:3285-3291 | counting in aggregate, a stop is refused iff the resolved target is positive and the counters miss it, with the quantity reason |
| OperationMachine.StopRejectedKeepsState | app.js:3267-3291 | a refused stop leaves status, start and finish times as they were and keeps the banked running time |
| OperationMachine.StopAppliedFinishes | app.js:3292-3296 | a stop that goes through is DONE, finished now, with actual time equal to what the projection showed |
| OperationMachine.PausePreservesElapsed | app.js:155-161 | pausing freezes exactly what the running-time projection showed |
| OperationMachine.ResumePreservesElapsed | app.js:3257-3266 | resuming an operation that is not running does not change the projection at that moment, unless it is DONE with no stored time |
| OperationMachine.ResumeDoneSeedsActual | app.js:3257-3266 | resuming a DONE operation with no stored time makes the projection jump from 0 to its actual time |
| OperationMachine.ResumeRunningDropsInterval | app.js:3257-3266 | resuming a running operation restarts its clock without banking, so the time since it started drops out of the projection |
| OperationMachine.PauseResumePause | app.js:3248-3266 | pause, resume and pause again bank both running intervals |
| OperationMachine.StartThenElapsed | app.js:155-161 | after a start the projection counts from the start time |
| OperationMachine.RejectedStopDoubleCounts | app.js:3267-3291 | a refused stop of a running operation makes the projection jump by the running interval and a later pause bank it a second time |
| OperationMachine.RejectedStopExample | app.js:3267-3291 | 5 pieces with none counted, running from 1000, stopped at 2000 and paused at 3000, reports 3000 ms for 2000 ms of work |
| OperationMachine.StopOpFixed | app.js:3267-3296 | refused exactly when the source refuses, but then the operation is left exactly as it was; an applied stop is the source's |
| OperationMachine.StopFixedPreservesElapsed | app.js:3267-3296 | with the fix no outcome of a stop changes the projection at that moment |
| AuditLog.FormatLogValue | app.js:401-410 | null and undefined log as empty, strings as they are, booleans as "true"/"false" |
| AuditLog.FormatLogValueCount | app.js:404 | a logged count reads back as the same number |
| AuditLog.OpLabel | app.js:870-874 | "[code] name", or the name alone without a code |
| AuditLog.OpLogLabel | app.js:427-429 | never empty; the operation label when it has one |
| AuditLog.TakeTwo | app.js:393-395 | at most two additional executors, the first ones, all of them when there are at most two |
| AuditLog.PrepareOp | app.js:387-395 | counters non-negative and at most two additional executors |
| AuditLog.WithSnapshot | app.js:375-385 | a missing creation time is stamped, a missing snapshot taken with an empty log; existing ones are kept; nothing else changes |
| AuditLog.EnsureCardMeta | app.js:367-399 | the log is untouched; creation time and snapshot exist afterwards and existing ones are kept; a new snapshot has an empty log; every operation keeps its id and order, with non-negative counters and at most two extra executors |
| AuditLog.EnsureCardMetaOps | app.js:386-398 | each operation, step code aside, is the cleaned operation (counters clamped, quantity resolved, executors cut, items normalized); an automatic step gets the code of its rank among the automatic steps in route order, a manual step keeps its code |
| AuditLog.MetaOpStable | app.js:386-397 | cleaning an operation a second time changes nothing, whatever step code it got in between |
| AuditLog.EnsureCardMetaIdempotent | app.js:367-399 | a card that has been through `ensureCardMeta` is left as it is, at any later time |
| AuditLog.EnsureCardMetaKeeps | app.js:367-399 | only the creation time, the snapshot and the operations change |
| AuditLog.EnsureCardMetaLogsOnly | app.js:367-399 | the clean-up never reads the log, so replacing the log commutes with it |
| AuditLog.StaysClean | app.js:367-399 | a clean card stays clean after an edit of fields the clean-up does not read |
| AuditLog.LogEntryOf | app.js:415-424 | the entry is stamped now, has a non-empty action, and formats the old and new values |
| AuditLog.RecordCardLog | app.js:412-425 | the log grows by exactly that entry at the end; the rest is what `ensureCardMeta` makes of the card |
| AuditLog.RecordAll | app.js:3300-3308 | several entries in a row append one entry per request, in order; no request changes nothing |
| AuditLog.TrimStart | app.js:1808 | the result is a suffix not starting with whitespace, and everything dropped is whitespace |
| AuditLog.TrimEnd | app.js:1808 | the result is a prefix not ending with whitespace, and everything dropped is whitespace |
| AuditLog.FieldChange | app.js:1781-1783 | one entry exactly when the loose values differ |
| AuditLog.LastById | app.js:1802-1806 | the map lookup finds an operation with that id, or none exactly when no operation has it |
| AuditLog.LastOpById | app.js:1802-1803 | the map keeps the last entry: the lookup yields the last operation with the id |
| AuditLog.BlankEqualsZero | app.js:1781 | a blank quantity and a quantity of 0 compare equal, so nothing is logged |
| AuditLog.DifferencesOfSelf | app.js:1776-1834 | saving a card unchanged logs nothing, provided its step ids are distinct |
| AuditLog.UpdatedOpChangesSelf | app.js:1805-1827 | steps taken unchanged from a route with distinct ids log nothing as added or changed |
| AuditLog.RemovedOpsNone | app.js:1829-1833 | when every original step id is still present, nothing is logged as removed |
| AuditLog.AddedOpsLogged | app.js:1805-1810 | each step whose id is new is logged as added, naming its id and place |
| AuditLog.RemovedOpsLogged | app.js:1829-1833 | each step whose id disappeared is logged as removed, naming its id and place |
| AuditLog.LogCardDifferences | app.js:1776-1834 | on a cleaned card, the log grows by one entry per difference, in order, and nothing else changes |
| Workflow.FindCard | app.js:1463 | the first card with the id, or none when no card has it |
| Workflow.WithOp | app.js:3231-3296 | the card with exactly one operation replaced |
| Workflow.RoundSeconds | app.js:3304 | the nearest whole second, halves rounded up |
| Workflow.StatusValue | app.js:3301 | the logged status text is the status name, or empty when missing |
| Workflow.ActionLogRequests | app.js:3300-3308 | at most three entries: a changed operation status first, a changed card status last, the actual time between; none iff nothing changed |
| Workflow.Recalced | app.js:3299 | the card with the operation replaced differs from it only in status |
| Workflow.AppliedCard | app.js:3299-3308 | the log grows by the requested entries only, at most three; the status is the recomputed one; with no entry the card is just recomputed |
| Workflow.OpStatusChangeLogged | app.js:3300-3302 | a changed operation status is the first new entry, with the old and new names |
| Workflow.CardStatusChangeLogged | app.js:3306-3308 | a changed card status is the last new entry, with the old and new names |
| Workflow.UnchangedActionLogsNothing | app.js:3299-3308 | an action that leaves the operation and the card status as they were changes nothing and logs nothing, unless the operation is DONE without a stored elapsed time |
| Workflow.PauseIdleLogsNothing | app.js:3248-3308 | pausing an operation that is not running changes nothing on a card whose status is current |
| Workflow.StartMakesCardInProgress | app.js:3239-3299 | starting any operation of a non-group card makes the card IN_PROGRESS |
| Workflow.OutcomeCard | app.js:3282-3291 | a refused stop replaces the operation alone; no outcome loses a log entry |
| Workflow.ActionResult | app.js:3231-3323 | the list keeps its length and every other card; no log entry is lost; only a stop is refused, and a refusal logs nothing and changes no status |
| Workflow.DraftItem | app.js:1715-1722 | a draft item keeps its id (a blank one is drawn) and name, has quantity 1 and keeps its clamped counters |
| Workflow.DraftOp | app.js:1706-1723 | a draft operation keeps id, status and elapsed time, gets its position as order when it has none, has clamped counters, at most two extra executors, and rebuilt items |
| Workflow.PreparedDraft | app.js:1703-1725 | only operations and status change; every operation keeps its id and has an order; for a non-group card IN_PROGRESS iff one is active and DONE iff all done |
| Workflow.NewCardSaved | app.js:1727-1736 | a new card has a creation time and a snapshot (with an empty log when the draft had none), the prepared status, and exactly one creation entry after its log naming the card or its barcode |
| Workflow.MergedDraft | app.js:1740-1747 | the stored log, snapshot and truthy creation time survive the edit; the result is already clean |
| Workflow.EditedCard | app.js:1738-1750 | the stored history is a prefix of the new log; snapshot and creation time survive; the id and status are the draft's |
| CardCopy.CopyItem | app.js:1447-1454 | a copied item has a new id, zero counters and a quantity of at least 1, kept when it was positive |
| CardCopy.CopyOp | app.js:1434-1457 | a copied operation has a new id, is unstarted with no times, result or comment, and keeps order, code flag, catalogue link and first-start and last-pause times |
| CardCopy.CopyAttachments | app.js:1429-1433 | attachments get new ids and are stamped now |
| CardCopy.BuildCardCopy | app.js:1416-1460 | a new id and the given barcode, unstarted, unarchived, empty log, no snapshot, and a fresh copy of every operation in the same order |
| CardCopy.FreshOpsNotStarted | app.js:1466 | a card whose operations never ran has status NOT_STARTED |
| CardCopy.DuplicateFacts | app.js:1462-1477 | the duplicate is named "(копия)", unstarted, has one log entry recording the old and new barcode, and a snapshot of fresh operations with an empty log |
| Ean13.CheckDigitOf | server.js:53-55 | the check digit is below ten |
| Ean13.CheckDigitValid | server.js:42-56 | appending a digit to twelve digits gives a valid EAN-13 code iff that digit is the check digit |
| Ean13.ComputeCheckDigit | app.js:457-475 | fails exactly on a base that is not twelve digits; otherwise returns the check digit |
| Ean13.ServerCheckDigit | server.js:42-56 | the check digit of the first twelve characters when they are digits, "NaN" otherwise |
| Ean13.SequenceBase | server.js:59 | digits, at least twelve, denoting the sequence number clamped at zero |
| Ean13.BuildEAN13Facts | server.js:58-61 | below 10^12 the code is a valid EAN-13 whose first twelve digits are the sequence number; negative numbers build the code of 0 |
| Ean13.BuildEAN13Injective | server.js:58-61 | distinct sequence numbers below 10^12 give distinct codes |
| Ean13.BuildEAN13FromSequenceChecked | app.js:477-481 | the browser's build succeeds iff the number fits twelve digits, with the server's code |
| Ean13.MaxSequence | server.js:63-71 | the largest sequence number among well-formed barcodes, 0 when there is none |
| Ean13.NextEANSequence | server.js:63-71 | at least 1 and above every sequence number in use |
| Ean13.NextCodeUnused | server.js:63-83 | no card's barcode equals the code of the next sequence number |
| Ean13.GenerateUniqueEAN13 | server.js:73-83 | one of the 1001 candidates; unused unless it is the last one; below 10^12 the first candidate, valid and unused |
| Ean13.CandidateChecked | app.js:477-481 | the browser's candidate exists iff it fits twelve digits and is then a valid code |
| Ean13.GenerateUniqueEAN13App | app.js:495-505 | a valid, unused first candidate below 10^12; failure once the sequence runs out of digits |
| OpCodes.RawOpCode | server.js:85-87 | every raw code starts with "OP-" |
| OpCodes.FirstFreeDrawUnique | server.js:89-97 | the draw the generator settles on is unique |
| OpCodes.GenerateUniqueOpCode | server.js:89-97 | the first draw not in use, or the last of 1000 retries, and the cursor moves past it |
| OpCodes.GenerateUniqueOpCodeApp | app.js:96-105 | the browser also retries an empty code, but settles on the same draw as the server |
| OpCodes.AssignCatalogCodes | server.js:323-330 | only codes change and none is blank; a non-blank code not yet used is kept; when every draw was free, regenerated codes avoid the seed set and all codes are distinct |
| OpCodes.CatalogKeptWhenUnique | server.js:323-330 | a catalogue with unique, present codes is left as it is |
| OpCodes.CatalogAllRegenerated | app.js:899-907 | seeding `used` with every existing code regenerates every catalogue code |
| OpCodes.SourceOf | server.js:332-338 | the catalogue operation a route step links to, or none when the link is blank or dangling |
| OpCodes.LastCatalogOp | server.js:332 | the map keeps the last entry: a linked step finds the last catalogue operation with its id |
| OpCodes.AssignCatalogCodesFresh | server.js:321-330 | the server's catalogue pass keeps a unique catalogue and otherwise repairs it |
| OpCodes.AssignRouteCodesServer | server.js:334-345 | only route codes change: the source's code, else the step's own, else a drawn one |
| OpCodes.AppRouteStep | app.js:912-922 | one step of the browser's route pass: only the code changes, never to blank, and it avoids the used set when the draw found a free code |
| OpCodes.AssignRouteCodesApp | app.js:911-923 | the browser's route pass changes only codes, never to blank, avoiding the used set when every draw was free |
| OpCodes.AssignCardCodesApp | app.js:909-925 | every card keeps everything but its route codes |
| ServerStore.ServerOpCounts | server.js:277-290 | counters clamped at zero, at most two extra executors, missing status NOT_STARTED, a blank quantity taken from the card |
| ServerStore.ServerOpTimes | server.js:272-276 | falsy start and finish times become null, a missing elapsed time is taken from the actual time, a missing first start from the start |
| ServerStore.NormalizeServerOps | server.js:269-290 | every operation repaired, the route keeping its length |
| ServerStore.NormalizeLogEntry | server.js:294-303 | a log entry has an id and an action, and empty optional strings become null |
| ServerStore.NormalizeAttachment | server.js:307-314 | an attachment has an id and a name, and keeps a truthy creation time |
| ServerStore.NormalizeCard | server.js:259-318 | a name, a creation time, the same id, barcode, quantity and snapshot, repaired operations, and the server's status (never PAUSED, DONE iff all done) |
| ServerStore.NormalizeServerOpIdempotent | server.js:269-290 | repairing an operation twice is repairing it once for a non-negative or blank card quantity |
| ServerStore.NormalizeServerOpsIdempotent | server.js:269-290 | repairing a route twice is repairing it once for a non-negative or blank card quantity |
| ServerStore.NormalizeServerOpNegativeCardQuantity | server.js:261-290 | a card quantity of -3 gives a blank operation -3, and a second pass 0 |
| ServerStore.NormalizeCardIdempotent | server.js:259-318 | normalizing a card twice is normalizing it once, for a non-negative or blank quantity |
| ServerStore.NormalizeLogsIdempotent | server.js:293-304 | repairing the log twice is repairing it once |
| ServerStore.NormalizeAttachmentsIdempotent | server.js:306-315 | repairing attachments twice is repairing them once |
| ServerStore.EnsureOperationCodes | server.js:320-350 | the catalogue is kept when unique and otherwise repaired; every card keeps all but its route codes and gets the server's status |
| ServerStore.FixBarcodes | server.js:360-365 | only barcodes change, well-formed ones never; while the sequence has room every barcode becomes well formed and each repaired one is unique |
| ServerStore.NormalizeData | server.js:352-367 | every card keeps its id, route length and well-formed barcode, has the server's status, and every operation is coded, with non-negative counters and a status |
| ServerStore.LastCardById | server.js:370 | the stored card with that id, or none when no stored card has it |
| ServerStore.MergeCard | server.js:372-389 | a stored truthy creation time and a stored snapshot win; otherwise the upload's, or now and a snapshot with an empty log; nothing else changes |
| ServerStore.MergeSnapshotsShape | server.js:369-392 | the result is the uploaded cards, in order, with their ids, operations and logs, each with a snapshot |
| ServerStore.MergeSnapshotsKeepsStored | server.js:377-383 | a card the server already holds keeps the stored snapshot and its truthy creation time |
| ServerStore.MergeSnapshotsIdempotent | server.js:369-392 | merging the merged upload again changes nothing |
| Repository.CollectUsedOpCodes | app.js:885-896 | exactly the non-empty codes of the catalogue and of every route |
| Repository.SaveEdit | app.js:1738-1750 | the stored edit is `EditedCard` |
| Repository.ApplyAction | app.js:3231-3323 | applying an action to the stored cards computes `ActionResult` |
| Repository.DuplicatedFacts | app.js:1462-1477 | a missing card or an exhausted sequence changes nothing; otherwise one card is appended, with a valid barcode no card uses |
| Repository.FirstCandidateFree | app.js:483-505 | below 10^12 the first code the browser tries is valid and unused |
| Repository.DuplicateInto | app.js:1462-1477 | duplicating with the browser's barcode draw computes `Duplicated` |
| Repository.SaveDraftInto | app.js:1703-1755 | a new draft is appended as `NewCardSaved`; an edit replaces the card as `EditedCard`; a missing original changes nothing |
| Repository.EnsuredCodes | app.js:898-926 | only codes change, none blank; when every draw was free every catalogue and route code differs from before, and no route code is a catalogue code |
| Repository.EnsuredCodesCorrected | app.js:898-926 | a unique catalogue is kept and otherwise repaired; route steps take their catalogue code |
| Repository.Workshop.ApplyOperationAction | app.js:3231-3323 | the cards become `ActionResult` of the old cards; the catalogue is untouched |
| Repository.Workshop.DuplicateCard | app.js:1462-1477 | the cards become `Duplicated` of the old cards; the catalogue is untouched |
| Repository.Workshop.SaveCardDraft | app.js:1703-1755 | the new cards satisfy `DraftSaved` against the old; the catalogue is untouched |
| Repository.Workshop.EnsureOperationCodes | app.js:898-926 | the browser pass as written on the workshop state |
| Repository.Workshop.EnsureOperationCodesCorrected | app.js:898-926 | the corrected pass on the workshop state |

## Left out

- DOM rendering, event wiring, modals, scroll locking and the dashboard: presentation only.
- Network I/O: saving and loading, the HTTP API, sessions and password hashing.
- Timers and the per-second redraw: the clock is the parameter `now`.
- Fresh ids and random codes: these are caller-supplied oracles. Their global uniqueness is not claimed.
- `duplicateGroup`: it copies a group card together with its children. Only single-card duplication is modelled.
- Attachment contents (FileReader, base64) and `formatBytes`: binary and float formatting. Attachments are records without content.
- `formatLogValue` on objects: `JSON.stringify` is not modelled. Such a value is passed in already serialized.
- Fractional seconds: times are whole milliseconds, so `formatSecondsToHMS` receives whole seconds.
- The recompute of a parent group's status after a child changes: `recalcCardStatus` reads the global list; the model passes the children explicitly and recomputes only the card acted on.
- Type coercions of loose JSON (`String(...)`, `Boolean(...)`, `typeof` checks on fields other than those modelled): the records are already typed.
- `trim`: whitespace is tab, line feed, vertical tab, form feed, carriage return, space, no-break space, byte-order mark and the line and paragraph separators. The other Unicode space separators are not trimmed.
- The blur handler around the per-item counter edit: only the clamp it applies is modelled.
- ServerStore.NormalizeCardIdempotent: holds only for a non-negative or blank card quantity. A negative card quantity is copied into a blank operation quantity and clamped on the next pass (NormalizeServerOpNegativeCardQuantity).
- RouteOrder.MoveRouteOpInDraft: takes the draft card as a parameter and returns the moved draft. The in-place swap on shared operation objects is modelled by value.

## Findings

| source | as written | input that shows it | evidently intended | confidence | as-written member | corrected member |
|---|---|---|---|---|---|---|
| app.js:3267-3291 | a refused `stop` of a running operation has already added the running interval to `elapsedSeconds` but leaves it IN_PROGRESS with the same `startedAt` | 5 pieces, none counted, running since 1000 ms; stop at 2000 ms is refused; pause at 3000 ms records 3000 ms for 2000 ms of work | a refused stop leaves the operation unchanged, so the interval is banked once | not executed | OperationMachine.RejectedStopDoubleCounts | OperationMachine.StopFixedPreservesElapsed |
| app.js:898-926 | the browser's `ensureOperationCodes` seeds `used` with every existing code, so every catalogue code and every route code is found "in use" and regenerated on each load | a catalogue with one operation coded "OP-AAAA" and a route step linked to it: both get new codes, and the step's code differs from the catalogue's | keep unique existing codes and let route steps take their catalogue operation's code, as the server does | not executed | Repository.EnsuredCodes | Repository.EnsuredCodesCorrected |
