# Verified model of the POS back-office API

A Dafny 4.11 model of the parts of the API whose behaviour spans many calls: settlement of
receivables, the stock ledger, HTTP idempotency, POS operator sessions, terminal pairing, keyset
pagination and the fixed-window rate limiter, with proofs of what every run of them keeps.
`dafny verify dfyconfig.toml` checks all of it.

## How it is modelled

Tables and Redis keys are sequences and maps of rows. One `runWithTenantContext` callback is one
atomic step, because it commits on success and rolls back on a throw
(`apps/api/src/db/db-context.ts`); a bare `pool.query` or Redis command is a step of its own. Each
part that mutates tables comes twice:

* a **step function** over the table values (`Settlement`, `Inventory`, `Idempotency`,
  `OperatorSessions`, `Pairing`, `RateLimit`), from which runs are built and about which the
  run-wide theorems are proved;
* a **class with the source's statements and loops** (`SettlementService`, `InventoryService`,
  `IdempotencyInterceptor`, `OperatorService`, `PairingService`, `RateLimit.RedisKey`), each method
  proved to have exactly the effect and the answer of the step function.

What a step function accepts, answers and writes is stated once more in plain columns
(`SettlementEffects`, `InventoryEffects`, the `…AloneIff` and `…Effects` lemmas), so that no
theorem rests on the step function's own reading of the source.

Every tenant has its own tables; the tenant is a given. Identifiers are numbers; fresh ones are
parameters or positions. Clocks are parameters. Hashes are injective. Money and quantities are
integers in ten-thousandths; money also exists as text, with the parsers and the printer modelled
character by character.

| file | what it holds |
|---|---|
| `Basics.dfy` | options, sums over sequences, text functions |
| `Money.dfy`, `Decisions.dfy` | money text, the two settlement decisions, the state table, first-in-first-out shares |
| `Settlement.dfy`, `SettlementService.dfy`, `SettlementEffects.dfy`, `SettlementRuns.dfy`, `SettlementClaims.dfy` | receivables, payments, claims, remittances |
| `Inventory.dfy`, `InventoryService.dfy`, `InventoryEffects.dfy`, `InventoryRuns.dfy`, `InventoryReads.dfy`, `InventoryBackfill.dfy` | the stock ledger, its five writers, stale reads, redelivered backfills |
| `Idempotency.dfy`, `IdempotencyInterceptor.dfy` | the idempotency protocol and one request of it |
| `OperatorSessions.dfy`, `OperatorTakeovers.dfy`, `OperatorService.dfy` | sign-in, takeover, sign-out |
| `Pairing.dfy`, `PairingService.dfy` | one-time codes redeemed by racing terminals |
| `Paging.dfy`, `Listings.dfy` | the walk over pages, cursor text, the audit and dead-letter listings |
| `RateLimit.dfy` | the counter with a TTL |

## Where the code does not do what is said of it

The model follows the code. For each point a lemma gives an input that shows it, and another says
exactly when the promise holds.

* A receivable can be in two claims: `applyPayment` accepts a `claimed` receivable, and a partial
  payment makes it claimable again. `DoubleClaimExample` is a run that does it. A run does it if and
  only if an accepted payment leaves a claimed receivable partly open and a later accepted claim
  names it (`TwoClaimsIff`); both claims await a remittance at once if and only if the earlier one
  has not been reconciled by then (`TwoOpenClaimsIff`). When a receivable is settled that way, its
  other open claim can never be reconciled (`CanBeReconciledIff`).
* The unsigned money parser misreads every negative amount with a fraction, such as the variance of
  a flagged reconciliation (`UnsignedRoundTripIff`, `ReconciliationVariance`). This is latent:
  nothing in the repository reads a variance with it.
* "At most one handler run" needs five things the code does not enforce: one tenant per tuple, the
  save before the marker's delete, no lost save, a marker that outlives its handler, and a stored
  entry that outlives the retries. The comment in `in-progress-marker.ts` has a tenant in the key;
  `composeTuple` has none. `SafeIff` shows the five are exactly what is needed, with a run from the
  start for each (the `Unsafe…` lemmas).
* A unit conflict found by the insert is meant to come out as the same 400 as one found by the
  check, but the translation queries inside the transaction the failed insert has aborted, so the
  client gets another error (`Aborted`; `AbortedExample`). That happens if and only if the check
  passed on the movements it saw and would fail on all of them (`AbortedIff`), which is when it saw
  none of the key (`PassedByMissing`). The ledger is unaffected.
* A count does not reset on-hand to the counted quantity unless what committed between its read and
  its correction sums to zero (`CountResets`, `MissedMovementExample`). A zero-variance count
  inserts no movement, so nothing catches its stale unit check (`StaleCheckOfCount`,
  `StaleCountExample`).
* A sign-in checks and inserts in two statements: two sessions can go active exactly when something
  else was about to insert one (`SignInSafeIff`, `RacingSignInsExample`).
* A takeover event mints twice when it is submitted twice at once, when the process stops between
  the insert and the key update, or when its key is deleted (`TwiceWithoutSerial`,
  `TwiceWithoutRecord`, `TwiceWithoutKey`); never otherwise (`MintsOnceIff`).
* A refused device insert aborts the pairing transaction, so `already_provisioned` leaves the code
  pending. `BurnRefusedIff` says when a redemption gets there, `RacingCodesExample` is a run that
  does, and `NeverPairedAgain` adds that a terminal with a device, even a revoked one, can never be
  paired again.
* The audit cursor is cut to the millisecond, so a page boundary inside a millisecond can lose rows
  (`LossyWalkExample`); which rows, and when none, is exact (`WalkShows`, `CompleteIff`).
* The audit `action` filter is a prefix match if and only if the text has no `%`, `_` or backslash
  (`PrefixFilterIff`, whose proof builds a stray match for every other text).
* If the first hit of a rate-limit window stops between INCR and PEXPIRE, the window never rolls
  (`StuckExample`) and its limit is never given again (`NeverAllowedAgain`); a window can still roll
  if and only if that has not happened (`RollsIff`).

## Model

| member | source | states |
|---|---|---|
| Money.ParsesExactDecimal | apps/api/src/settlement/claim.service.ts:64-68 | the unsigned parser reads `w.f` as the numeral moved four places, a short fraction padded and a long one cut |
| Money.SignedRoundTrip | apps/api/src/settlement/apply-payment-decision.ts:30-47 | printing any integer and reading it with the sign-aware parser gives it back |
| Money.UnsignedRoundTripIff | apps/api/src/settlement/reconcile-decision.ts:18-31 | the unsigned parser reads a printed amount back if and only if it is non-negative or whole, and what it reads otherwise |
| Money.ParsersAgreeIff | apps/api/src/settlement/apply-payment-decision.ts:30-37 | the exact texts on which the sign-aware and the unsigned parser agree, blanks and prefixed literals included |
| Money.SumScaled | apps/api/src/settlement/claim.service.ts:78-82 | the loop prints exactly the integer sum of the amounts read, and throws if and only if one is unreadable |
| Decisions.ApplicationExact | apps/api/src/settlement/apply-payment-decision.ts:66-76 | refuses exactly an amount above the balance; otherwise new balance plus amount is the old balance, settled exactly at zero |
| Decisions.ReconciliationVariance | apps/api/src/settlement/reconcile-decision.ts:46-60 | the recorded variance is exactly claimed minus remitted to the sign-aware parser, decides the outcome by its sign, and is misread by the unsigned one exactly in the stated case |
| Fifo.SharesSum | apps/api/src/settlement/claim.service.ts:259-266 | the first k lines together absorb the remittance or their own total, whichever is smaller |
| Fifo.PrefixCleared | apps/api/src/settlement/claim.service.ts:259-275 | a prefix of lines is cleared, at most one line is partly reduced, the rest are untouched |
| SettlementService.SettlementService.OpenFromIntent | apps/api/src/settlement/receivable.service.ts:146-209 | inserts all receivables of the intent or none, with the stated refusals |
| SettlementService.SettlementService.ApplyPayment | apps/api/src/settlement/receivable.service.ts:223-290 | the row, version and payment written, computed through money text, equal the integer step; refusals write nothing |
| SettlementService.SettlementService.LockBatch | apps/api/src/settlement/claim.service.ts:100-127 | a store is found exactly when every receivable exists, is claimable, belongs to the payer and shares one store |
| SettlementService.SettlementService.SubmitClaim | apps/api/src/settlement/claim.service.ts:88-165 | the claim, its links over the deduplicated references and the state changes equal the step, or nothing changes |
| SettlementService.SettlementService.SelectLines | apps/api/src/settlement/claim.service.ts:185-201 | exactly the claim's existing receivables, once each, in id order |
| SettlementService.DecideOnLines | apps/api/src/settlement/claim.service.ts:203-207 | summing, printing and re-reading the balances loses nothing: outcome and variance are those of the integers |
| SettlementService.SettlementService.ClearLines | apps/api/src/settlement/claim.service.ts:248-257 | the settled and flagged loop gives every line its first-in-first-out share |
| SettlementService.SettlementService.ApportionPartial | apps/api/src/settlement/claim.service.ts:258-275 | the loop with its running remainder, early break and zero skip gives each line the smaller of its balance and what earlier lines left |
| SettlementService.SettlementService.ReconcileRemittance | apps/api/src/settlement/claim.service.ts:167-298 | remittance, result, line balances, states and claim status equal the step; every refusal leaves all tables as they were |
| Settlement.NothingLeft | apps/api/src/settlement/claim.service.ts:262-265 | breaking out once nothing remains changes no row that the full loop would change |
| Settlement.AbsorbAllAt | apps/api/src/settlement/claim.service.ts:248-275 | each distinct line absorbs exactly its own share |
| SettlementEffects.OpenAcceptedIff | apps/api/src/settlement/receivable.service.ts:146-209 | accepted exactly when every payer is in scope, the sale is the store's, every amount fits and every id is new |
| SettlementEffects.OpenEffects | apps/api/src/settlement/receivable.service.ts:146-209 | each owed amount becomes one open receivable of its payer at version 0, and nothing else changes |
| SettlementEffects.PayAcceptedIff | apps/api/src/settlement/receivable.service.ts:223-290 | a payment is accepted exactly when it carries the row's version, the row is neither settled nor flagged, and the amount is positive and at most the balance; a stale version is a conflict |
| SettlementEffects.PayEffects | apps/api/src/settlement/receivable.service.ts:223-290 | the amount leaves that balance alone, one payment is recorded, the version goes up by one, settled exactly at zero |
| SettlementEffects.SubmitAcceptedIff | apps/api/src/settlement/claim.service.ts:88-127 | accepted exactly for a new claim of a known payer over a non-empty batch of its open or partly paid receivables of one store |
| SettlementEffects.SubmittedClaim | apps/api/src/settlement/claim.service.ts:130-135 | the new claim is submitted at version 0, for the payer and the receivables' store |
| SettlementEffects.SubmittedLinks | apps/api/src/settlement/claim.service.ts:136-143 | the claim is linked to each named receivable once, and nothing else is linked |
| SettlementEffects.SubmittedReceivables | apps/api/src/settlement/claim.service.ts:144-149 | each named receivable becomes claimed with its balance kept and its version bumped; the others stay |
| SettlementEffects.ReconcileAcceptedIff | apps/api/src/settlement/claim.service.ts:167-223 | accepted exactly for a claim not yet reconciled with lines, all of them still claimed, and amounts the columns hold |
| SettlementEffects.LinesInOrder | apps/api/src/settlement/claim.service.ts:185-201 | a claim's lines are exactly its linked receivables, strictly ascending by id |
| SettlementEffects.LinesAfter | apps/api/src/settlement/claim.service.ts:241-275 | each line ends settled at 0 exactly when the remittance equals the claim total, flagged at 0 exactly when it is more, claimed exactly when it is less; every other receivable stays |
| SettlementEffects.SmallestFirst | apps/api/src/settlement/claim.service.ts:258-275 | of two lines of a claim, the one with the larger id is reduced only if the other ends at 0 |
| SettlementEffects.ReconcileRecords | apps/api/src/settlement/claim.service.ts:209-282 | one remittance and one result are appended, with variance claimed minus remitted and its outcome, and that claim alone is closed |
| SettlementRuns.LineSharesTotal | apps/api/src/settlement/claim.service.ts:203-275 | the lines of a claim together absorb the remittance capped by the claim total |
| SettlementRuns.ClaimBalancesLeft | apps/api/src/settlement/claim.service.ts:248-275 | whatever the outcome, after a reconciliation the claim's line balances add up to the larger of zero and claimed minus remitted |
| SettlementRuns.StepKeeps | apps/api/src/settlement/receivable-state-machine.ts:46-72 | every action keeps the invariant, moves states only along the table or stays put, bumps the version of a changed row by one, and changes nothing when refused |
| SettlementRuns.RunKeeps | apps/api/src/settlement/claim.service.ts:88-298 | in every reachable state claims are non-empty with one payer and one store, a claim has one result exactly when reconciled, terminal receivables owe nothing, and money is conserved |
| SettlementRuns.MoneyConserved | apps/api/src/settlement/claim.service.ts:203-280 | over every run, original amount equals balance plus payments plus remittance absorbed, per receivable; remittances recorded equal what was absorbed plus the excess of flagged results |
| SettlementRuns.TerminalForever | apps/api/src/settlement/receivable-state-machine.ts:46-72 | a terminal receivable keeps its whole row, balance zero, through every continuation |
| SettlementClaims.TwoClaimsIff | apps/api/src/settlement/claim.service.ts:92-160 | a run ever puts a receivable in two claims if and only if an accepted payment leaves a claimed one partly open and a later accepted claim names it |
| SettlementClaims.TwoOpenClaimsIff | apps/api/src/settlement/claim.service.ts:92-281 | a run ever puts a receivable in two claims awaiting their remittance if and only if that happens before the earlier claim's accepted reconciliation |
| SettlementClaims.ReopenedFirst | apps/api/src/settlement/receivable.service.ts:223-290 | a linked receivable that can be claimed was earlier left claimed and partly open by an accepted payment, while that link stood |
| SettlementClaims.CanBeReconciledIff | apps/api/src/settlement/claim.service.ts:167-201 | some continuation has a remittance for an open claim accepted if and only if none of its receivables has been settled or flagged meanwhile, given that the claim total fits its column |
| SettlementClaims.TerminalLineBlocks | apps/api/src/settlement/claim.service.ts:198-201 | with a settled or flagged line, every remittance for the claim is refused in every continuation |
| SettlementClaims.DoubleClaimExample | apps/api/src/settlement/claim.service.ts:100-147 | open, claim, pay in part, claim again: a run the services accept, with the receivable in two claims awaiting remittance |
| InventoryService.InventoryService.GetOnHand | apps/api/src/inventory/inventory.service.ts:346-384 | quantity is the sum of the key's movements, the unit the least among them, none exactly when there are none |
| InventoryService.InventoryService.AssertUnitMatchesEstablished | apps/api/src/inventory/inventory.service.ts:1273-1290 | passes exactly when the first movement its read sees for the key, if any, has the supplied unit |
| InventoryService.InventoryService.InsertMovementRow | apps/api/src/inventory/inventory.service.ts:1302-1330 | of rows that name existing stores and products and fit the columns, appends each unless it breaks the unit exclusion or the reason length; then appends nothing, and what is thrown is never the unit error |
| InventoryService.InventoryService.InsertOnConflict | apps/api/src/inventory/inventory.service.ts:992-1047 | the reason length first, then the provenance pair, then the exclusion: one append per pair |
| InventoryService.InventoryService.CreateStockMovement | apps/api/src/inventory/inventory.service.ts:440-572 | answer and all four tables equal the step for a manual movement |
| InventoryService.InventoryService.CreateStockTransfer | apps/api/src/inventory/inventory.service.ts:593-757 | both legs, one audit row and one event, or nothing: a refused second leg takes the first back |
| InventoryService.InventoryService.RecordStockCount | apps/api/src/inventory/inventory.service.ts:775-909 | count row, optional correction, audit and event equal the step; a refused correction takes the count back |
| InventoryService.InventoryService.BackfillMovement | apps/api/src/inventory/inventory.service.ts:938-1256 | both backfills: one append per provenance pair, and a redelivery answers with the row already there |
| InventoryEffects.BadRequestIff | apps/api/src/inventory/inventory.service.ts:440-486 | the exact requests each of the five writers refuses before any read, in their own fields |
| InventoryEffects.CrossUnitIff | apps/api/src/inventory/inventory.service.ts:1273-1290 | past that, a request is refused by its check exactly when what it read holds a movement of the product at a store it touches in another unit |
| InventoryEffects.TableRefusesIff | apps/api/src/inventory/inventory.service.ts:1302-1330 | past the check, refused by the table exactly for a reason of more than 500 characters, or when it inserts, redelivers nothing, and some movement of the product at a store it touches has another unit |
| InventoryEffects.RedeliveredIff | apps/api/src/inventory/inventory.service.ts:1028-1048 | answered as redelivered with a movement exactly when that movement carries the request's trimmed provenance pair |
| InventoryEffects.OneRowEffects | apps/api/src/inventory/inventory.service.ts:490-572 | an accepted manual movement or backfill appends one row with the fields asked for, one audit row, and one event for its store, and answers with the row's id |
| InventoryEffects.TransferEffects | apps/api/src/inventory/inventory.service.ts:640-757 | an accepted transfer appends the outgoing leg at the source and the incoming one at the destination, in one group, with one audit row and one event for the source |
| InventoryEffects.CountEffects | apps/api/src/inventory/inventory.service.ts:775-909 | an accepted count records counted and read on-hand, and appends one correcting movement and its event exactly when they differ |
| InventoryRuns.UnitsStay | apps/api/src/inventory/inventory.service.ts:1302-1330 | rows the insert accepts keep one unit per (store, product), whatever the earlier read saw |
| InventoryRuns.EveryLedger | apps/api/src/inventory/inventory.service.ts:440-1256 | from an empty ledger, whatever is asked and however stale the reads: one unit per key, one movement per provenance pair, agreeing signs, whole transfers, a correction exactly for non-zero variances, events that list every movement id once in order and go to the store of their first movement, one audit row per event or zero-variance count, each naming a row that is what it says, and transfers that cancel |
| InventoryRuns.HistoryExtends | apps/api/src/inventory/inventory.service.ts:760-770 | movements, counts, audit rows and events are only ever appended to |
| InventoryRuns.CountResets | apps/api/src/inventory/inventory.service.ts:775-909 | on-hand is any count's quantity plus later movements plus what committed between its read and its correction; it equals the counted quantity after the count if and only if the latter sum to zero |
| InventoryRuns.GroupIsAPair | apps/api/src/inventory/inventory.service.ts:640-744 | a transfer group is no movement or exactly two, opposite in quantity, of one product, at different stores |
| InventoryRuns.TenantStock | apps/api/src/inventory/inventory.service.ts:593-757 | a product's on-hand summed over all stores is the sum of its non-transfer movements |
| InventoryRuns.EffectOnEveryKey | apps/api/src/inventory/inventory.service.ts:358-372 | what each accepted writer does to the on-hand of every key, and that a refused one does nothing |
| InventoryReads.StaleCheckUnseen | apps/api/src/inventory/inventory.service.ts:1261-1290 | except for counts, how stale the unit check was never shows in the ledger |
| InventoryReads.StaleCheckOfCount | apps/api/src/inventory/inventory.service.ts:775-909 | a count's stale check shows, and only in the count and its audit row, exactly when the variance is zero and the two reads disagree |
| InventoryReads.PassedByMissing | apps/api/src/inventory/inventory.service.ts:1273-1290 | a check passes wrongly exactly when it saw no movement of the key while there is one, in another unit |
| InventoryReads.AbortedIff | apps/api/src/inventory/inventory.service.ts:1302-1330 | among requests that name existing stores and products and fit the columns, one is refused by the table instead of the check if and only if a reason is too long, or it inserts, is no redelivery, and its check passed on what it saw and would fail on the whole ledger |
| InventoryReads.LatestNeverClashes | apps/api/src/inventory/inventory.service.ts:1273-1330 | reads that cover the ledger never run into the table's unit constraint |
| InventoryReads.AbortedExample | apps/api/src/inventory/inventory.service.ts:1292-1330 | a reachable ledger where the same request is aborted on stale reads and refused by the check on fresh ones |
| InventoryReads.MissedMovementExample | apps/api/src/inventory/inventory.service.ts:775-909 | a reachable count of 5, read before one unit committed, that leaves 6 on hand |
| InventoryReads.StaleCountExample | apps/api/src/inventory/inventory.service.ts:775-909 | a reachable ledger whose zero count is recorded in a unit the product does not have |
| InventoryBackfill.DeliverOne | apps/api/src/inventory/inventory.service.ts:980-1030 | an agreeing job appends its row exactly when the ledger lacks it and otherwise answers with the existing one |
| InventoryBackfill.NoDeliveryRefused | apps/api/src/inventory/inventory.service.ts:938-1256 | no delivery of agreeing jobs, first or repeated, is refused |
| InventoryBackfill.AddedOnce | apps/api/src/inventory/inventory.service.ts:938-1256 | deliveries add exactly the asked-for rows that were not there, each once |
| InventoryBackfill.ReorderAndRepeat | apps/api/src/inventory/inventory.service.ts:938-1256 | any reordering and repetition of agreeing jobs gives the same on-hand for every key and one movement per pair |
| Idempotency.StepKeeps | apps/api/src/idempotency/idempotency.interceptor.ts:239-408 | every step of every request keeps the protocol's invariant under the five conditions |
| Idempotency.RunKeeps | apps/api/src/idempotency/idempotency.interceptor.ts:239-408 | every interleaving keeps it |
| Idempotency.ReplaysForever | apps/api/src/idempotency/idempotency.interceptor.ts:267-399 | under the five conditions, once a result is stored it never changes, no handler runs or completes again, replays carry it to the same body and conflicts answer another body |
| Idempotency.SafeIff | apps/api/src/idempotency/idempotency.interceptor.ts:239-408 | handler runs never overlap and at most one completes in every interleaving if and only if one tenant uses the tuple, saves precede deletes, saves land, the marker outlives its owner and the entry outlives the retries |
| Idempotency.UnsafeWithoutSaveFirst | apps/api/src/idempotency/idempotency.interceptor.ts:364-405 | a delete that overtakes the save lets a second handler complete |
| Idempotency.UnsafeWithoutSavesLand | apps/api/src/idempotency/idempotency.interceptor.ts:385-398 | a lost save lets a second handler complete |
| Idempotency.UnsafeWithoutMarkerOutlives | apps/api/src/idempotency/in-progress-marker.ts:48-61 | an expired marker lets two handlers overlap |
| Idempotency.UnsafeWithoutEntriesOutlive | packages/shared/src/idempotency/store.ts:147-169 | an expired entry lets a retry complete a second handler |
| Idempotency.UnsafeAcrossTenants | apps/api/src/idempotency/idempotency.interceptor.ts:133-140 | one tenant's conflict, deleting the marker twice, lets two handlers of another tenant overlap |
| Idempotency.AloneAnswers | apps/api/src/idempotency/idempotency.interceptor.ts:189-411 | a request handled alone gives the marker back whatever fails, and stores its result exactly when its handler completed and the save landed |
| IdempotencyInterceptor.TupleInjectiveOnRoute | apps/api/src/idempotency/idempotency.interceptor.ts:132-140 | on one route the tuple determines client and key, whatever colons the key holds |
| IdempotencyInterceptor.InProgressMarker.TrySet | apps/api/src/idempotency/in-progress-marker.ts:48-52 | set if absent or expired: true exactly for the request that now owns the slot, for the TTL |
| IdempotencyInterceptor.InProgressMarker.Del | apps/api/src/idempotency/in-progress-marker.ts:58-61 | the slot is free afterwards, whoever owned it |
| IdempotencyInterceptor.IdempotencyKeyStore.FindOrCreate | packages/shared/src/idempotency/store.ts:135-174 | miss, hit or collision against the unexpired entry, Redis first and the mirror only on a Redis miss |
| IdempotencyInterceptor.RedisShadows | packages/shared/src/idempotency/store.ts:135-174 | the exact rows behind a miss, a hit and a collision: Redis shadows the mirror even with an expired entry |
| IdempotencyInterceptor.IdempotencyKeyStore.Save | packages/shared/src/idempotency/store.ts:182-213 | what every later lookup, with any body and at any time, then answers |
| IdempotencyInterceptor.Interceptor.Handle | apps/api/src/idempotency/idempotency.interceptor.ts:189-411 | header policy and format; for a good key the exact condition of every answer in the marker, the stored entry and what fails; the result handled is served, to the same body as a hit and to others as a collision, until the replay TTL has passed and not after; the same answer, marker and store as the protocol's steps |
| OperatorSessions.StepClaims | apps/api/src/pos-operators/pos-operators.service.ts:368-381 | only a sign-in that saw no active session adds to the active sessions and pending inserts of a (device, store), and it adds one |
| OperatorSessions.RevokeAllActive | apps/api/src/pos-operators/pos-operators.service.ts:973-989 | a takeover's update leaves none active at its (device, store) and the others as they were |
| OperatorSessions.AtMostOneClaim | apps/api/src/pos-operators/pos-operators.service.ts:524-548 | in every interleaving whose sign-ins start while nothing is heading for an insert, active sessions plus takeovers and sign-ins about to insert never exceed one |
| OperatorSessions.SignInSafeIff | apps/api/src/pos-operators/pos-operators.service.ts:368-381 | after a sign-in's check, every continuation keeps one active session at most if and only if nothing else was heading for an insert |
| OperatorSessions.RacingSignInsExample | apps/api/src/pos-operators/pos-operators.service.ts:368-381 | a run from the start in which two sign-ins check first and two sessions go active |
| OperatorTakeovers.RunKeeps | apps/api/src/pos-operators/pos-operators.service.ts:857-967 | runs with serial events, recorded inserts and lasting keys keep key, session and takeover consistent |
| OperatorTakeovers.InvMintsOnce | apps/api/src/pos-operators/pos-operators.service.ts:857-967 | each (store, event) has minted at most one session, for the operator who first used it |
| OperatorTakeovers.ReplaysForever | apps/api/src/pos-operators/pos-operators.service.ts:491-522 | once recorded, the same operator always finds that session, another always conflicts, and a session not live never is again |
| OperatorTakeovers.MintsOnceIff | apps/api/src/pos-operators/pos-operators.service.ts:477-548 | every run mints at most one session per event if and only if takeovers of one event never overlap, inserts are always recorded and no key is deleted |
| OperatorTakeovers.TwiceWithoutSerial | apps/api/src/pos-operators/pos-operators.service.ts:930-936 | two overlapping submissions of one event both mint |
| OperatorTakeovers.TwiceWithoutRecord | apps/api/src/pos-operators/pos-operators.service.ts:535-548 | a stop between the insert and the key update makes the retry mint again |
| OperatorTakeovers.TwiceWithoutKey | apps/api/src/pos-operators/pos-operators.service.ts:919-923 | a deleted key makes the retry mint again |
| OperatorTakeovers.TakeoverAloneIff | apps/api/src/pos-operators/pos-operators.service.ts:477-548 | alone, a takeover mints exactly when its event has not minted, its operator used it first and a session is active; so an event refused before minting can mint later |
| OperatorTakeovers.ActiveMeans | apps/api/src/pos-operators/pos-operators.service.ts:973-1008 | active means not revoked and not past expiry at the (device, store); a takeover revokes exactly those rows |
| OperatorTakeovers.SignInAloneIff | apps/api/src/pos-operators/pos-operators.service.ts:368-381 | alone, a sign-in is refused exactly while a session is active there, and otherwise adds one of eight hours |
| OperatorTakeovers.SignOutAloneIff | apps/api/src/pos-operators/pos-operators.service.ts:697-742 | alone, a sign-out is accepted exactly for the user's own session that is neither revoked nor expired; it revokes that row and no other, and changes nothing otherwise |
| OperatorTakeovers.SignedOutForever | apps/api/src/pos-operators/pos-operators.service.ts:1010-1021 | whoever is interleaved, a session answered as signed out is revoked in every continuation |
| OperatorService.OperatorService.RevokeActiveOperatorSession | apps/api/src/pos-operators/pos-operators.service.ts:973-989 | every active session of the (device, store) and no other is revoked; an id is returned exactly when there was one |
| OperatorService.OperatorService.UpsertTakeoverIdempotencyKey | apps/api/src/pos-operators/pos-operators.service.ts:857-940 | fresh, duplicate or conflict as the stored key says, storing it only when absent; fresh and without a key when the row goes before it is read |
| OperatorService.OperatorService.IssueOperatorSessionRow | apps/api/src/pos-operators/pos-operators.service.ts:1023-1051 | one live row appended, expiring after the session lifetime |
| OperatorService.OperatorService.SignIn | apps/api/src/pos-operators/pos-operators.service.ts:368-381 | answer and session rows are those of the two interleavable steps, check and insert, taken together |
| OperatorService.OperatorService.SignOut | apps/api/src/pos-operators/pos-operators.service.ts:697-742 | answer and session rows are those of the load and the guarded revoke, taken together, of which `SignOutAloneIff` gives the exact conditions |
| OperatorService.OperatorService.ConfirmTakeover | apps/api/src/pos-operators/pos-operators.service.ts:477-587 | answer, session rows and keys are those of the interleavable steps, key, revoke, insert and record, taken together |
| Pairing.FromStart | apps/api/src/pos-terminal-pairing/pairing.service.ts:63-115 | in every interleaving from empty tables each code's pairings and attempts, the gate's passes and each terminal's pairings count up exactly |
| Pairing.RunKeeps | apps/api/src/pos-terminal-pairing/pairing.repository.ts:164-186 | no run changes a device's tenant or branch, or revives a revoked one |
| Pairing.UsedIff | apps/api/src/pos-terminal-pairing/pairing.repository.ts:134-197 | a code is used if and only if some redemption of it paired, at most one did, and the device with the terminal's id stands at the code's branch |
| Pairing.OnePairingPerTerminal | apps/api/src/pos-terminal-pairing/pairing.repository.ts:164-186 | each terminal is paired by at most one redemption ever, over all its codes |
| Pairing.CodeStays | apps/api/src/pos-terminal-pairing/pairing.service.ts:67-72 | each step keeps: the attempts that passed the gate number exactly the smaller of the attempts and five, and a code is used as often as it paired |
| Pairing.NeverPairedAgain | apps/api/src/pos-terminal-pairing/pairing.repository.ts:164-186 | once a terminal has a device, revoked or not, no continuation pairs it again |
| Pairing.BurnRefusedIff | apps/api/src/pos-terminal-pairing/pairing.service.ts:76-99 | past the branch lookup a redemption is told the terminal is taken if and only if its code could be burned and the lookup had missed a revoked or foreign device or someone paired the terminal in between; the code stays pending |
| Pairing.RacingCodesExample | apps/api/src/pos-terminal-pairing/pairing.repository.ts:155-186 | a run from the start in which two codes for one terminal race, one pairs and the other stays pending |
| Pairing.PairAloneIff | apps/api/src/pos-terminal-pairing/pairing.service.ts:63-115 | alone, the whole request pairs exactly on one of the first five attempts at a code that is pending, before its expiry and for a terminal without a device; and the exact condition of each other answer, in the same fields |
| Pairing.UsedInTime | apps/api/src/pos-terminal-pairing/pairing.repository.ts:150-163 | in every interleaving, the step that uses a code finds it pending and before its expiry, and answers that redemption as paired |
| PairingService.PairingRepository.RecordAttempt | apps/api/src/pos-terminal-pairing/pairing.repository.ts:74-89 | counts one attempt and returns the new count |
| PairingService.PairingRepository.FindPairedBranch | apps/api/src/pos-terminal-pairing/pairing.repository.ts:98-115 | the branch of the live device at the terminal, as the code's tenant sees it |
| PairingService.PairingRepository.BurnAndProvision | apps/api/src/pos-terminal-pairing/pairing.repository.ts:134-197 | burn, device and link together exactly for a pending code before its expiry and a terminal without a device; a lost race exactly for another code; otherwise a duplicate device takes the burn back |
| PairingService.Pair | apps/api/src/pos-terminal-pairing/pairing.service.ts:63-115 | answer, codes and devices are those of the interleavable steps, find, count, judge, look up and burn, taken together |
| Paging.MatchingIs | apps/api/src/audit/audit.repository.ts:168-174 | filter and ordering give exactly the matching rows, strictly newest first |
| Paging.NextCursorAdvances | apps/api/src/audit/audit.service.ts:74-81 | the rows below the next cursor are a suffix of the rows below this one; the rows in between are those the page end hides |
| Paging.PageIs | apps/api/src/audit/audit.service.ts:60-84 | a page shows the newest matching rows up to the limit, and hands out a cursor from the last one exactly when there are more |
| Paging.WalkShows | apps/api/src/audit/audit.service.ts:57-88 | following cursors to the end shows strictly newest first, without repetition, every matching row except exactly those some page end hides |
| Paging.FullPrecisionWalk | apps/api/src/outbox/admin.service.ts:67-104 | with the timestamp carried in full, the walk is the whole matching list |
| Paging.MissingSharesMillisecond | apps/api/src/audit/audit.query.schema.ts:51-85 | with the millisecond cursor, a missing row shares its millisecond with a row some page ended at |
| Paging.CompleteIff | apps/api/src/audit/audit.service.ts:57-88 | the walk is complete at every page size if and only if no two neighbouring matching rows hide one another |
| Listings.LossyWalkExample | apps/api/src/audit/audit.service.ts:78-81 | two events of one millisecond of which a walk by single rows shows one |
| CursorCodec.SplitIff | apps/api/src/audit/audit.query.schema.ts:68-76 | splitting a payload inverts joining it, on exactly the payloads with two non-empty halves |
| CursorCodec.OutboxCodec | apps/api/src/outbox/admin.query.schema.ts:74-113 | decodes exactly the cursors it encodes from a well-formed timestamp and id, and to those |
| CursorCodec.AuditCursorSurvives | apps/api/src/audit/audit.query.schema.ts:51-85 | an audit cursor comes back as the row's id and its timestamp cut to the millisecond, for every timestamp a platform date holds |
| LikePatterns.PrefixFilterIff | apps/api/src/audit/audit.repository.ts:141-146 | the action filter is a prefix match for every action if and only if the text has no special character |
| Listings.RunQuery | apps/api/src/audit/audit.repository.ts:130-190 | clauses pushed one by one select, order and limit exactly the rows wanted below the cursor |
| Listings.ListAudit | apps/api/src/audit/audit.service.ts:57-88 | the page shown and the cursor handed out are those of the walk |
| Listings.AuditShows | apps/api/src/audit/audit.repository.ts:130-174 | a row is listed exactly when tenant, action prefix, actor, store, both time bounds and the cursor let it through |
| Listings.ListDeadLettered | packages/db/src/outbox/repository.ts:634-709 | likewise for dead letters, whose two fixed clauses always apply |
| Listings.DeadLettersShow | packages/db/src/outbox/repository.ts:634-709 | a row is listed exactly when it is dead-lettered and processed and type, tenant and cursor let it through |
| Listings.ListOutbox | apps/api/src/outbox/admin.service.ts:67-104 | the page shown and the cursor handed out are those of the walk |
| RateLimit.FromStart | apps/api/src/auth/rate-limit.ts:118-135 | in every interleaving each window allows exactly the smaller of its hits and the limit, lasts at least the window length, and is over before the next starts; each answer carries its own hit's count, allowed exactly up to the limit, with what remains of it |
| RateLimit.CountStays | apps/api/src/auth/rate-limit.ts:123-132 | each command keeps a window's count equal to its hits and its allowed hits equal to the smaller of count and limit |
| RateLimit.BurstBound | apps/api/src/auth/rate-limit.ts:118-135 | any stretch of one window length holds at most twice the limit of allowed hits |
| RateLimit.ToldInWindow | apps/api/src/auth/rate-limit.ts:118-135 | the answers given in a window say allowed at most, and in the end exactly, as often as the smaller of its hits and the limit |
| RateLimit.ToldBurstBound | apps/api/src/auth/rate-limit.ts:118-135 | any stretch of one window length holds at most twice the limit of hits answered as allowed |
| RateLimit.ResetIsTtl | apps/api/src/auth/rate-limit.ts:128-134 | the reset time answered is what is left of the key's TTL, -1 when it has none |
| RateLimit.BurstBoundReached | apps/api/src/auth/rate-limit.ts:118-135 | for every limit a run reaches that bound |
| RateLimit.RollsIff | apps/api/src/auth/rate-limit.ts:123-127 | from any reachable state some continuation starts a new window if and only if it is not so that the last key has no TTL and the hit that was to set it is gone |
| RateLimit.StuckForever | apps/api/src/auth/rate-limit.ts:123-127 | a key that nobody is left to set the TTL of stays, and no new window ever starts |
| RateLimit.NeverAllowedAgain | apps/api/src/auth/rate-limit.ts:123-132 | once such a key's hits have used up the limit, no continuation allows another hit |
| RateLimit.StuckExample | apps/api/src/auth/rate-limit.ts:123-127 | a first hit that stops after INCR reaches that |
| RateLimit.RedisKey.Incr | apps/api/src/auth/rate-limit.ts:37-39 | one more than the live count, or one on an absent or expired key, which then has no TTL |
| RateLimit.RedisKey.PexpireNx | apps/api/src/auth/rate-limit.ts:40-46 | sets the TTL exactly on a live key without one |
| RateLimit.Check | apps/api/src/auth/rate-limit.ts:118-135 | decision and key equal those of the interleaved steps, taken together |

## Assumptions

* Receivable balances and remitted amounts that reach the tables satisfy the columns' own CHECKs
  and width; a value that does not is a thrown error that rolls back.
* A stock write reads a prefix of the commit order (READ COMMITTED), and a later read of one
  transaction sees no less than an earlier one. The theorems hold for any two prefixes; the
  examples use reads that do not shrink.
* Stock requests name stores and products that exist, and their amounts fit `numeric(19,4)`; the
  table refuses the others by foreign key or overflow.
* Quantities reach the stock ledger as integers in ten-thousandths. The code computes them in
  doubles, which are exact below 2^53 ten-thousandths.
* Idempotency and takeovers: the conditions of `SafeIff` and `MintsOnceIff` are fields of a
  `Config`, assumed only where a theorem says so.
* Time does not go backwards, and application and database share one clock.
* Pagination: the table does not change during a walk. Ids are unique. The platform's date text
  reads back what it printed.

## Left out

- InventoryService.InventoryService.GetOnHand: the order of units is that of code points, not of a database collation; every reachable ledger has only one unit to report.
- Quantities as text: the rounding of a raw quantity to four places, in doubles before the checks and in `numeric` on insert, is taken as done.
- Tenants, row-level security, guards and role checks: each is one branch; the tenant is a given.
- Stock: `listStockMovements`, the negative-balance signal and the worker's copy of the backfill insert.
- Settlement: acknowledging a claim, and the reads of receivables and claims.
- Idempotency: a marker delete that fails, which leaves the marker to its TTL.
- The mirror database write of the idempotency store failing after the Redis write succeeded.
- POS operators: identity, membership, role and device checks before the steps modelled, the roster and the active-session query.
- Pairing: who issues and cancels codes; both are environment steps that may happen at any time.
- Audit and outbox: projections to the wire, the `limit` parser, and calendar arithmetic inside date text.
- Rate limits: which bucket and identifier a caller uses; one key is modelled, and Redis losing a key is not.
- SQL, connection pools, hashing, tokens, metrics, logging, job queues and HTTP status mapping.
