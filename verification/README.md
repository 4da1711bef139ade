# A verified model of the tailoring back office

This project models five parts of the API service in `apps/api/src` and proves what they promise
over whole runs. Check it with `dafny verify dfyconfig.toml`.

- **Money** (`Vat.dfy`, `Ledger.dfy`, `GeneralLedger.dfy`): the VAT split and the double-entry
  postings of deposits, partial settlements and the closing settlement.
- **Fabric** (`Fifo.dfy`, `Stock.dfy`, `StockOps.dfy`, `StockTheorems.dfy`, `StockEffects.dfy`,
  `StockRoom.dfy`, `Workshop.dfy`, `Production.dfy`): rolls, the movement log, reservations,
  first-in-first-out draws, transfers, cutting and the production tickets. `StockEffects.dfy` says what
  each request does to the tables, column by column.
- **Tax documents** (`Text.dfy`, `Escape.dfy`, `UblInvoice.dfy`, `SignatureBlock.dfy`, `Signing.dfy`,
  `SignedInvoice.dfy`, `EmbeddedFields.dfy`, `Pieces.dfy`, `InvoiceReading.dfy`, `SignatureReading.dfy`,
  `Tlv.dfy`): the invoice template, escaping, the XAdES signature block, splicing it in and stripping it
  out, the QR payload, and readers that find each of these again in the finished text.
- **The invoice chain** (`Issuance.dfy`, `Audit.dfy`, `Counter.dfy`, `Decimal.dfy`): concurrent
  issuance under the advisory lock, the compliance self-check, and document numbering.
- **Appointments** (`Calendar.dfy`): booking, moving, staff updates and the slot listing.

Money is an integer number of halalas, fabric of hundredths of a metre, time of minutes. A Prisma
transaction is one step that commits or leaves everything as it was, except where locks are the
subject (`Counter.dfy`, `Issuance.dfy`) or where the source uses two transactions (`Workshop.dfy`).
A service that updates rows is a class whose methods are proved equal to a function of the old
state; the lemmas are about those functions.

## What is trusted

- SHA-256 (as base64) and canonicalisation are function parameters. `Issuance.Canonicalizes` says what is
  assumed of the second: it accepts the built invoice, is stable on its own result, introduces no
  `ext:UBLExtensions` or QR reference and keeps the texts of elements. Injectivity of the digest is
  assumed only where a lemma names `Audit.Injective`.
- A UUID, a currency code, a rate and an ISO instant contain no angle bracket
  (`UblInvoice.ValidInput`); nor do base64 text, a signing time and a serial number
  (`UblInvoice.Markup`). All free text may contain anything, a certificate's issuer name included.
- The database enforces its CHECK constraints
  (`apps/api/prisma/migrations/20260724173510_db_check_constraints/migration.sql:3-8`,
  `apps/api/prisma/migrations/20260725100000_v4_tailoring_amendment/migration.sql:239-241`,
  `apps/api/prisma/migrations/20260726000000_double_entry_ledger/migration.sql:98-108`); a violation
  aborts the transaction. In particular no draw can take a roll below its reserved quantity, which
  is what makes cutting always succeed.

## Where the code does not do what is said of it

- VAT Payable of a closed order need not equal the invoice's VAT. With a deposit they agree exactly
  when every partial settlement is at most 3 halalas (`Ledger.ClosedVatReconcilesExactlyWhen`).
  Without one they agree exactly when the residues of the payments (20p mod 23, between -11 and 11)
  add up to at most 11 either way (`Ledger.ClosedWithoutDepositReconcilesExactlyWhen`): 115.00 twice
  does, and the source's own example of 200.00 twice does not, the ledger holding 52.18 against
  52.17 (`Ledger.TwoHalvesDoNotReconcile`).
- The adjustment called rounding drift is not one: on a deposit order's closing payment it is the
  whole of the partial settlements (`Ledger.DriftIsThePartials`). Once they exceed the order's net
  total the closing payment is refused by the line CHECK (`Ledger.SettleAcceptedExactlyWhen`,
  `Ledger.AnOrderThatCannotClose`).
- Two overlapping cuts of one item select the same reservations and deduct them twice
  (`StockOps.OverlappingCutsKeepExactlyWhen`, `StockTheorems.OverlappingCutsCanHappen`): a cut keeps
  the tables sound exactly when its reservation is still open, or was released and nothing else is
  reserved on the roll (`Stock.CutHoldKeepsExactlyWhen`).
- The self-check never reads what the documents embed, so an earlier document can be replaced
  together with two columns (`Audit.ForgeryIsNotNoticed`). Documents are fixed by the final hash
  exactly in the chains whose documents embed what their rows say
  (`Audit.FinalHashFixesDocumentsExactlyWhen`). Nor does it notice a chain cut off at its end
  (`Audit.DeletionsPassExactlyWhen`).
- The "already issued" test stands outside the lock. Two calls for one invoice can leave a counter
  gap (`Issuance.RaceLeavesAGap`). Over any run the chains stay unbroken exactly when every commit
  found its row not yet issued (`Issuance.ChainsStayUnbrokenExactlyWhen`).
- A staff update can reactivate a cancelled appointment into a taken slot
  (`Calendar.ReactivationCanClash`, `Calendar.StaffUpdateKeepsExactlyWhen`).
- The slot listing does not see an appointment that started before opening
  (`Calendar.ListingMissesAnEarlierStart`, `Calendar.ListingAgreesExactlyWhen`).

## Model

| member | source | states |
|---|---|---|
| Vat.RoundDiv | apps/api/src/zatca/zatca-vat.ts:14-16 | the result is the integer within half a unit of the quotient, halves away from zero |
| Vat.NetIsTheUniqueNearest | apps/api/src/zatca/zatca-vat.ts:26-35 | at 15% the net is the one integer nearest 20g/23: any other integer is strictly further, so no tie exists |
| Vat.SplitIsMonotone | apps/api/src/zatca/zatca-vat.ts:26-35 | net and VAT both rise with the gross and neither faster than the gross |
| Vat.PartsDrift | apps/api/src/zatca/zatca.service.ts:112-128 | n lines split one by one miss the split of their sum by at most 11(n+1)/23 halalas, and VAT misses by the same amount the other way |
| Vat.PartsReconcileExactlyWhen | apps/api/src/ledger/ledger.service.ts:211-216 | VAT split payment by payment equals the VAT of the sum exactly when the payments' residues mod 23 add up to at most 11 either way |
| Vat.AddThenSplit | apps/api/src/zatca/zatca-vat.ts:26-45 | adding VAT and splitting the result gives back net and VAT, for every net and every rate |
| Vat.SplitThenAdd | apps/api/src/zatca/zatca-vat.ts:26-45 | splitting and adding again moves the gross by at most one halala, for every rate below 200% |
| Ledger.DepositTotals | apps/api/src/ledger/ledger.service.ts:168-182 | the deposit entry balances at the gross and moves exactly card clearing for a card, bank for a transfer, cash on hand for anything else by the gross, unearned revenue by the net and VAT by the VAT |
| Ledger.SettlementTotals | apps/api/src/ledger/ledger.service.ts:208-255 | the settling entry balances and moves exactly that same cash account, unearned revenue, revenue and VAT by the remainder rule |
| Ledger.DriftIsThePartials | apps/api/src/ledger/ledger.service.ts:239-255 | in every valid state the drift of a payment within the balance is minus the sum of the partial settlements when it releases a deposit and 0 otherwise, so the branch is dead exactly without a deposit to release or without earlier partials |
| Ledger.PostedEntry | apps/api/src/ledger/ledger.service.ts:84-147 | any accepted entry balances, is one-sided line by line, takes the next number and moves only its own order's balances |
| Ledger.CheckoutKeepsBooks | apps/api/src/pos/pos.service.ts:343-372 | a checkout keeps every order's four balances at the figures its payments imply |
| Ledger.SettleKeepsBooks | apps/api/src/pos/pos.service.ts:468-540 | so does a settlement, partial or closing |
| Ledger.EveryRunKeepsTheBooks | apps/api/src/ledger/ledger.service.ts:156-267 | over every run, any orders interleaved: every entry balances; card clearing, bank and cash on hand each hold what was paid by that means; unearned revenue is net(D) until closing and 0 after; with a deposit VAT ends at vat(T)+Σvat(P) and revenue at net(T)−Σvat(P) |
| Ledger.EveryRunBooksCashByMeans | apps/api/src/pos/pos.service.ts:343-540 | over every run from empty books, an order's card clearing, bank and cash on hand are the sums of what its accepted requests took by card, by transfer and by anything else, and its total is the one agreed at checkout |
| Ledger.ClosedWithoutPartialsReconciles | apps/api/src/ledger/ledger.service.ts:211-227 | deposit plus one closing payment: VAT, revenue and cash equal the invoice's split |
| Ledger.ClosedVatReconcilesExactlyWhen | apps/api/src/ledger/ledger.service.ts:211-227 | with a deposit, VAT overshoots and revenue falls short by exactly the partials' VAT, so VAT reconciles if and only if every partial was at most 3 halalas |
| Ledger.ClosedWithoutDepositReconcilesExactlyWhen | apps/api/src/ledger/ledger.service.ts:211-227 | without a deposit, VAT and revenue each reconcile if and only if the payments' residues add up to at most 11 either way |
| Ledger.TwoHalvesDoNotReconcile | apps/api/src/ledger/ledger.service.ts:211-216 | a run from empty books paying 400.00 as twice 200.00, after which VAT Payable is 52.18 and the invoice's VAT 52.17 |
| Ledger.ClosedWithoutDepositDrifts | apps/api/src/ledger/ledger.service.ts:220-227 | without a deposit, k payments miss the invoice's VAT by at most 11(k+1)/23 halalas |
| Ledger.SettleAcceptedExactlyWhen | apps/api/src/ledger/ledger.service.ts:239-266 | a payment within the balance is accepted, except the closing one of a deposit order whose partials exceed its net |
| Ledger.AnOrderThatCannotClose | apps/api/src/ledger/ledger.service.ts:244-266 | a run from empty books (total 100.00, deposit 1.00, partial 98.00) whose closing payment the line CHECK refuses |
| GeneralLedgerService.ComposeSettlement | apps/api/src/ledger/ledger.service.ts:208-255 | pushing lines and overwriting the revenue line when debits and credits differ yields the entry whose revenue already contains the drift |
| GeneralLedgerService.OverwriteRevenue | apps/api/src/ledger/ledger.service.ts:247-254 | the first revenue line is found and replaced, the others stay |
| GeneralLedgerService.GeneralLedger.Post | apps/api/src/ledger/ledger.service.ts:84-147 | the accumulating loop refuses or appends exactly as specified, with the same reason |
| GeneralLedgerService.GeneralLedger.PostSettlement | apps/api/src/ledger/ledger.service.ts:193-267 | posts the settling lines for the payment and the deposit applied |
| GeneralLedgerService.GeneralLedger.Checkout | apps/api/src/pos/pos.service.ts:292-372 | order row, deposit and entry appear together or not at all, the deposit is recorded with its means, and the books stay valid |
| GeneralLedgerService.GeneralLedger.Settle | apps/api/src/pos/pos.service.ts:468-540 | payment with its means, paid amount and entry appear together or not at all, and the books stay valid |
| GeneralLedgerService.GeneralLedger.TrialBalance | apps/api/src/ledger/ledger.service.ts:270-320 | every row carries its account's totals and natural balance, and the grand totals agree whatever was posted |
| GeneralLedgerService.JournalBalances | apps/api/src/ledger/ledger.service.ts:313-319 | a journal of sound entries balances as a whole |
| GeneralLedgerService.AccountsCoverAllLines | apps/api/src/ledger/ledger.service.ts:281-301 | grouping by account loses no line |
| Fifo.TakesPrefix | apps/api/src/inventory/fifo.service.ts:63-99 | the first k batches together give min(request, what they hold) |
| Fifo.DrainIsGreedy | apps/api/src/inventory/fifo.service.ts:63-99 | takes sum to the request, every touched batch but the last is emptied, later batches are untouched |
| Fifo.OldestFirstDominates | apps/api/src/inventory/fifo.service.ts:18-24 | no other feasible allocation uses more of any leading batches |
| Fifo.DrainTwice | apps/api/src/inventory/fifo.service.ts:51-101 | draining a and then b leaves what draining a+b leaves |
| Stock.ReceiveKeeps | apps/api/src/inventory/inventory.service.ts:23-53 | a new batch with its first movement keeps the tables' invariant |
| Stock.MoveKeeps | apps/api/src/inventory/fifo.service.ts:72-90 | a balance update with its movement keeps it |
| Stock.PlaceHoldKeeps | apps/api/src/inventory/reservation.service.ts:83-95 | placing a reservation keeps it |
| Stock.CutHoldSucceeds | apps/api/src/inventory/reservation.service.ts:109-150 | cutting an open reservation never violates a CHECK, the clamp at zero never bites, and the invariant is kept |
| Stock.CutHoldKeepsExactlyWhen | apps/api/src/inventory/reservation.service.ts:109-150 | whatever its reservation's status, a cut that commits keeps the invariant exactly when the reservation is open, or released with nothing else reserved on the roll |
| Stock.TwoCutsDeductTwice | apps/api/src/inventory/reservation.service.ts:104-150 | cutting one reservation twice commits exactly when the roll holds twice its metres, deducts both times, and breaks the invariant |
| Stock.ReleaseHoldSucceeds | apps/api/src/inventory/reservation.service.ts:161-170 | releasing an open reservation never makes the reserved quantity negative and keeps the invariant |
| Stock.MovementsMeet | apps/api/src/inventory/inventory.service.ts:155-165 | each batch's movements chain from 0 to its current quantity, each starting where the one before ended, with quantity the difference |
| Stock.StockIsConserved | apps/api/src/inventory/inventory.service.ts:233-313 | metres on hand are purchases plus signed adjustments less what went out on orders; transfers cancel |
| StockOps.CreateBatchKeeps | apps/api/src/inventory/inventory.service.ts:21-53 | logging a purchase keeps the invariant |
| StockOps.AdjustBatchKeeps | apps/api/src/inventory/inventory.service.ts:129-167 | an adjustment keeps it |
| StockOps.TransferKeeps | apps/api/src/inventory/inventory.service.ts:185-314 | a transfer keeps it, whether it merges into a batch or creates one |
| StockOps.InsertKeepsOrder | apps/api/src/inventory/fifo.service.ts:40-49 | the ordering clause yields exactly the selected batches, by purchase date and then by creation |
| StockOps.FifoRows | apps/api/src/inventory/fifo.service.ts:40-49 | the query returns every eligible batch, in age order, and no other |
| StockOps.DrainRowsKeeps | apps/api/src/inventory/fifo.service.ts:66-99 | a drain keeps the invariant and touches no reservation |
| StockOps.ConsumeExplicitKeeps | apps/api/src/orders/orders.service.ts:42-98 | explicit allocation keeps it |
| StockOps.CreateOrderKeeps | apps/api/src/orders/orders.service.ts:134-173 | the fabric loop of a new order keeps it |
| StockOps.ReserveAllKeeps | apps/api/src/pos/pos.service.ts:307-341 | the reserve loop of a checkout keeps it |
| StockOps.OpenHolds | apps/api/src/inventory/reservation.service.ts:104-106 | selects exactly the open reservations of the items, each once |
| StockOps.CutAllSucceeds | apps/api/src/inventory/reservation.service.ts:109-150 | cutting distinct open reservations one by one always succeeds and consumes those and no others |
| StockOps.ReleaseAllSucceeds | apps/api/src/inventory/reservation.service.ts:161-170 | releasing them one by one always succeeds and releases those and no others |
| StockOps.ConsumeForItemSucceeds | apps/api/src/inventory/reservation.service.ts:102-153 | the cutting station never fails in a reachable state and closes exactly the item's open reservations |
| StockOps.OverlappingCutsKeepExactlyWhen | apps/api/src/inventory/reservation.service.ts:102-153 | of two cuts of an item that selected the same reservations, the second, if it commits, deducts all their metres again, and the tables stay sound only if there were none |
| StockOps.ReleaseForOrderSucceeds | apps/api/src/inventory/reservation.service.ts:156-174 | so does a cancellation, for the order's items |
| StockTheorems.StepKeeps | apps/api/src/inventory/inventory.service.ts:21-331 | every stock transaction, committed or aborted, keeps the invariant |
| StockTheorems.EveryRunKeepsTheStock | apps/api/src/inventory/reservation.service.ts:63-174 | over every run each roll's reserved quantity is the sum of its open reservations and at most its current quantity, what was cut is what was consumed, and the metres are conserved |
| StockTheorems.OverlappingCutsCanHappen | apps/api/src/inventory/reservation.service.ts:102-153 | a run from empty tables and two overlapping cuts after which 20.00 m are gone for 10.00 m reserved |
| StockTheorems.DrainRowsIs | apps/api/src/inventory/fifo.service.ts:63-101 | the write-by-write drain succeeds exactly when the greedy result stays at or above every reserved quantity, and leaves exactly it |
| StockTheorems.FifoConsumeIs | apps/api/src/inventory/fifo.service.ts:27-102 | consume succeeds exactly when the stock suffices and that condition holds, and leaves the greedy result |
| StockTheorems.AgeOrderIsUnique | apps/api/src/inventory/fifo.service.ts:47 | purchase date and creation order determine the row order |
| StockTheorems.RowsAfterDraw | apps/api/src/inventory/fifo.service.ts:43-47 | after a draw the query returns what was not emptied, in the same order |
| StockTheorems.FifoInTwoSteps | apps/api/src/inventory/fifo.service.ts:27-102 | consuming a and then b succeeds exactly when consuming a+b does, and leaves the same rolls |
| StockTheorems.ReserveLoopExactlyWhen | apps/api/src/pos/pos.service.ts:307-341 | the one-at-a-time loop succeeds exactly when each roll used stays at or above its minimum after the sum of its yields, and adds exactly that sum to its reserved quantity |
| StockTheorems.CheckoutIgnoresItemOrder | apps/api/src/pos/pos.service.ts:307-341 | outcome and rolls do not depend on the order of the items |
| StockEffects.CreateBatchExactlyWhen | apps/api/src/inventory/inventory.service.ts:21-53 | a purchase succeeds exactly for a positive length and a code new to the store, and adds one available roll with the given store, fabric, code, length and purchase date and one movement from zero |
| StockEffects.AdjustBatchExactlyWhen | apps/api/src/inventory/inventory.service.ts:129-167 | an adjustment succeeds exactly when it is not zero, the roll is the store's and keeps its reserved metres; then the roll holds its old length plus the delta, its status follows, one movement records the correction, and nothing else changes |
| StockEffects.TransferExactlyWhen | apps/api/src/inventory/inventory.service.ts:185-314 | a transfer succeeds exactly to another existing store within what is available; the source loses the quantity, and the store's roll of that code gains it or a new roll with the source's fabric, code and purchase date holds it |
| StockEffects.FifoIsOldestFirst | apps/api/src/inventory/fifo.service.ts:27-102 | on the columns themselves: no roll loses fabric while an available roll of the store and fabric bought earlier, or the same day and created earlier, keeps any; rolls of another store, fabric or status are untouched; the metres lost are the request, and the list of takes returned says what each roll lost |
| StockEffects.DrainReports | apps/api/src/inventory/fifo.service.ts:66-99 | the list of takes names, for each roll, exactly what it lost |
| StockEffects.ExplicitExactlyWhen | apps/api/src/orders/orders.service.ts:42-98 | the chosen rolls are drawn exactly when each stays at or above its reserved metres in turn; each loses the sum of what was chosen from it and nothing else changes |
| StockEffects.OrderDrawsExactly | apps/api/src/orders/orders.service.ts:134-173 | an order's fabrics come off in total, only from rolls of its store, and a roll named by the order loses at least what was named |
| StockEffects.CheckoutPlacesItsHolds | apps/api/src/pos/pos.service.ts:307-341 | a checkout that commits adds one open reservation per garment with a roll, in order, each for that garment's own item and metres |
| StockEffects.RequestChanges | apps/api/src/inventory/inventory.service.ts:21-331 | what each request does to the metres on hand, the purchases and the corrections, stated from the request alone |
| StockEffects.EveryRunAnswersItsRequests | apps/api/src/inventory/inventory.service.ts:21-331 | over every run the metres on hand, the purchases and the corrections are the sums of what the accepted requests asked for |
| StockRoomService.StockRoom.CreateBatch | apps/api/src/inventory/inventory.service.ts:21-65 | adds the roll and its movement as asked, refuses a length that is not positive or a code in use, keeps the invariant |
| StockRoomService.StockRoom.AdjustBatch | apps/api/src/inventory/inventory.service.ts:129-179 | the roll's length changes by the delta and nothing else does; the zero-delta, not-found and negative-balance refusals; keeps the invariant |
| StockRoomService.StockRoom.Transfer | apps/api/src/inventory/inventory.service.ts:185-331 | moves the quantity from the source roll to the destination store, restoring the source row when the destination write aborts |
| StockRoomService.StockRoom.Drain | apps/api/src/inventory/fifo.service.ts:63-101 | the loop over the locked rows equals the recursive drain |
| StockRoomService.StockRoom.ConsumeFifo | apps/api/src/inventory/fifo.service.ts:27-102 | total check, drain and rollback together consume the request oldest first, or change nothing |
| StockRoomService.StockRoom.ConsumeChosen | apps/api/src/orders/orders.service.ts:42-98 | every chosen roll loses what was chosen from it, or nothing changes |
| StockRoomService.StockRoom.CreateOrder | apps/api/src/orders/orders.service.ts:134-173 | all fabrics of an order are drawn, from its store only and in total what was asked, or none |
| StockRoomService.StockRoom.Reserve | apps/api/src/inventory/reservation.service.ts:32-96 | one reservation, with the not-available and below-minimum refusals |
| StockRoomService.StockRoom.Checkout | apps/api/src/pos/pos.service.ts:307-341 | exactly when every roll can supply the sum asked of it, one open reservation per garment with a roll is appended, for its own item; otherwise nothing changes |
| StockRoomService.StockRoom.Cut | apps/api/src/inventory/reservation.service.ts:110-149 | one open reservation leaves its roll, with its movement |
| StockRoomService.StockRoom.Release | apps/api/src/inventory/reservation.service.ts:161-170 | one open reservation returns to its roll |
| StockRoomService.StockRoom.ConsumeForOrderItem | apps/api/src/inventory/reservation.service.ts:102-153 | the loop consumes exactly the item's open reservations and never fails |
| StockRoomService.StockRoom.ReleaseForOrder | apps/api/src/inventory/reservation.service.ts:156-174 | the loop releases exactly the order's open reservations, never fails and writes no movement |
| Workshop.StepFits | apps/api/src/workshop/workshop.service.ts:150-217 | every step of the workshop, including a crash between the two transactions of a move, keeps the floor's invariant |
| Workshop.CutExactlyOnce | apps/api/src/workshop/workshop.service.ts:164-200 | in every reachable state, moves in flight included: a ticket at stitching or beyond has no open reservation, each roll gave the cutting station exactly its consumed reservations, and a ready ticket went from queue to cutting, to stitching, to quality check, to ready |
| Workshop.ReservationsCloseOnce | apps/api/src/inventory/reservation.service.ts:102-174 | over every run a reservation is closed at most once and never reopened; the metres the movement log took off the rolls for an item are those of its consumed reservations and never exceed what its checkout reserved |
| Workshop.CheckoutPromises | apps/api/src/pos/pos.service.ts:333-339 | after a checkout that commits, the i-th new item is promised the metres of the i-th wish when it names a roll, and none otherwise |
| Workshop.EachItemGetsItsOwnFabric | apps/api/src/inventory/reservation.service.ts:88-153 | at every later point of every run that promise is unchanged, and no more than it was ever taken off the rolls for the item |
| Workshop.CutTakesItsOwn | apps/api/src/inventory/reservation.service.ts:102-153 | cutting an item takes off the rolls what is open for that item and nothing for any other |
| Workshop.EveryRunHasOneTicketEach | apps/api/src/workshop/workshop.service.ts:41-65 | in every reachable state no two tickets are for one order item |
| Production.TicketService.Checkout | apps/api/src/pos/pos.service.ts:307-341 | new order items exist exactly when every one of their reservations was placed, and each is promised the fabric of its own wish; otherwise nothing changes and the refusal is reported |
| Production.TicketService.CreateTicket | apps/api/src/workshop/workshop.service.ts:53-65 | an existing order item without a ticket gets one in the queue with an empty history; otherwise nothing changes |
| Production.TicketService.BeginMove | apps/api/src/workshop/workshop.service.ts:157-179 | unknown tickets and skipped stations are refused, a move to the same station changes nothing, and leaving cutting forward cuts the item's fabric before the station changes |
| Production.TicketService.FinishMove | apps/api/src/workshop/workshop.service.ts:181-200 | the second transaction sets the station and appends the history row of that move |
| Production.TicketService.MoveTicket | apps/api/src/workshop/workshop.service.ts:150-217 | a whole move adds one history row and touches the stock exactly when the garment leaves cutting for stitching; from stitching on nothing of it is left to cut |
| Calendar.LatestDecides | apps/api/src/appointments/availability.service.ts:73-91 | on a calendar without overlaps, checking the latest-starting candidate equals checking every active appointment |
| Calendar.BookKeeps | apps/api/src/appointments/appointments.service.ts:25-48 | an accepted booking keeps active appointments disjoint |
| Calendar.CustomerUpdateKeeps | apps/api/src/appointments/appointments.service.ts:70-102 | so does a cancellation or a move |
| Calendar.CustomerUpdateExactlyWhen | apps/api/src/appointments/appointments.service.ts:70-102 | on a disjoint calendar a customer's update is saved exactly when the appointment is scheduled or confirmed and, for a move, the new start is not past and nothing else active overlaps it; only that appointment changes, to the new start or to cancelled |
| Calendar.StaffUpdateKeepsExactlyWhen | apps/api/src/appointments/appointments.service.ts:134-140 | a staff update keeps them disjoint exactly when it does not reactivate into a taken slot |
| Calendar.ReactivationCanClash | apps/api/src/appointments/appointments.service.ts:134-140 | a concrete calendar that a staff update makes overlap |
| Calendar.EveryRunStaysDisjoint | apps/api/src/appointments/appointments.service.ts:25-151 | over every admissible run active appointments stay pairwise disjoint |
| Calendar.GetSlots | apps/api/src/appointments/availability.service.ts:40-70 | lists exactly the half-hour grid times whose slot ends by closing, each available exactly when it is in the future and no listed appointment overlaps it |
| Calendar.ListingAgreesExactlyWhen | apps/api/src/appointments/availability.service.ts:43-64 | the booking check accepts a listed time exactly when the listing shows no overlap and nothing from before opening runs into it |
| Calendar.ListingMissesAnEarlierStart | apps/api/src/appointments/availability.service.ts:43-64 | one booking at 8:50, opening at 9:00: the listing shows 9:00 without overlap and the booking check refuses it |
| Calendar.StoreCalendar.Book | apps/api/src/appointments/appointments.service.ts:25-48 | books exactly when the time is not past and nothing active overlaps it |
| Calendar.StoreCalendar.UpdateForCustomer | apps/api/src/appointments/appointments.service.ts:70-102 | cancels, moves or refuses as specified and keeps appointments disjoint |
| Calendar.StoreCalendar.UpdateForStaff | apps/api/src/appointments/appointments.service.ts:123-140 | sets the status, and keeps appointments disjoint exactly under the stated condition |
| Tlv.BuildTlv | apps/api/src/zatca/zatca-tlv.ts:44-80 | builds the encoding of the present fields exactly when none exceeds 255 bytes, otherwise names the first that does |
| Tlv.DecodeTlv | apps/api/src/zatca/zatca-tlv.ts:87-101 | the offset loop returns the map of the records the buffer parses to, or fails exactly when it does not parse |
| Tlv.ParseUndoesEncode | apps/api/src/zatca/zatca-tlv.ts:44-101 | decoding an encoding gives back its records |
| Tlv.EncodeUndoesParse | apps/api/src/zatca/zatca-tlv.ts:44-101 | a buffer that decodes is the encoding of what it decodes to |
| Tlv.TruncationIsRejectedExactlyWhen | apps/api/src/zatca/zatca-tlv.ts:91-98 | a truncated payload decodes if and only if it is cut between two records |
| Tlv.TagsAscend | apps/api/src/zatca/zatca-tlv.ts:54-77 | the built payload is in ascending tag order |
| Tlv.PayloadSays | apps/api/src/zatca/zatca-tlv.ts:54-77 | the decoded payload gives seller name, VAT number, time, total and VAT total under tags 1 to 5, each optional field under its tag 6 to 9 exactly when present, and no other tag |
| Tlv.PayloadRoundTrip | apps/api/src/zatca/zatca-tlv.ts:55-101 | decoding a built payload yields exactly the tag-to-bytes map of the present fields |
| Text.StripFirstKeepsExactlyWhen | apps/api/src/zatca/zatca-xml.ts:219-226 | a non-greedy removal leaves a text unchanged exactly when no opening marker is followed by a closing one |
| Text.TagOccurs | apps/api/src/zatca/zatca-xml.ts:215-218 | in printed markup without stray brackets a tag is found only where one was printed |
| Text.FindTag | apps/api/src/zatca/zatca-xml.ts:219-226 | and a search finds the first one printed |
| Escape.EscIsOnePass | apps/api/src/zatca/zatca-xml.ts:54-60 | the five sequential replacements equal one substitution of each character on its own |
| Escape.UnescapeUndoesEsc | apps/api/src/zatca/zatca-xml.ts:54-60 | a reader of the predefined entities gets back exactly the text (XML 1.0, sections 2.4 and 4.6) |
| Escape.EscIsSafe | apps/api/src/zatca/zatca-xml.ts:54-60 | no angle bracket and no quote survives |
| Escape.EscQuotedIsSafe | apps/api/src/zatca/zatca-sign.ts:43-44 | the four-replacement variant leaves no angle bracket and no double quote |
| Signing.RootEndDependsOnHead | apps/api/src/zatca/zatca-sign.ts:158-165 | what is spliced after the root tag does not move the splice point |
| Signing.SignIs | apps/api/src/zatca/zatca-sign.ts:211-212 | after both splices the QR reference stands before the extensions, both right after the root tag |
| Signing.StripUndoesSign | apps/api/src/zatca/zatca-xml.ts:219-226 | for every document with a root and neither marker up to its end, stripping the signed document restores it exactly |
| Signing.StripKeepsExactlyWhen | apps/api/src/zatca/zatca-xml.ts:219-226 | stripping changes nothing exactly when the document has no marker pair |
| SignedInvoice.RenderIsClean | apps/api/src/zatca/zatca-xml.ts:67-178 | no element of the template is an extensions element, and text stands between every document reference and its first child |
| SignedInvoice.RootEndsAfterThree | apps/api/src/zatca/zatca-sign.ts:159-163 | the root search finds the invoice's own root tag, past the XML declaration |
| SignedInvoice.InvoiceIsSignable | apps/api/src/zatca/zatca-xml.ts:193-198 | no field, whatever its text, puts a strip marker into the invoice |
| SignedInvoice.ElementIsContent | apps/api/src/zatca/zatca-sign.ts:78-108 | no element other than the extensions element itself, whatever its attributes, texts and children, prints a closing extensions tag |
| SignedInvoice.ExtensionsAreABlock | apps/api/src/zatca/zatca-sign.ts:78-156 | the extensions block the code builds, from any digests, signature, certificate, time, serial and issuer name, opens with its marker and its first closing marker is its end |
| SignedInvoice.QrReferenceIsABlock | apps/api/src/zatca/zatca-sign.ts:167-174 | so does the QR reference, and it holds no extensions marker |
| SignedInvoice.StrippingUndoesSigning | apps/api/src/zatca/zatca-sign.ts:176-221 | for every invoice and every signature block and QR code, stripping the signed form gives back the invoice character for character, and stripping the unsigned one changes nothing |
| EmbeddedFields.InvoiceEmbedsItsPlace | apps/api/src/zatca/zatca-xml.ts:112-121 | the counter and the previous hash can be read back off every invoice document |
| EmbeddedFields.DocumentsDifferByPlace | apps/api/src/zatca/zatca-xml.ts:112-121 | equal documents have the same counter and previous hash |
| InvoiceReading.InvoiceSaysNumber | apps/api/src/zatca/zatca-xml.ts:104-106 | the first ID and UUID read off an invoice are its escaped number and its UUID |
| InvoiceReading.InvoiceSaysDate | apps/api/src/zatca/zatca-xml.ts:68-70 | its issue date and time are the two parts of the instant |
| InvoiceReading.InvoiceSaysType | apps/api/src/zatca/zatca-xml.ts:62-65 | its type code is 388, named 0100000 when standard and 0200000 when simplified, and its currency the invoice's |
| InvoiceReading.InvoiceSaysParties | apps/api/src/zatca/zatca-xml.ts:122-154 | after the supplier's tag come the seller's identification, VAT number, name and address, after the customer's tag the buyer's name and, when there is one, VAT number |
| InvoiceReading.InvoiceSaysTotals | apps/api/src/zatca/zatca-xml.ts:155-175 | after the tags of the tax total, its subtotal and the monetary total, each amount read is the one the invoice was given, and the rate that of its first line |
| InvoiceReading.InvoiceSaysLines | apps/api/src/zatca/zatca-xml.ts:72-97 | cutting out the line elements gives one for each line, in order, and each says its line's number, quantity, unit, net, VAT, sum, name, rate and price |
| InvoiceReading.MoneySays | apps/api/src/zatca/zatca-xml.ts:80-82 | an amount reads as sign, whole riyals, a point and two digits that together are the halalas |
| SignatureReading.PropertiesSay | apps/api/src/zatca/zatca-sign.ts:78-108 | the signed properties say the signing time, the certificate digest, the escaped issuer and the serial number |
| SignatureReading.SignedTextSays | apps/api/src/zatca/zatca-sign.ts:110-221 | read off the signed text: the digest under the invoice reference, the digest under the properties reference, the signature value, the certificate, the signed properties and the QR code are each the one given |
| Audit.FindChainBreak | apps/api/src/zatca/zatca-hash.ts:22-30 | returns the first row whose previous hash is not its predecessor's (or genesis), and -1 exactly when there is none |
| Audit.VerifyChain | apps/api/src/zatca/zatca.service.ts:269-328 | the report is compliant exactly when links, counters and, with storage, re-hashes all hold; unreadable archives are listed and do not count against it |
| Audit.NoGapsWhen | apps/api/src/zatca/zatca.service.ts:284-287 | the gap list is empty exactly when the counters are 1, 2, ... |
| Audit.NoMismatchesWhen | apps/api/src/zatca/zatca.service.ts:290-312 | the mismatch list is empty exactly when every readable archive re-hashes to its row |
| Audit.GapsAre | apps/api/src/zatca/zatca.service.ts:284-287 | the gap list is the counters of exactly the rows not standing at their counter, in order |
| Audit.MismatchesAre | apps/api/src/zatca/zatca.service.ts:290-312 | the mismatch list is the numbers of exactly the rows whose readable, strippable archive hashes otherwise, in order |
| Audit.UnverifiableAre | apps/api/src/zatca/zatca.service.ts:290-312 | the unverifiable list is the numbers of exactly the rows whose archive is missing, unreadable or not XML, in order |
| Audit.EditPassesExactlyWhen | apps/api/src/zatca/zatca.service.ts:257-268 | whatever a row of a compliant chain is changed to, the chain still passes exactly when counter, previous hash and (unless last) own hash are unchanged and the archive still matches |
| Audit.DeletionsPassExactlyWhen | apps/api/src/zatca/zatca.service.ts:267 | whichever rows are deleted, the rest passes exactly when it is a beginning of the chain |
| Audit.ArchiveOfAnEarlierRowIsFixed | apps/api/src/zatca/zatca.service.ts:262-266 | the readable document of a row with successors cannot be exchanged by editing that row |
| Audit.DocumentsAgreeBackwards | apps/api/src/zatca/zatca-hash.ts:3-10 | two embedding chains with one final hash agree document by document |
| Audit.FinalHashFixesDocumentsExactlyWhen | apps/api/src/zatca/zatca-hash.ts:3-10 | a compliant chain sharing a genuine chain's final hash has the same documents if and only if its documents embed what its rows say |
| Audit.ForgeryIsNotNoticed | apps/api/src/zatca/zatca.service.ts:289-315 | in every compliant chain any earlier document can be replaced, with its hash in two columns, and all tests pass |
| Audit.EmbeddingExposesForgery | apps/api/src/zatca/zatca-xml.ts:116-121 | after such a replacement the successor's document no longer embeds its row's previous hash, unless nothing changed |
| Issuance.TemplateIsFaithful | apps/api/src/zatca/zatca.service.ts:139-161 | with a canonicalisation as trusted, every built invoice is signable, stable and embeds its place |
| Issuance.SignedInvoiceSays | apps/api/src/zatca/zatca-sign.ts:176-221 | in every signed invoice the digest under the invoice reference is the invoice's hash, the one under the properties reference the hash of the canonical signed properties, and signature, certificate, time, issuer, serial and QR code are the stamp's own |
| Issuance.IssuedDocumentMatches | apps/api/src/zatca/zatca.service.ts:160-197 | what is archived, signed or not, strips and re-hashes to the stored hash and says the row's counter and previous hash; if signed, its invoice digest is that hash and its other digest the hash of the signed properties in it; building fails only when the signed properties are not canonicalised |
| Issuance.LatestIsTip | apps/api/src/zatca/zatca.service.ts:59-69 | the allocation query returns the end of the chain |
| Issuance.PublishExtends | apps/api/src/zatca/zatca.service.ts:199-212 | publishing an unissued row at the next place extends its tenant's chain by it |
| Issuance.StepKeepsPlaced | apps/api/src/zatca/zatca.service.ts:136-232 | every step of every call, other than a commit over an issued row, keeps chains, locks and allocated places sound |
| Issuance.StepKeepsDocumented | apps/api/src/zatca/zatca.service.ts:160-232 | and keeps every archived document matching its row |
| Issuance.EveryRunIsPlaced | apps/api/src/zatca/zatca.service.ts:136-214 | in every interleaving with aborts, any tenants and colliding lock keys, in which no commit finds its row issued: each tenant's committed invoices carry 1..n, each with its predecessor's hash or genesis |
| Issuance.EveryRunIsDocumented | apps/api/src/zatca/zatca.service.ts:160-232 | in those runs every archive matches its row, its two digests included |
| Issuance.SeparateCallsNeverReissue | apps/api/src/zatca/zatca.service.ts:102-105 | when no two calls under way are for one invoice, no commit finds its row issued |
| Issuance.ListingIsTheChain | apps/api/src/zatca/zatca.service.ts:270-273 | the ascending listing of a tenant's issued rows is its chain |
| Issuance.EveryReachableStateIsCompliant | apps/api/src/zatca/zatca.service.ts:282-315 | the self-check accepts every tenant in every state such a run reaches |
| Issuance.ArchivedChainsAreGenuine | apps/api/src/zatca/zatca.service.ts:216-232 | once all archives are written the documents are readable and embed what the rows say |
| Issuance.CommitLeavesChainExactlyWhen | apps/api/src/zatca/zatca.service.ts:102-105 | a commit leaves an unbroken chain if and only if its row has not been issued in the meantime |
| Issuance.ChainsStayUnbrokenExactlyWhen | apps/api/src/zatca/zatca.service.ts:102-214 | over every run, races included, every tenant's chain is unbroken after every prefix if and only if every commit found its row not yet issued |
| Issuance.RaceLeavesAGap | apps/api/src/zatca/zatca.service.ts:102-105 | a run of two calls for one invoice after which counter 1 is missing |
| Counter.CounterService.Next | apps/api/src/common/counter.service.ts:22-47 | the upsert returns and stores the successor, or 1, and touches no other key |
| Counter.CounterService.SeedFrom | apps/api/src/common/counter.service.ts:53-71 | seeding sets the larger of the two values and touches no other key |
| Counter.StepKeepsSound | apps/api/src/common/counter.service.ts:39-47 | every step of concurrent transactions keeps a key's numbers ascending and above the committed value |
| Counter.CommittedNumbersAreDistinct | apps/api/src/common/counter.service.ts:4-14 | in every interleaving with rollbacks and seeding, committed numbers of a key strictly ascend |
| Counter.CommittedNumbersAreGapless | apps/api/src/common/counter.service.ts:18-21 | without seeding they are exactly 1..value |
| Counter.CountersNeverFall | apps/api/src/common/counter.service.ts:65-70 | no step lowers a counter |
| Counter.CommittedNumbersArePositive | apps/api/src/common/counter.service.ts:49-71 | seeded only from non-negative maxima, a key's numbers stay positive |
| Counter.OrderNumbersAreUnique | apps/api/src/orders/orders.service.ts:32-39 | no two committed orders of a store share an order number, seeded counters included |
| Decimal.ValueOfPadded | apps/api/src/orders/orders.service.ts:38 | padded digits read back as the number, whatever the width |
| Decimal.OrderNumberSays | apps/api/src/orders/orders.service.ts:37-38 | an order number is ORD- and digits that read as the number, ten characters up to 999999 |
| Decimal.InvoiceNumberSays | apps/api/src/invoices/invoices.service.ts:73-84 | an invoice number is INV-, the year, a dash and digits that read as the number, six of them up to 999999 |
| Decimal.TicketCodeSays | apps/api/src/workshop/workshop.service.ts:61 | a ticket code is the order number, a dash and digits that read as the position counted from one, two of them up to 99 |
| Decimal.OrderNumbersDiffer | apps/api/src/orders/orders.service.ts:37-38 | order numbers are equal exactly when their numbers are, beyond six digits too |
| Decimal.InvoiceNumbersDiffer | apps/api/src/invoices/invoices.service.ts:73-84 | invoice numbers are equal exactly when year and number are |
| Decimal.TicketCodesDiffer | apps/api/src/workshop/workshop.service.ts:61 | ticket codes are equal exactly when order and position are, beyond two digits too |

## Left out

- Signing.StripUndoesSign: asks that the part up to the end of the root tag holds no marker; a document with a marker in its prolog is outside it, and no built invoice is.
- Issuance.EveryRunIsPlaced: no commit finds its row already issued; without that the property is false, see Issuance.ChainsStayUnbrokenExactlyWhen and Issuance.RaceLeavesAGap.
- Calendar.EveryRunStaysDisjoint: durations are positive and no staff update reactivates into a taken slot; without the second it is false, see Calendar.ReactivationCanClash.
- Workshop.ReservationsCloseOnce: a cut selects and consumes in one step; the source selects the reservations without locking them, and without that the property is false, see StockOps.OverlappingCutsKeepExactlyWhen and StockTheorems.OverlappingCutsCanHappen.
- Production.TicketService.CreateTicket: one ticket at a time; the source creates all tickets of an order together and returns them unchanged when there are any.
- Counter.CommittedNumbersAreGapless: the 32-bit width of the counter column is not modelled.
- GeneralLedgerService.GeneralLedger.Settle: the order is read in the same step as it is updated; the source reads it before its transaction.
- GeneralLedgerService.GeneralLedger.TrialBalance: the `asOf` filter, which does not restrict the summed lines, is not modelled.
- Calendar.StoreCalendar.Book: the check and the insert are one step; in the source they are two statements.
- Vat.NetIsTheUniqueNearest: division is exact; the decimal library divides to 20 significant digits before rounding, which agrees while amounts stay far below that.
- Tlv.PayloadRoundTrip: values are bytes; base64 and UTF-8 conversion are not modelled, and an empty optional field counts as absent.
- Issuance.SignedInvoiceSays: the signature value and the QR text are parameters of the stamp; ECDSA and the link from the QR fields to the invoice are not modelled.
- Concurrent numbering of journal entries (read the maximum, add one, without a lock).
- The yield formulas, customer tiers, sellable rolls and the order-ready check of the workshop: they read or compute and change nothing the invariants are about.
- `addPayment`, which posts nothing to the ledger.
- Discounts, buttons, measurements, order status transitions, audit logging, events, reorder alerts, dashboards.
- The ZATCA API client, onboarding, key handling, ECDSA, ASN.1 and the PDF.
- Authentication, permissions, plans, messaging, mail, payments by card, storage and queues.
- All four web applications.
