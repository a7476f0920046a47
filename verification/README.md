# Ledger verification

A Dafny model of the double-entry ledger of a currency-exchange back office, with proofs about its
posting services, its weighted-average inventory, its invoice allocations, the reports computed from
them, and the smaller cores beside it: reading and printing amounts, the messaging bot, and the import of
opening balances.

The tables (vouchers with their entries and deal, inventory rows, the voucher counter, settlements and
deliveries) are one value, `Books.Db`. What each service does to it is a function (`Books.PostOrder`,
`Books.VoidVoucher`, `Books.DeleteVoucher`, `Allocation.Allocate`); the class `Services.Ledger` carries the
same services out on mutable tables, step by step, and every method is proved to commit exactly what its
function says or to leave the tables as they were. Theorems about all runs (`Runs`, `Chains`, `Recorded`,
`Effects`, `Invoices`, `InventoryBooks`, `AllocationSafety`, `Prices`, `NetWorth`, `OrderlyRuns`, `LatestFirst`,
`Drift`) are about sequences of these calls with any arguments; `Refusals` says what the calls that are refused
say. `Transactions` extends the theorems to every interleaving of transactions that take row locks one at a time,
and `ImportLocks` adds the import's longer transaction. `Balances`, `Statements` and `Reports` compute what the
screens show, by the loops the source uses, and relate it to the books.

Amounts are reals. How an eight-decimal column rounds is a parameter (`Amounts.Rounding`): half to even as
on SQLite, half away from zero as in PostgreSQL's `numeric`, or `Exact`, in which nothing is lost. A theorem
that takes the mode as a parameter holds for all three; one stated for `Exact` would be false under rounding.
The source's decimals also round the result of every operation, a change of sign included, to 28 digits
(`Context`); this is modelled where a second leg is the negative of an amount as entered, in the first balance
check, in the import's totals and in the deal form.

Where the code does not do what one would expect, the expectation is stated with its exact condition where one
is known, and with a run or an input that breaks it:

* in unrounded arithmetic, undoing the latest purchase restores the row exactly if and only if stock was held
  before it or the average was zero, and undoing one across a sale if and only if it was made at the average
  (`Inventory.UndoBuy`, `Inventory.UndoBuyAcrossSale`, `Inventory.NegativeAverage`); after any later deals the
  average is off by exactly the profit they realised because of it, over the stock left
  (`Inventory.UndoBuyLaterExactly`); under stored rounding an undone purchase restores the stock, and value and
  average up to a bound (`Inventory.UndoBuyError`, `Inventory.UndoBuyLater`); an undone sale is exact under every
  rounding, again if and only if (`Inventory.UndoSell`);
* an amount of more than 28 digits can be refused by the second balance check, because its two legs are stored
  differently (`Runs.PairBalanced`, `Effects.DealAccepted`, and the amounts in `Witnesses.LongAmountsRefused`);
* a reversal can itself be voided; the books then hold the deal again and the inventory does not
  (`InventoryBooks.LedgerAgainstStock`, and the run in `Witnesses.BooksLeaveStock`);
* voided deals stay in the profit reports (`NetWorth.ReportsAfter`), and their profit is the gap between net worth
  and the reports (`OrderlyRuns.CompareScreens`);
* a quantity with more than eight decimals can round differently alone and added to the stock
  (`InventoryBooks.DealKeepsAgreement`, and the run in `Witnesses.StockLeavesDeals`);
* the average price of a report row can leave the unit prices of its deals when totals or prices were rounded
  (`Prices.SingleDealAverage`, `Prices.AverageWithinPrices`, and the runs in `Witnesses.AverageLeavesPrices`);
* an import in which one total is lost to rounding posts nothing at all (`ImportSheet.FirstImport`, and the sheet in
  `ImportSheet.FloatSheetAborts`);
* a number printed with three decimals is read back a thousand times too large, and one printed for display
  with a minus is not read at all (`Money.ParserUndoesPrinter`, `Money.DisplayedIsRead`); several dots are dropped
  wherever they stand, though the reader's own comment asks for three digits between them (`Money.SeveralDots`);
* a typed total above nine times ten to the 18th can come out a quantum off: the very next one does for one quantity,
  which is posted where columns round half away, and a slightly greater one for a quantity posted under both roundings
  (`Decimal28.TypedTotalSurvives`, `Decimal28.NextTotalIsLost`, `Decimal28.ShortQuantityLoses`);
* two imports of one customer can wait for each other even if they meet their codes in one order
  (`ImportLocks.ImportsDeadlock`);
* with two pollers the saved update id can go back (`Bot.TwoPollersCanGoBack`).

`dafny verify dfyconfig.toml` checks the whole project.

## Model

| member | source | states |
|---|---|---|
| Amounts.StoreError | ledger/models.py:279-281 | Saving to an eight-decimal column moves a number by at most half a quantum, onto the grid of the column |
| Amounts.StoreOdd | ledger/services.py:272-283 | Both roundings turn over with the sign, which is why a pair of lines +x, -x stays balanced once stored |
| Amounts.SaveOfSum | ledger/services.py:348-367 | Saving stock plus an unrounded quantity equals adding the saved quantity, except exactly on ties that fall the wrong way |
| Inventory.DriftBound | ledger/services.py:347-368 | Over every run that never goes short, sales less purchases plus stock value less realised profit stays within half a quantum times (stock after each purchase plus two per deal) |
| Inventory.Conservation | ledger/services.py:347-363 | Without rounding, realised profit is exactly sales less purchases plus stock value over every run that never goes short |
| Inventory.AverageBetweenPrices | ledger/services.py:347-363 | In every run of deals, short sales included, a positive row's average lies between the least and greatest purchase price |
| Inventory.UndoBuy | ledger/services.py:391-397 | Undoing the purchase just made restores stock always and the average if and only if stock was held before it or the average was zero |
| Inventory.UndoSell | ledger/services.py:387-390 | Undoing the sale just made restores the row, under every rounding, if and only if stock was held before it or the average was not zero |
| Inventory.UndoBuyError | ledger/services.py:391-397 | Under rounding, undoing a purchase made from stock restores the stock, and its value and its average up to a stated bound |
| Inventory.BuysOnly | ledger/services.py:347-356 | The path-dependent row of a buys-only history is the closed form: total quantity, worth total cost |
| Inventory.UndoAnyBuy | ledger/services.py:391-397 | In a buys-only history, undoing any purchase while stock remains equals replaying the history without it |
| Inventory.UndoBuyAcrossSale | ledger/services.py:391-397 | Undoing a purchase after a sale equals never having made it if and only if it was made at the average it met |
| Inventory.UndoBuyLater | ledger/services.py:391-397 | Under every rounding, a purchase undone after any later deals that sell only what was held without it: stock is that of never having bought, and value is off by the extra profit those deals realised, up to half a quantum per unit of recorded weight |
| Inventory.UndoBuyLaterExactly | ledger/services.py:391-397 | Without rounding, the average is then off by exactly the extra profit over the stock left, and the row is that of never having bought if and only if no stock is left or the extra profit is nothing |
| Inventory.ExtraBySales | ledger/services.py:357-363 | That extra profit is, summed over the later sales, the quantity sold times how much the purchase had lowered the average; without later sales it is nothing |
| Inventory.StaleAverage | ledger/services.py:349-356 | A short position bought back exactly to zero keeps a stale average |
| Inventory.AverageFromNothing | ledger/services.py:387-390 | Undoing a sale made from nothing leaves its price as the average of an empty row |
| Inventory.NegativeAverage | ledger/services.py:391-397 | Undoing a purchase across a sale can leave a negative average |
| Inventory.SaleRecords | ledger/services.py:359-361 | Under every rounding, a sale from stock records the average it met and what the price is above it per unit, also where it sells more than is held; without stock it records its own price and no profit, whatever average the row shows |
| Inventory.ShortSpell | ledger/services.py:347-363 | While a row is short its average stays what it was when the stock ran out; the purchase that ends the spell puts its own price in its place, and one that brings the row to nothing leaves it |
| Recorded.VoucherRecorded | ledger/services.py:102-739 | In every reachable database each voucher, but for its status, is what the one call of the run that used up its key made of it |
| Recorded.DealRecorded | ledger/services.py:304-330 | In every reachable database, through shorts, voids and deletes, every deal shows what its order said, the average that order met (its own price for a sale without stock) and the profit above that average |
| Recorded.ProfitBySales | ledger/services.py:359-361 | The reported profit of a currency is, over its sales not deleted, price less the average of the stock held before the sale, times the quantity, and nothing for a sale without stock |
| Services.Ledger.constructor | ledger/models.py:9-20 | A new ledger is empty |
| Services.Ledger.AssertBalanced | ledger/services.py:66-77 | The loop over per-currency totals accepts exactly the lists of lines that sum to zero in every currency |
| Services.Ledger.VerifyPersistedBalance | ledger/services.py:181-196 | The second check accepts exactly the stored rows that sum to zero in every currency |
| Services.Ledger.NextVoucherNumber | ledger/services.py:56-63 | The counter goes up by one and its new value is returned |
| Services.Ledger.BuildEntries | ledger/services.py:131-149 | Rows are numbered from one, dated by the voucher and rounded by the column; a zero line stops the loop |
| Services.Ledger.PostVoucher | ledger/services.py:102-178 | The draft is created, filled, checked and finalised; every error path (no lines, duplicate key, unbalanced, zero line, unbalanced once stored) leaves all tables unchanged |
| Services.Ledger.ApplyInventory | ledger/services.py:333-368 | The saved row and the returned cost and profit are those of the inventory step |
| Services.Ledger.ReverseInventory | ledger/services.py:371-399 | The saved row is that of the undo step |
| Services.Ledger.PostDeal | ledger/services.py:203-330 | A deal commits inventory and voucher together or changes nothing, even when a duplicate key is found after the inventory was written |
| Services.Ledger.PostPair | ledger/services.py:406-621 | Cash, transfer, expense, income, party transfer and opening services commit their balanced pair or change nothing |
| Services.Ledger.VoidVoucher | ledger/services.py:628-686 | A void takes the deal back, posts the mirrored voucher and marks the original, or changes nothing |
| Services.Ledger.DeleteVoucher | ledger/services.py:690-739 | A delete takes the deal back and removes the row with its allocations, or changes nothing |
| Services.Ledger.AddAllocation | ledger/views.py:459-477 | The form's checks accept exactly the admissible allocations within both capacities; otherwise nothing is inserted |
| Services.Ledger.Serve | ledger/services.py:102-739 | Any call does what one step of a run does |
| Runs.PairBalanced | ledger/services.py:426-437 | A pair of lines always passes the first balance check, and the second if and only if its amount is stored alike with all its digits and rounded to 28 |
| Runs.GridPair | ledger/services.py:426-437 | An amount with at most eight decimals passes both checks, under every rounding |
| Witnesses.LongAmountsRefused | ledger/services.py:181-196 | Under both roundings, an amount of which a receipt and a deal are refused by the second check |
| Runs.PostedVoucher | ledger/services.py:131-160 | What posting adds is numbered, dated alike, free of zero rows and zero-sum in every currency as stored |
| Runs.VoidKeeps | ledger/services.py:646-675 | Once its own checks pass, a void never fails in the posting service, and keeps the tables well formed |
| Runs.StepKeeps | ledger/services.py:102-739 | Every call, whatever its arguments, keeps the tables well formed |
| Runs.Reachable | ledger/services.py:102-739 | In every reachable database vouchers sum to zero per currency on one date, numbers and external keys are unique, and reversals are linked one to one to what they void |
| Chains.ChainLinks | ledger/services.py:635-675 | Along a reversal chain each voucher reverses the one before, all on one date, all but the last void |
| Chains.ChainNet | ledger/services.py:646-671 | A chain's net effect on every account, currency and cut-off is the first voucher's entries if its length is odd and nothing if even |
| Chains.InRootChain | ledger/services.py:635-675 | Every voucher lies in the chain of its root |
| Chains.ChainsDisjoint | ledger/services.py:641-642 | Chains never meet |
| Chains.DeletableAlone | ledger/services.py:701-729 | A voucher can be deleted if and only if it is ordinary, alone in its chain and not used as payment |
| Chains.StepChanges | ledger/services.py:102-739 | Every call adds one voucher, reverses one, removes one, or leaves the voucher table alone, and says which |
| Chains.BooksAreInForce | ledger/balances.py:24-26 | In every reachable database every balance is the sum over the last vouchers of odd chains alone |
| Chains.NumbersAreConsecutive | ledger/services.py:56-63 | Over every run the numbers given out are 1, 2, 3, ... up to the counter, whatever is refused or deleted |
| Effects.PairMoves | ledger/services.py:426-619 | Each pair service moves its amount from the account that loses to the one that gains (by kind: received money into the account, paid money from it, and so on) and no other balance |
| Effects.DealAccepted | ledger/services.py:222-330 | A deal is accepted if and only if a base currency other than its own is defined, its figures are positive, its currency and customer are active, its settlement and delivery accounts are active and keep just that currency, its key is free, neither quantity nor total rounds to nothing, and the quantity is stored alike with all its digits and rounded to 28 |
| Effects.PairAccepted | ledger/services.py:406-621 | Each pair service accepts an order if and only if its amount, accounts (kinds, activity, currency), key and stored amount are as it asks, written out by service |
| Refusals.DealOutcome | ledger/services.py:222-265 | A deal whose accounts are there is refused by the first of the source's reasons that holds, in their order, with that error, and posted if none does |
| Refusals.PairOutcome | ledger/services.py:406-621 | So is an order of each pair service |
| Refusals.LinesOutcome | ledger/services.py:109-160 | And so are lines given one by one: none, a key that is taken, unbalanced, a zero line, one stored as zero, unbalanced as stored |
| Refusals.AllocationRefused | ledger/views.py:459-477 | A refused allocation is told that there is no such deal, or that it does not fit |
| Effects.SystemAccounts | core/models.py:107-119 | A position account keeps its own currency alone, the opening account any, and neither counts as the house's or a customer's |
| Effects.RegisteredAccounts | core/models.py:54-86 | Any other account is what its row says and keeps just the currency of its row, if there is one |
| Refusals.VoidOutcome | ledger/services.py:635-686 | In a well-formed database a void is refused where there is no voucher, where it is void and where the reason is nothing but white space, each with its own error, and goes through otherwise |
| Refusals.DeleteOutcome | ledger/services.py:701-739 | A delete is refused where there is no voucher, where it is void, where it is a reversal and where an allocation uses it as payment, and goes through otherwise |
| Effects.OrderBooked | ledger/services.py:122-163 | Every accepted order becomes one final voucher of its service's kind, it and all its rows on the order's date, under the next number and the order's key, with a deal if and only if it is one |
| Effects.LinesBooked | ledger/services.py:131-149 | Lines given one by one become rows in their order, each as stored |
| Effects.MovesOnItsDate | ledger/balances.py:28-33 | What an order moves it moves in the balances as of its date and every later day, and in none before |
| Effects.PairMovesOn | ledger/services.py:426-621 | The move of a pair service, as of any day |
| Effects.DealMovesOn | ledger/services.py:268-330 | The four legs of a deal, as of any day |
| Effects.PairOnBothSides | ledger/balances.py:348-366 | A pair service adds its amount once to the debits and once to the credits of its currency, in every period its date lies in, ends included |
| Effects.DealMoves | ledger/services.py:268-296 | A purchase brings the quantity to the currency side and takes the total from the base side against the position accounts, a sale the opposite, and no other balance moves |
| Effects.DealOpens | ledger/forms.py:183-327 | While it is final, a deal is open for settlement exactly when its base amount stayed on the customer, and for delivery exactly when its currency did |
| Effects.DealCoverable | ledger/models.py:180-213 | Of a posted deal there is its whole total to settle, and to deliver its whole quantity, or nothing where it was handed over at once |
| Effects.PairListed | ledger/forms.py:183-327 | A voucher of the pair services is listed, while final, if and only if it is a receipt, payment or transfer in the currency of the use, and the deal's customer gave in it (to settle a sale or deliver a purchase) or got (the other two) |
| Effects.OthersNotListed | ledger/forms.py:205-213 | Neither a deal nor a reversal is ever listed as a payment |
| Effects.AllocationAccepted | ledger/forms.py:217-327 | An allocation is accepted if and only if it is at least a quantum, of a listed payment for an open deal not yet joined, and leaves both within their bounds, up to the last quantum |
| Invoices.OpenInRun | ledger/forms.py:223-313 | In every reachable database a deal is open for settlement, or for delivery, if and only if it is final and its order named no other account for that side |
| Invoices.CoverableInRun | ledger/models.py:186-213 | In every reachable database a deal has its whole total to be settled, and its whole quantity to be delivered unless its order named another account for the currency |
| Invoices.ListedInRun | ledger/forms.py:183-292 | In every reachable database a voucher is listed for a deal if and only if it is final and the two orders match, written out by use and side |
| Effects.CashSettles | ledger/forms.py:189-215 | A cash voucher in base is listed to settle its customer's deal if and only if it is a receipt exactly where the deal is a sale |
| Effects.CashDelivers | ledger/forms.py:270-292 | A cash voucher in the deal's currency is listed to deliver it if and only if it is a payment exactly where the deal is a sale |
| Effects.PostThenVoid | ledger/services.py:635-675 | Posting and then voiding restores every balance on every account, currency and cut-off |
| Effects.PostThenDelete | ledger/services.py:701-729 | Posting and then deleting restores vouchers, allocations and (unless it was a deal) inventory; only the number is used up |
| Effects.KeyOnlyOnce | ledger/services.py:113-116 | Once an external key is posted, no order with it is accepted again and repeating it changes nothing |
| Effects.RepeatIsDuplicate | ledger/services.py:113-116 | An order whose key is taken is told the voucher that holds it, before anything is said of its lines |
| InventoryBooks.DealKeepsAgreement | ledger/services.py:344-367 | A posted deal keeps stock equal to bought minus sold if and only if its quantity rounds alike alone and added to the stock |
| Witnesses.StockLeavesDeals | ledger/services.py:344-367 | Under both roundings, two committed deals after which stock is not bought minus sold |
| InventoryBooks.StockIsBoughtMinusSold | ledger/services.py:344-399 | In every reachable database, through shorts, voids and deletes in any order, stock is bought minus sold over the deals whose voucher is final |
| InventoryBooks.RowsAlwaysFit | ledger/services.py:365-399 | In every reachable database stock and average of every row are numbers their columns can hold |
| InventoryBooks.TidyRun | ledger/services.py:268-296 | When orders name no position account, each ordinary voucher puts exactly its deal on the position accounts |
| InventoryBooks.LedgerAgainstStock | ledger/services.py:637-671 | The position account is minus the stock, but for what undone reversals put back into the books |
| InventoryBooks.StockIsMinusLedger | ledger/services.py:268-296 | While no reversal is voided, stock is exactly minus the ledger balance of the position account |
| Witnesses.ReversalVoided | ledger/services.py:635-675 | Posting a deal, voiding it and voiding the reversal restores every balance the deal made, and leaves stock as before the deal |
| Witnesses.BooksLeaveStock | ledger/services.py:637-671 | A run, under every rounding, in which the position account is not minus the stock |
| Drift.BooksReplayDeals | ledger/services.py:304-330 | In every run that leaves its deals alone, under every rounding, inventory rows and reported totals are the replay of the deals as entered |
| Drift.ReportedDrift | ledger/models.py:163-172 | The drift bound on the stored rows and reported totals themselves |
| Drift.RoundedNetWorth | ledger/balances.py:294-345 | Under every rounding, in runs that leave deals alone and never go short, net worth is realised plus unrealised profit less the internal accounts up to half a quantum per unit of weight |
| AllocationSafety.AllocateCovers | ledger/models.py:186-213 | An allocation raises what is covered of its deal by its amount and of nothing else, in neither use |
| AllocationSafety.AllocateDraws | ledger/forms.py:237-254 | An allocation draws its amount from its payment for its customer and from nothing else |
| AllocationSafety.SafeStep | ledger/forms.py:217-255 | Every call keeps both capacity bounds |
| AllocationSafety.NeverOverdrawn | ledger/forms.py:217-327 | In every reachable database no deal is covered beyond its total or customer leg and no payment is drawn beyond the customer's leg of it, for settlements and deliveries |
| AllocationSafety.RemainingIsExact | ledger/models.py:185-213 | Settled plus remaining is the total, upfront plus delivered plus remaining is the quantity: the clamps never bite |
| AllocationSafety.VoidFreesExactly | ledger/models.py:185-205 | Voiding reopens exactly what the voucher covered as a payment and frees exactly what it drew as a deal |
| Transactions.CommitIsSerial | ledger/views.py:465-477 | A transaction that read its rows under lock commits what the same call would do on its own at that moment |
| Transactions.Serializable | ledger/views.py:465-477 | Under every interleaving with aborts the database is that of a serial run of the committed calls |
| Transactions.SafeUnderConcurrency | ledger/services.py:56-63 | Under every interleaving capacities hold and committed posts are numbered 1, 2, ... up to the counter |
| Transactions.NoDeadlock | ledger/views.py:465-469 | No reachable state has a cycle of service calls waiting for each other, on row locks or on an external key being inserted |
| Transactions.SomeoneCanMove | ledger/views.py:465-469 | While a transaction is open, some transaction is not blocked |
| Balances.RowsMatchVouchers | ledger/balances.py:24-26 | A sum over the posted rows is the sum over the vouchers of their entries |
| Balances.OrderedSound | ledger/balances.py:142-147 | Sorted rows go by date, on one date by voucher number, in one voucher by row number, and none is lost or added |
| Balances.RowsPlaced | ledger/balances.py:132-175 | In well-formed books no two rows share a place, so the order is total |
| Statements.Accumulate | ledger/balances.py:145-175 | The loop's running and closing figures are sums over the rows before and including each row |
| Statements.AccountStatement | ledger/balances.py:132-175 | Rows are exactly the account's in the period and currency, by date, voucher number and row number (newest first only reorders); each shows the sum of the account's rows no later than it in that order; opening is the balance before the period, closing the balance as of its end |
| Statements.RunningIsBalance | ledger/balances.py:153-175 | A row's running value does not depend on the period asked for: it is the balance right after the row |
| Statements.EndsAreBalances | ledger/balances.py:37-55 | Opening and closing sums are balances for every account, currency and pair of dates in order |
| Statements.AdjacentPeriods | ledger/balances.py:132-175 | One period closes on the balance the next opens with |
| Statements.CurrencyTotalsVanish | ledger/balances.py:279-291 | Each currency sums to zero over all accounts for every cut-off and period |
| Statements.DebitsEqualCredits | ledger/balances.py:348-366 | Debits equal credits in every currency over every period in every reachable database |
| Reports.FillTrades | reports/views.py:90-100 | Each bucket holds exactly the deals of its date, currency and side |
| Reports.KeysInOrder | reports/views.py:102-105 | The rows stand by date, then by the currency's sort order, then purchases before sales, ties in order of first appearance, one row per key |
| Reports.FirstSeenOrder | reports/views.py:90-97 | Keys are listed as their deals are first seen |
| Reports.DealsOrdered | reports/views.py:77-82 | Deals are reported in the order of their vouchers, each once |
| Reports.DailyData | reports/views.py:76-112 | One row per date, currency and side that occurs, in that order, with its sums and average; totals taken from the deals |
| Reports.RowsMatchTotals | reports/views.py:90-112 | Row totals and counts add up to the flat totals |
| Reports.BucketsPartition | reports/views.py:90-100 | However deals are put into buckets, the buckets together hold what the deals hold |
| Prices.AverageBetween | reports/views.py:106-107 | A row's average price lies between the least and greatest price its deals come to |
| Prices.AverageNearPrices | reports/views.py:106-107 | In every run, against stored unit prices the average is off by at most, over the quantity, half a quantum per deal and per unit, and half a quantum more per deal and unit of price if quantities were rounded too |
| Prices.AverageWithinPrices | reports/views.py:106-107 | In every run the average lies between the unit prices when nothing was rounded on the orders of that date, currency and side |
| Prices.SingleDealAverage | reports/views.py:106-107 | A row of one deal whose factors fit their columns averages its unit price if and only if the product fits its column; in general, if and only if the total rounds to the product of the rounded factors |
| Witnesses.AverageLeavesPrices | reports/views.py:106-107 | Committed deals whose average leaves their price: one quantum at 1.4, and three units for a typed total of 100 |
| Reports.FillDays | reports/views.py:171-186 | The bucket of each date holds exactly that date's purchases, sales, numbers of each, and profit |
| Reports.RunningProfit | reports/views.py:188-208 | The loops over sorted days yield, for each day, the profit of all deals up to it and its margin, and count the days of profit and of loss |
| Reports.MarginSound | reports/views.py:192-208 | The margin is the profit in percent of the sales, and missing exactly where nothing was sold |
| Reports.DailyProfit | reports/views.py:154-209 | One row per date in order; totals, margin and numbers of days are those of all deals and rows; the last running profit is the period's profit |
| Reports.AdjacentRanges | reports/views.py:161-169 | Every reported figure of a range is the sum of those of two adjacent parts |
| Reports.SelectFinds | reports/views.py:76-88 | Exactly the deals of the period, side and currency asked for are reported |
| Reports.FiltersPartition | reports/views.py:83-88 | Reports on single currencies add up to the one on all, and reports on the two sides to the one on both |
| Reports.SalesCarryProfit | reports/views.py:255-260 | Leaving purchases out of the query does not change the profit |
| Reports.CurrencySplit | reports/views.py:265-270 | Grouping by currency loses nothing |
| Reports.ProfitData | reports/views.py:253-312 | One row per currency sold or held, by sort order; each shows its own sales' quantities, totals, number and profits, its stock, average and rate, and rate less average times stock where both are there; totals are those of all sales and all rated stock; missing lists the unrated stock in row order |
| Reports.ProfitRowsAddUp | reports/views.py:265-312 | Over the rows, quantities sold, turnovers, numbers of deals, profits and unrealised figures add up to those of all the sales and to the total shown |
| Reports.ProfitReportsAgree | reports/views.py:154-312 | The daily report's profit equals the profit report's realised total for the same range and currency |
| NetWorth.NetWorthSnapshot | ledger/balances.py:294-345 | A row per active currency, by sort order and code, with house and customer holdings; the grand total is their rate-valued sum; missing lists the unrated ones with a balance in row order |
| NetWorth.CashMovesColumns | ledger/balances.py:308-330 | A receipt from a customer at a bank or cash box moves its amount from the customers' column to the house's, a payment back, and a transfer between customers moves neither |
| NetWorth.ReportsAfter | reports/views.py:162-166 | Posting a deal adds it to every reported figure, voiding changes none, deleting removes exactly the deal |
| NetWorth.HoldingsVanish | ledger/balances.py:294-320 | What house and customers hold of a currency is what the internal accounts hold against it |
| NetWorth.PositionsByDeals | ledger/services.py:268-296 | In every run whose orders name no position account, each holds one amount per deal in force, and what undone reversals put back |
| NetWorth.StockByDeals | ledger/services.py:344-399 | In every run with eight-decimal quantities stock is bought minus sold over the deals in force |
| NetWorth.NetWorthIdentity | ledger/balances.py:294-345 | For every run (position accounts left to deals, eight-decimal quantities) and every rounding, at rates for what was traded, net worth is reported profit less that of voided deals plus unrealised profit less the internal accounts, plus the drift of the inventory rows, less the rate value of what undone reversals put back |
| OrderlyRuns.RetractKeepsValue | ledger/services.py:371-399 | Taking a deal back changes stock value by exactly what the deal put in if and only if the deal is retractable |
| OrderlyRuns.OrderlyRunKeeps | ledger/services.py:268-399 | In orderly runs (voids and deletes of retractable deals included), per currency, sales less purchases less realised profit plus stock value is nothing over the deals in force |
| OrderlyRuns.NothingReinstated | ledger/services.py:646-671 | Where no reversal of a deal was voided, nothing is put back into the position accounts |
| OrderlyRuns.NetWorthIsProfit | ledger/balances.py:294-345 | In every orderly run net worth is all-time realised profit, less that of voided deals, plus unrealised profit, less the internal accounts |
| OrderlyRuns.CompareScreens | reports/views.py:253-312 | The two computed screens differ by the internal accounts and the realised profit of voided deals |
| LatestFirst.LatestComesBack | ledger/services.py:371-399 | The latest deal of a history can always be taken back, which gives the row of the deals before it |
| LatestFirst.LatestFirstIsOrderly | ledger/services.py:658-729 | Runs that void and delete deals latest first are orderly, and every stored row is the replay of the deals in force |
| Money.QuantizeNearest | core/money.py:90-94 | Quantising moves a number by at most half a unit of the last place, from the middle away from zero |
| Money.QuantizeFits | core/money.py:90-94 | A quantised number has at most 28 digits, and one is refused only if it would have more |
| Money.GroupedSound | core/money.py:117-118 | Grouping by threes adds nothing but commas |
| Money.CommaPlaces | core/money.py:117-118 | The commas stand before every third digit from the right and nowhere else |
| Money.PrintedText | core/money.py:110-127 | Sign, whole part in groups, dot and decimals of what is printed: a plus only if asked for and the whole part is not zero, a hyphen or a typographic minus |
| Money.ReadDecimal | core/money.py:70-78 | A single dot is the decimal point, except before exactly three digits after a whole part not starting with zero |
| Money.SeveralDots | core/money.py:70-71 | Where there are several dots they are all separators |
| Money.DottedIsRead | core/money.py:48-78 | Every whole number written with dots between its thousands is read as that number |
| Money.LeadingDot | core/money.py:72-76 | Without a whole part a dot is the decimal point, whatever follows |
| Money.TypedAlike | core/money.py:61-63 | Persian and Arabic digits, the Persian decimal sign and comma, and a space or joiner anywhere do not change what is read |
| Money.RepeatedSigns | core/money.py:67-69 | Signs may be repeated before a number; the first counts |
| Money.NothingTyped | core/money.py:55-66 | White space is nothing typed, and so is nothing else but spaces and joiners |
| Money.ParserUndoesPrinter | core/money.py:48-127 | Reading what was printed with a sign, in Latin or Persian digits, gives the quantised number, except exactly for three decimals after a whole part, which come back a thousandfold |
| Money.DisplayedIsRead | core/money.py:123-127 | Printed for display, a negative number is refused by the reader and any other reads as it would with its sign |
| Context.FlError | ledger/forms.py:92-116 | One operation in the 28-digit context is off by at most half a unit in the 28th digit |
| Context.CtxGrid | ledger/services.py:272-296 | An eight-decimal amount that fits its column comes through a change of sign or an addition to zero as it is |
| Context.CtxTwice | ledger/services.py:68-69 | What was rounded to 28 digits once stays as it is, with its sign |
| Decimal28.PriceAccepted | ledger/forms.py:92-116 | The form settles on a price if and only if a quantity and a total or a positive price were given; a total makes the typed price irrelevant, and without one the price is what was typed |
| Decimal28.TypedTotalSurvives | ledger/forms.py:92-116 | For every quantity and every total with eight decimals up to 9e18, the unit price the form derives multiplies and rounds back to exactly the total, and a typed price gives way to it |
| Decimal28.NextTotalIsLost | ledger/services.py:228-239 | That bound is the largest for the form: for the next total there is a quantity (of 55 digits) that makes one quantum more |
| Decimal28.AwkwardLegs | ledger/services.py:272-283 | A deal of that quantity passes the second balance check if and only if columns round half away |
| Decimal28.ShortQuantityLoses | ledger/services.py:228-239 | With a quantity of 28 digits, posted under both roundings, a total of 9.5 times ten to the 18th and a quantum comes out a quantum more |
| Decimal28.LongTotalIsLost | ledger/services.py:228-239 | A total of twenty whole digits can come back a quantum short |
| Bot.Poller.HandleIncoming | bots/services.py:165-224 | A message is recorded and answered unless its external id is recorded already |
| Bot.Poller.ProcessUpdate | bots/worker.py:86-126 | One update is recorded and answered at most once; when the reply holds the words for "not registered", the message is handled again under the sender's name |
| Bot.Poller.Tick | bots/worker.py:51-83 | The round processes updates in order and saves the greatest id seen, never a smaller one |
| Bot.AnsweredOnce | bots/services.py:165-224 | A round answers every message not recorded before exactly once however often it is delivered, one recorded before not at all, and one without an id each time |
| Bot.NameTried | bots/worker.py:111-118 | A new message is tried under the sender's name if and only if there is one and the reply holds the words for "not registered" |
| Bot.RedeliveryIsSilent | bots/services.py:172-180 | Delivering the same updates again answers none of them |
| Bot.UndisturbedUpdate | bots/worker.py:86-126 | The interleaved steps of one poller, undisturbed, do what its sequential round does |
| Bot.AtMostOneReply | bots/models.py:100-106 | Over all runs with redelivery, failures, crashes between any two steps and any number of pollers, no update id is answered twice |
| Bot.LastIdGrows | bots/worker.py:69-81 | With one poller the saved id never goes back |
| Bot.TwoPollersCanGoBack | bots/worker.py:78-81 | With two it can |
| ImportSheet.AddRow | ledger/management/commands/import_sheet.py:162-174 | A row adds its debit minus credit, each operation rounded to 28 digits, to the total of every known code and changes no other |
| ImportSheet.ProcessRows | ledger/management/commands/import_sheet.py:146-196 | The loop's totals are debits minus credits over the counted rows, in 28-digit operations, for exactly the known codes some row moves, in the order in which they are first moved; issues are counted as the source does |
| ImportSheet.PlainSheet | ledger/management/commands/import_sheet.py:162-174 | For cells of at most eight decimals those totals are the plain sums |
| ImportSheet.MismatchMeans | ledger/management/commands/import_sheet.py:176-188 | A row is reported if and only if it has a quantity, a price (of the sale, or else of the purchase) and an amount, and quantity times price is off by more than one |
| ImportSheet.IssuesCounted | ledger/management/commands/import_sheet.py:146-196 | One issue for each row that counts and does not match, and one for each with an unreadable date |
| ImportSheet.PostOpening | ledger/management/commands/import_sheet.py:216-253 | The loop posts the openings in order, passes over zeros and duplicates, counts other refusals, and puts everything back when an amount breaks the constraint on entries |
| ImportSheet.OpeningOutcome | ledger/services.py:590-619 | What the service makes of an opening: refused for an unknown customer, for its key or because its legs are stored differently, broken by the constraint, or committed, each exactly when |
| ImportSheet.ImportOutcome | ledger/management/commands/import_sheet.py:232-253 | An import is aborted if and only if a total not posted before is lost to rounding; otherwise exactly the non-zero totals are posted afterwards |
| ImportSheet.ImportTwice | ledger/management/commands/import_sheet.py:234-246 | Importing again, on any day, adds nothing, and is aborted if and only if the first was |
| ImportSheet.BalancesAfterImport | ledger/management/commands/import_sheet.py:161-253 | A first import of a customer without rows leaves each column's total as stored, or nothing at all if a total is lost |
| ImportSheet.FirstImport | ledger/management/commands/import_sheet.py:161-253 | Every currency gets its stored total if and only if no total is lost to rounding, or all store as zero |
| ImportSheet.FloatSheetAborts | ledger/management/commands/import_sheet.py:161-253 | A sheet with a float's leftover in one column posts nothing, the hundred in the other included |
| ImportLocks.CallsAreJobs | ledger/services.py:203-739 | Every service call takes its locks as such a transaction does: rows in order, then its key, then the counter |
| ImportLocks.DeadlockIffClash | ledger/management/commands/import_sheet.py:216-253 | Any number of service calls and imports can come to wait for each other in a circle if and only if the first key of one is a later key of another |
| ImportLocks.ImportsDeadlock | ledger/management/commands/import_sheet.py:234-246 | Two imports can, if and only if they are of one customer and the first code of one sheet comes later on the other |

## Left out

- Statements.AccountStatement: the case of a period that ends before it begins has no claim about its closing balance.
- Transactions.NoDeadlock: is about single service calls; `ImportLocks` joins the import to them, which posts several openings in one transaction. There an opening that is refused keeps none of its locks, and finding or creating the customer takes none.
- Transactions.Serializable: an effect is published at commit and a duplicate external key is found then, which is what the unique constraint comes to; reads outside locks within one service are not interleaved, except the form's three queries.
- Bot.AtMostOneReply: says nothing of updates without an id, which are not deduplicated.
- Money.ParserUndoesPrinter: digits other than Latin, Persian and Arabic ones, which Python also takes for digits, are refused by the model.
- Rounding to 28 digits in the inventory average, in the profit of a sale, in quantity times price outside the deal form, and in sums and differences of stored amounts; and in amounts of more than twenty whole digits, which no column holds.
- SQLite's lack of row locks and its floating-point sums: locks and sums are those of PostgreSQL.
- Reports.ProfitData: currencies with equal sort order stand by id; the source leaves their order to a set.
- Column widths: a number with more digits than its column holds is refused by the database and accepted by the model.
- Rates stored on entries, descriptions, creators, timestamps, audit log, receipts and attachments: no figure proved about depends on them.
- Parties and currencies (with their kinds and active flags) are fixed during a run; find-or-create races on position, equity and counter rows are not modelled, and the accounts they find exist from the start.
- Row keys are consecutive; gaps that a database leaves after rollbacks are not modelled.
- The six services that post one pair of lines share one method, `Services.Ledger.PostPair`.
- `bulk_party_balances`, `value_in_base`, `house_accounts_summary` and `house_currency_snapshot`: the same sums grouped otherwise.
- Rates are an arbitrary map; fetching them and choosing the latest are not modelled, nor is the display unit (rial or toman).
- Reading spreadsheets and their headers: the import starts from cells already read as numbers.
- Replies, command words and sender matching in the bot: whether a reply holds the words for "not registered" is a parameter. The webhook of the second messenger is not modelled.
- HTTP, permissions, templates, exports, calendar conversion, backup and data reset.
