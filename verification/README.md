# Money planning in Orders, and the protocols that guard it

A model of the part of Orders that decides where money goes when a booked order changes, and of the step
protocols around it, with proofs of what they keep.

| files | what they model or prove |
|---|---|
| `Rounding`, `Sorting`, `Decimals`, `Outcomes` | cent arithmetic, the stable sort, decimal printing, result shapes |
| `Recognition`, `RecognitionProofs` | lowering a term's amount: catch-up, mirrored offsets, re-spread |
| `Billing`, `BillingProofs` | where the reduction lands: instalments, invoice, refund, open credit |
| `CreditMemo` | the memo's split, entry and number, and the lines instalments bill afterwards |
| `AmountChange`, `AmountChangeProofs`, `OrderChanges`, `AmountChangeExamples` | checking, applying and approving a change; an order of several lines over whole runs; two inputs that fail |
| `BundleBehavior`, `BundleProofs`, `BundleEngine`, `BundleEngineProofs`, `BundleRuns` | price allocation, expansion at every save, ripple, inheritance over runs of saves |
| `AccountCredit` | many calls spending credits at once, with row locks |
| `AccountStep` | the account step after a checkout |
| `CancelSubscription`, `GatewayCancel` | which terms a cancel ends, and the gateway-first protocol |
| `CapturePayment` | one payment per idempotency key |
| `ChargeReconciliation` | the gateway's charges against Orders' payments, and the key of a mismatch |
| `RecognitionResults`, `BillingResults` and the other `Results` files | for each of these, what its operations answer with every part written out, and exactly when they refuse |

## How to read it

- Amounts are integer cents, bundle quantities ten-thousandths, days and instants integers. `Math.round` is
  `Rounding.RoundDiv`, which rounds halves up on either side of zero; `Rounding.IsRounded` says what that means
  without naming it, and `Rounding.WithinOne` says that a part is the floor or the ceiling of its exact share.
- Ids are numbers, already case-folded. An empty string stands for no document, number or key.
- Code that changes fields or rows is a class or a loop, each method proved against a function of its inputs and old
  state; what the code is for is then proved about that function. `AmountChange.Arrangement`, `Billing.ChangeTable`,
  `BundleEngine.OrderLines` and `AccountStep.StoredStep` are the stateful objects.
- A protocol is a state, a function from a state and a move to the next, and lemmas over every list of moves. Moves
  include every call's steps, a crash or lost answer at each point where the code can meet one, and other writers.
- Whatever the code asks elsewhere is a parameter of any value: a recognition driver, the host's answers, which saves
  succeed, which charges the gateway refunded, what a lookup misses.
- `OrderChanges.AllSound` is the invariant of an order's books, `AmountChangeProofs.Sound` what one of its terms sees
  of it, and `RecognitionProofs.Holds` that of a term's ledger: balanced entries between one deferred and one revenue
  side, of lines accounting books, netting to the term's amount.
- Accounting is outside: it refuses drafts with a line that carries no positive amount (`Recognition.Takes`).

## Where the code does not do what its text says

The lemma named says exactly when the code does meet the property, or what it does instead; a lemma with a concrete
input that fails stands beside it where an input is not plain from the condition.

- A second change on the same day is refused as not adding up when more was recognised before that day than the
  first one left, although the ledger ties (`RecognitionProofs.SameDayAddsUpExactlyWhen`).
- `NetRelease` cannot refuse a net reversal: it reads one as a release with the accounts swapped
  (`RecognitionProofs.PairedRelease`).
- The drivers' even split can make its first slice negative. The planner accepts such a schedule and accounting then
  refuses it, so an approval fails although its check passed (`RecognitionProofs.EvenScheduleTakenExactlyWhen`,
  `AmountChangeExamples.NegativeScheduleIsRefused`).
- Each change rounds its share of the line's tax by itself, so several small cuts can take more tax than the line has
  and leave it impossible to invoice (`OrderChanges.InvoicedExactlyWhen`, `AmountChangeExamples.FiveCutsTakeTooMuchTax`).
- A bundle component that is itself a bundle passes the first save and stops the second
  (`BundleEngineProofs.SecondSaveExactlyWhen`).
- A child whose quantity rounds to nothing loses its share of the bundle's price
  (`BundleProofs.ShareLostExactlyWhen`). A bundle with no bundled component is split evenly over nothing: the split
  is returned, no child takes it, and it is not reported as even (`BundleProofs.UnbundledSplitUnused`).
- The ripple reads today's catalog, where its comment promises the quantities agreed at expansion
  (`BundleEngineProofs.RippleKeepsSoldExactlyWhen`, `BundleEngineProofs.RippleFollowsTheCatalog`).
- A save while a bundle's product has no components leaves its children behind any edit made with it
  (`BundleRuns.SkippedSaveFollowsExactlyWhen`).
- A cancel made after every open term is over can leave an earlier one open
  (`CancelSubscription.NoneLeftOpenExactlyWhen`).
- Two cancels at once can leave the gateway ending later than the coverage Orders recorded, though it charges nothing
  more (`GatewayCancel.LandedWriteKeepsEndExactlyWhen`).
- A charge could have two mismatches, but not from what the reconciliation gathers
  (`ChargeReconciliation.TwoMismatchesExactlyWhen`, `ChargeReconciliation.OneMismatchPerCharge`).

## Model

| member | source | states |
|---|---|---|
| `Recognition.NetRelease` | packages/CoreEntitiesServer/src/TermExtensionPlan.ts:170-195 | The nested loop over entries and lines reads off `ReleaseOf`, the release of the whole list; the next two rows say what that is. |
| `Recognition.ReleaseMeaning` | packages/CoreEntitiesServer/src/TermExtensionPlan.ts:180-194 | A release of an amount between two sides is named if and only if one side nets to just that credit, one to just that debit, and every other side to zero. |
| `Recognition.NothingMeaning` | packages/CoreEntitiesServer/src/TermExtensionPlan.ts:180-184 | Nothing is released if and only if every account and dimension nets to zero. |
| `RecognitionProofs.PairedRelease` | packages/CoreEntitiesServer/src/AmountChangePlan.ts:104-131 | On a deferred and revenue ledger the release is never refused; a net reversal comes back as a positive release with the accounts swapped, so the branch meant to refuse reversals cannot be reached. |
| `RecognitionProofs.AddsUpExactlyWhen` | packages/CoreEntitiesServer/src/AmountChangePlan.ts:112-131 | The "adds up" check passes if and only if what is dated before the effective day is neither a net reversal nor more than the term's amount. |
| `RecognitionProofs.PlanBounds` | packages/CoreEntitiesServer/src/AmountChangePlan.ts:96-160 | On every accepted plan: 0 <= catch-up <= min(reduction, recognised), 0 <= remaining <= replaced, and recognised - catch-up + remaining is the new amount exactly. The signs are proved, not assumed. |
| `RecognitionProofs.CatchUpIsEarnedShare` | packages/CoreEntitiesServer/src/AmountChangePlan.ts:132-133 | The catch-up is the recognised share of the reduction, rounded to the nearest cent. |
| `RecognitionProofs.TargetsMeaning` | packages/CoreEntitiesServer/src/AmountChangePlan.ts:104-112 | The replaced entries are those dated from the effective day on, each once, in date order, and they net to what the ledger has left after the earlier ones. |
| `RecognitionResults.TargetsAre` | packages/CoreEntitiesServer/src/AmountChangePlan.ts:104-112 | An accepted plan's replaced entries are those of the effective day or later, each as often as it is staged, by day and then by number. |
| `RecognitionProofs.MirrorCancels` | packages/CoreEntitiesServer/src/AmountChangePlan.ts:190-200 | A mirrored line cancels its line if and only if as much of debit as of credit is negative: the mirror drops negative amounts. |
| `RecognitionProofs.OffsetsCancelTargets` | packages/CoreEntitiesServer/src/AmountChangePlan.ts:149-156 | Each offset cancels its own target account by account, on the target's own day. |
| `RecognitionResults.OffsetsAre` | packages/CoreEntitiesServer/src/AmountChangePlan.ts:149-156 | An accepted plan has one pending draft for each replaced entry, on its day, each line's sides exchanged. |
| `RecognitionProofs.AcceptedPlan` | packages/CoreEntitiesServer/src/AmountChangePlan.ts:117-160 | Over a term's ledger an accepted plan reads the net before the effective day as recognised and the rest as replaced, and its catch-up entry takes revenue back to deferred. |
| `RecognitionProofs.NewSchedule` | packages/CoreEntitiesServer/src/AmountChangePlan.ts:163-186 | The re-spread releases exactly what remains, between the term's own two accounts, whatever the driver. |
| `RecognitionResults.ScheduleIs` | packages/CoreEntitiesServer/src/AmountChangePlan.ts:163-186 | The new schedule has one draft for each slice of the driver's that recognises anything, in order, on that slice's own day, from deferred to revenue; up to any day it nets to the slices dated before it, and they run from the earliest replaced day. |
| `RecognitionResults.NothingStaged` | packages/CoreEntitiesServer/src/AmountChangePlan.ts:103-106 | A term recognised in full at once: the whole reduction is taken back, with no entries. |
| `RecognitionResults.EarlyRefusals` | packages/CoreEntitiesServer/src/AmountChangePlan.ts:88-115 | A new amount of nothing, one that is not lower, or a later entry that is posted or in a batch: each refused exactly when it holds and none before it does. |
| `RecognitionResults.UnclearExactlyWhen` | packages/CoreEntitiesServer/src/AmountChangePlan.ts:117-120 | The release is unclear exactly when what is dated before the effective day, or what is not, comes to no single release. |
| `RecognitionResults.DriverRefusals` | packages/CoreEntitiesServer/src/AmountChangePlan.ts:133-188 | On a ledger that adds up, what refuses a plan is a missing driver or a schedule that does not come to what remains, and nothing else does. |
| `RecognitionProofs.PostedPaired` | packages/CoreEntitiesServer/src/AmountChangePlan.ts:134-187 | Every draft a plan posts balances and moves money between the term's two accounts only, and accounting takes them if and only if it takes the re-spread. |
| `RecognitionProofs.PostedNet` | packages/CoreEntitiesServer/src/AmountChangePlan.ts:134-187 | In all, and up to any day, what is posted nets to the new schedule less the catch-up less what is replaced. |
| `RecognitionProofs.ChangeKeepsNet` | packages/CoreEntitiesServer/src/AmountChangePlan.ts:117-187 | One accepted change whose drafts accounting books leaves a ledger whose net is the term's new amount. |
| `RecognitionProofs.RunKeepsNet` | packages/CoreEntitiesServer/src/AmountChange.ts:410-423 | Over every sequence of changes accepted and booked, on any effective days, the net of all recognition entries is the term's current amount at every point. |
| `RecognitionProofs.NextChangeAddsUp` | packages/CoreEntitiesServer/src/AmountChangePlan.ts:117-131 | After an applied change the next change's check passes on every later day, and on that day or earlier if and only if what was dated before it is between zero and the new amount. |
| `RecognitionProofs.SameDayAddsUpExactlyWhen` | packages/CoreEntitiesServer/src/AmountChangePlan.ts:112-131 | Two changes on one day: the second is refused if and only if more was recognised before that day than the first one left as the term's amount. |
| `RecognitionProofs.SecondChangeRefused` | packages/CoreEntitiesServer/src/AmountChangePlan.ts:112-131 | The refusing family is not empty: whenever more was recognised than an accepted change leaves, a second change that day exists and is refused although the ledger ties. |
| `RecognitionProofs.SecondChangeOnOneDayRefused` | packages/CoreEntitiesServer/src/AmountChangePlan.ts:112-131 | A concrete pair: 100 with 90 recognised, cut to 10 and then to 1 on one day. |
| `RecognitionProofs.EvenSplitExactlyWhen` | packages/CoreEntitiesServer/src/RevenueRecognition.ts:92-98 | The drivers' even split sums exactly, and its first slice is non-negative if and only if the base rounded down or the remainder covers what rounding up added to the others. |
| `RecognitionProofs.EvenSplitCanGoNegative` | packages/CoreEntitiesServer/src/RevenueRecognition.ts:92-98 | Seven cents over twelve periods starts with minus four. |
| `RecognitionProofs.PostedTakenExactlyWhen` | packages/CoreEntitiesServer/src/AmountChange.ts:417-421 | Of entries accounting booked, a plan's drafts are taken if and only if its new schedule is: catch-ups and offsets never make accounting refuse. |
| `RecognitionProofs.RespreadTakenExactlyWhen` | docs/reviewing-the-data.md:233-234 | Accounting, which refuses negative amounts, takes a new schedule if and only if no slice is negative. |
| `RecognitionProofs.PlanTakenExactlyWhen` | packages/CoreEntitiesServer/src/AmountChange.ts:417-421 | Over a term's ledger an accepted plan is booked if and only if the slices its driver made hold no negative one. |
| `RecognitionProofs.EvenScheduleTakenExactlyWhen` | packages/CoreEntitiesServer/src/RevenueRecognition.ts:92-98 | A schedule split evenly over n periods is booked if and only if amount mod n is under half of n, or the quotient plus the remainder plus one reaches n. |
| `Billing.ChangeTable.ChangeFor` | packages/CoreEntitiesServer/src/AmountChangePlan.ts:364-371 | Finds a row's change or starts one that changes nothing; every row's planned amount is unchanged. |
| `Billing.ChangeTable.TakeInOrder` | packages/CoreEntitiesServer/src/AmountChangePlan.ts:328-338 | The shared table's amounts become `InOrder` of what they were, a change is started for just the rows looked at, and what is left is returned. |
| `Billing.ChangeTable.SpreadProRata` | packages/CoreEntitiesServer/src/AmountChangePlan.ts:344-362 | The shared table's amounts become `ProRata` of what they were, a change is started for every row, and what cannot be placed is returned. |
| `Billing.SpreadTheRest` | packages/CoreEntitiesServer/src/AmountChangePlan.ts:317-325 | Spreading what is left through the table an earlier step may already have lowered gives the plan `Land` describes. |
| `Billing.PlanReduction` | packages/CoreEntitiesServer/src/AmountChangePlan.ts:263-325 | The imperative planner over one mutable table computes `ReductionOf` on every input with distinct instalments, refusals included. |
| `BillingProofs.InOrderMeaning` | packages/CoreEntitiesServer/src/AmountChangePlan.ts:328-338 | Taking in due order is the one result that takes the amount, keeps every row between zero and what it was, and uses each row up before touching the next (if and only if). |
| `BillingProofs.SpreadBounds` | packages/CoreEntitiesServer/src/AmountChangePlan.ts:344-362 | The spread removes exactly the amount less what it returns, keeps each row between zero and its old value, and clears all of them when the amount covers them. |
| `BillingProofs.SpreadIsFair` | packages/CoreEntitiesServer/src/AmountChangePlan.ts:344-362 | Each row gives within a cent of its exact share, and every prefix of rows gives its exact share rounded to the nearest cent. |
| `BillingProofs.ReductionConserved` | packages/CoreEntitiesServer/src/AmountChangePlan.ts:263-325 | On every accepted path, any signs: gross = instalment cuts + applied credits + refund + open credit, and the memo is gross less the cuts. |
| `BillingProofs.InstalmentReduction` | packages/CoreEntitiesServer/src/AmountChangePlan.ts:284-325 | Billed by instalments: uninvoiced rows take everything not on the named invoice, up to all they bill; credit stays open only when every one is at zero; an invoice is credited at most its open balance; a refund needs a named paid invoice and the request. |
| `BillingProofs.WholeOrderReduction` | packages/CoreEntitiesServer/src/AmountChangePlan.ts:270-282 | Billed as a whole: credited up to the balance, the excess all refunded or all left open as asked. |
| `BillingProofs.BlankReduction` | packages/CoreEntitiesServer/src/AmountChangePlan.ts:315-325 | With no invoice named the memo is exactly what the uninvoiced instalments do not bill. |
| `BillingProofs.PlanChanges` | packages/CoreEntitiesServer/src/AmountChangePlan.ts:263-338 | A plan changes only uninvoiced instalments of the order, each at most once, each to between zero and what it billed. |
| `BillingResults.RowsInDue` | packages/CoreEntitiesServer/src/AmountChangePlan.ts:284-286 | The rows a plan lowers are the uninvoiced ones, each as often as it is there, by due date and then by number. |
| `BillingResults.ReductionIs` | packages/CoreEntitiesServer/src/AmountChangePlan.ts:263-325 | The whole plan: a paid invoice's part without refund comes off the rows oldest due first, all the rest is spread over what they then bill, every prefix in due order giving its share to the cent; which rows get a change, what is credited, refunded, left open and put on the memo. |
| `BillingResults.WholeReductionIs` | packages/CoreEntitiesServer/src/AmountChangePlan.ts:270-282 | The whole plan of an order without instalments. |
| `BillingResults.RefusedExactlyWhen` | packages/CoreEntitiesServer/src/AmountChangePlan.ts:263-310 | Each of the six refusals exactly when its own reason holds and none before it does. |
| `CreditMemo.ReduceLineAmounts` | packages/CoreEntitiesServer/src/AmountChangePlan.ts:393-421 | The cumulative-rounding loop computes `Lowered`, refusal included. |
| `CreditMemo.LoweredCredits` | packages/CoreEntitiesServer/src/AmountChangePlan.ts:401-413 | The lowered tax credits sum to just what is kept of them, whatever their signs. |
| `CreditMemo.LoweredTies` | packages/CoreEntitiesServer/src/AmountChangePlan.ts:393-421 | A lowered line is non-negative and keeps its id, its net and gross fall by exactly the reductions' net and its tax by their tax, and its credits still sum to its tax if and only if it carried tax or none was taken. |
| `CreditMemo.LoweredCreditBounds` | packages/CoreEntitiesServer/src/AmountChangePlan.ts:405-413 | Each lowered credit lies between nothing and what it was. |
| `CreditMemoResults.LoweredIs` | packages/CoreEntitiesServer/src/AmountChangePlan.ts:393-421 | A line without reductions is returned as it is; one they take more from than it has is refused; any other falls in net and gross by their net and in tax by their tax, and its credits stay on their accounts in order, every run of them from the first with its share to the cent. |
| `CreditMemo.SplitRecombines` | packages/CoreEntitiesServer/src/AmountChangePlan.ts:436-452 | For every ratio and rounding the stored pair splits into non-negative net and tax parts that add back to exactly the reduction's net and tax. |
| `CreditMemo.SplitProportion` | packages/CoreEntitiesServer/src/AmountChangePlan.ts:436-444 | The memo's net is its exact proportion of the reduction's net, to the nearest cent. |
| `CreditMemoResults.SplitIs` | packages/CoreEntitiesServer/src/AmountChangePlan.ts:436-444 | Nothing of nothing, refused exactly when the memo passes the reduction, and otherwise parts that sum to the memo, the net in proportion. |
| `CreditMemo.CreditMemoEntry` | packages/CoreEntitiesServer/src/AmountChangePlan.ts:479-521 | The loop over tax accounts computes `EntryOf`, refusals included. |
| `CreditMemo.TaxDebits` | packages/CoreEntitiesServer/src/AmountChangePlan.ts:492-508 | Whatever the list of tax accounts, their debits come to exactly the memo's tax. |
| `CreditMemoResults.EntryIs` | packages/CoreEntitiesServer/src/AmountChangePlan.ts:479-521 | By side: the entry credits the receivable by the gross, debits deferred by the net and each tax account by its share, every run of accounts to the cent, nothing else, on the effective day with the memo's dimensions; and exactly when it is refused. |
| `CreditMemo.EntryBalancesExactlyWhen` | packages/CoreEntitiesServer/src/AmountChangePlan.ts:479-521 | The memo's entry balances if and only if its net is not negative and no negative tax meets a list that credits nothing. |
| `CreditMemo.NumberIsFresh` | packages/CoreEntitiesServer/src/AmountChangePlan.ts:524-531 | The next memo's number is not one the order already used. |
| `CreditMemoResults.NumberIs` | packages/CoreEntitiesServer/src/AmountChangePlan.ts:524-531 | The next number is one past the highest the order has used, or the first. |
| `AmountChange.Arrangement.CheckAmountChange` | packages/CoreEntitiesServer/src/AmountChange.ts:134-348 | Checks in the source's order and returns `CheckOf`, writing nothing. |
| `AmountChange.Arrangement.Guard` | packages/CoreEntitiesServer/src/AmountChange.ts:288-327 | The four guards after planning, refusing for the first that fails. |
| `AmountChange.Arrangement.LowerInstalments` | packages/CoreEntitiesServer/src/AmountChange.ts:546-564 | Row by row: a new amount or a cancel, refusing a row invoiced meanwhile; on success the rows are `LowerAll`. |
| `AmountChange.Arrangement.CreditInvoices` | packages/CoreEntitiesServer/src/AmountChange.ts:489-514 | Invoice by invoice: refuses past its amount; on success the rows are `CreditAll`. |
| `AmountChange.Arrangement.ApplyAmountChange` | packages/CoreEntitiesServer/src/AmountChange.ts:383-442 | Succeeds if and only if `ApplyOf` does, accounting's refusal of drafts it cannot book included, and then the object holds just the books it gives. |
| `AmountChange.Arrangement.Approve` | packages/CoreEntitiesServer/src/OrderConcessionEntityServer.ts:268-292 | Stamp, save and apply as one transaction: all of `ApprovedOf`, or the state as it was. |
| `AmountChangeResults.TaxIs` | packages/CoreEntitiesServer/src/AmountChange.ts:246-254 | The tax taken back is the sum over all the line's tax charges of each one's own rounded share, of no more than the line's net. |
| `AmountChangeResults.EarlyRefusals` | packages/CoreEntitiesServer/src/AmountChange.ts:134-286 | The refusals before the guards, each exactly when it holds and none before it, the two planners' own included. |
| `AmountChangeResults.MemoRefusal` | packages/CoreEntitiesServer/src/AmountChange.ts:288-289 | A memo is too large exactly when it passes what the change takes. |
| `AmountChangeResults.GuardRefusals` | packages/CoreEntitiesServer/src/AmountChange.ts:291-348 | Another charge, a line billed past its lowered net, a row below what is paid: each refused exactly when it holds and none before it; otherwise the answer is the plan. |
| `AmountChangeResults.RecordedIs` | packages/CoreEntitiesServer/src/AmountChange.ts:489-502 | What is recorded on an invoice is all that is applied to it and, on the one named, what is refunded; no invoice twice. |
| `AmountChangeResults.RowsBecome` | packages/CoreEntitiesServer/src/AmountChange.ts:489-564 | What an approval makes of every row: its own planned amount or a cancel, the memo's credit on the named one, and nothing else. |
| `AmountChangeResults.StampIs` | packages/CoreEntitiesServer/src/OrderConcessionEntityServer.ts:375-399 | What the approval stores, its memo number one past the highest used or blank without a memo. |
| `AmountChangeProofs.CheckedAgain` | packages/CoreEntitiesServer/src/AmountChange.ts:209-212 | With the change saved and its reduction already off the balance, the second check gives exactly what the first gave: `ownReductionInBalance` adds back just what saving took off, and its own row is left out. |
| `AmountChangeProofs.LowerAllKeeps` | packages/CoreEntitiesServer/src/AmountChange.ts:546-564 | Rows a passed check planned are lowered without refusal, by exactly the cut, invoices untouched. |
| `AmountChangeProofs.LoweredStep` | packages/CoreEntitiesServer/src/AmountChange.ts:288-327 | After a passed check the schedule falls by exactly what the change stores as taken off it, and nothing goes below what is paid. |
| `AmountChangeProofs.CreditedStep` | packages/CoreEntitiesServer/src/AmountChange.ts:489-514 | Crediting can refuse only a refund that with earlier credits passes its invoice, and otherwise records exactly the credit. |
| `AmountChangeProofs.ApprovedExactlyWhen` | packages/CoreEntitiesServer/src/OrderConcessionEntityServer.ts:375-399 | An approval succeeds if and only if its check passes, its value is the reduction, a catch-up has an entry, no slice is negative, a taxed memo has a credited account and gives no tax back the other way round, and a refund fits its invoice; the "order changed meanwhile" refusals cannot come from the approval itself. |
| `AmountChangeProofs.ApprovalSteps` | packages/CoreEntitiesServer/src/AmountChange.ts:383-428 | Every approval moves the books as its check planned: the ledger gains just the plan's drafts; without a memo the memos stay, and with one they gain one entry, which nets the gross on the receivable, the net on deferred and the tax on its accounts; the schedule, billed-to-date, balance and stored change follow; the status and the rest stay. |
| `AmountChangeProofs.ApprovalKeepsSound` | packages/CoreEntitiesServer/src/AmountChange.ts:288-327 | The joint invariant, for a line among any others of its order: live instalments tie to the lines less their changes, no invoice credited above its amount, no instalment below what is paid, the line not billed past its lowered net, memo numbers distinct, the ledger of bookable lines. |
| `OrderChanges.StepKeepsSound` | packages/CoreEntitiesServer/src/AmountChange.ts:383-442 | On an order of any lines: an approval on one line, a payment or an instalment invoice keeps the tie and what every line and term holds. |
| `OrderChanges.RunKeepsSound` | packages/CoreEntitiesServer/src/AmountChange.ts:383-442 | Over every sequence of approvals on any lines, payments and instalment invoices, accepted or refused, the order stays sound. |
| `OrderChanges.RunKeepsLedgers` | packages/CoreEntitiesServer/src/AmountChange.ts:410-423 | Over every such sequence each term's ledger nets to its own current amount. |
| `AmountChangeProofs.ApprovalKeepsLedger` | packages/CoreEntitiesServer/src/AmountChange.ts:409-423 | An approval that succeeds is one recognition step: afterwards the ledger nets to the term's new amount. |
| `OrderChanges.InvoicedExactlyWhen` | packages/CoreEntitiesServer/src/AmountChange.ts:694-723 | Of an order's lines, one can still be sliced for an invoice if and only if its changes' separately rounded taxes do not pass its tax, and then comes to what its changes left of it. |
| `OrderChanges.LoweredLinesTie` | packages/CoreEntitiesServer/src/AmountChange.ts:694-698 | When every line can, the live instalments bill exactly what the lowered lines come to together. |
| `AmountChangeProofs.StoredPairGivesBackSplit` | packages/CoreEntitiesServer/src/AmountChange.ts:716-721 | What an approval stores gives back the planned net and tax of both its parts. |
| `AmountChangeExamples.FiveCutsTakeTooMuchTax` | packages/CoreEntitiesServer/src/AmountChange.ts:246-254 | Net 8, tax 4, five cuts of 1 approved one after another from sound books: 5 of tax is taken, 2 is still on the instalment, and `ReduceLineAmounts` refuses the line. |
| `AmountChangeExamples.NegativeScheduleIsRefused` | packages/CoreEntitiesServer/src/AmountChange.ts:417-421 | Sound books on which the check passes and the approval is refused: 7 cents over twelve periods start with minus 4. |
| `BundleBehavior.SplitExactly` | packages/CoreEntitiesServer/src/BundleBehavior.ts:82-109 | The in-place largest-remainder loop computes `SplitOf`, on every total and weights. |
| `BundleBehavior.SplitEvenly` | packages/CoreEntitiesServer/src/BundleBehavior.ts:89-95 | Without usable weights: the even split, first places one cent more. |
| `BundleBehavior.HandOut` | packages/CoreEntitiesServer/src/BundleBehavior.ts:105-108 | The counting-down loop adds one to exactly the first `extra` places in order. |
| `BundleBehavior.LeftoverBounds` | packages/CoreEntitiesServer/src/BundleBehavior.ts:97-106 | The pennies left over are non-negative and fewer than the list is long. |
| `BundleProofs.FavouredWereCut` | packages/CoreEntitiesServer/src/BundleBehavior.ts:101-106 | Only a share that was cut at all gets a penny. |
| `BundleProofs.SplitIsFair` | packages/CoreEntitiesServer/src/BundleBehavior.ts:97-108 | With positive total weight: whole, each part the floor or ceiling of its quota, and pennies to those cut the most, earlier first. |
| `BundleProofs.SplitExactlyWhen` | packages/CoreEntitiesServer/src/BundleBehavior.ts:97-108 | A split is fair in that sense if and only if it is the one `SplitExactly` returns. |
| `BundleProofs.SplitSums` | packages/CoreEntitiesServer/src/BundleBehavior.ts:82-109 | Whatever the weights, the parts sum to the total exactly. |
| `BundleProofs.ZeroWeightGetsNothing` | packages/CoreEntitiesServer/src/BundleBehavior.ts:97-108 | A zero weight gets zero. |
| `BundleResults.SplitIs` | packages/CoreEntitiesServer/src/BundleBehavior.ts:97-108 | The same with rounding down and remainders written out: whole, and a penny goes first to the larger remainder and then to the earlier place. |
| `BundleBehavior.AllocateBundlePrice` | packages/CoreEntitiesServer/src/BundleBehavior.ts:123-147 | Allocates by standalone value, or evenly over the bundled components and says so. |
| `BundleProofs.AllocationIsWhole` | packages/CoreEntitiesServer/src/BundleBehavior.ts:123-147 | The whole price is allocated; with any bundled component, none of it goes to one priced on its own. |
| `BundleResults.AllocationIs` | packages/CoreEntitiesServer/src/BundleBehavior.ts:123-147 | A bundled component's share is in proportion to its standalone price times its quantity; evenly over the bundled ones, and said so, when none is worth anything. |
| `BundleResults.ExpansionIs` | packages/CoreEntitiesServer/src/BundleBehavior.ts:168-211 | The four refusals in their order, and otherwise for each component a child of its product, the line's quantity times its own, and its price or its part of the line's worth, each rounded. |
| `BundleProofs.UnbundledSplitUnused` | packages/CoreEntitiesServer/src/BundleBehavior.ts:136-146 | With no bundled component the price is split evenly over all of them, not reported as even, and no child takes any of it. |
| `BundleProofs.ExpansionWorth` | packages/CoreEntitiesServer/src/BundleBehavior.ts:186-200 | The bundled children's quantity times unit price is within half a cent per unit of the bundle's price less lost shares, and exact when every quantity is one. |
| `BundleProofs.ShareLostExactlyWhen` | packages/CoreEntitiesServer/src/BundleBehavior.ts:190-211 | A child's quantity rounds to nothing, and its share is lost, if and only if the line asks for less than half of the smallest quantity. |
| `BundleProofs.WholePriceLost` | packages/CoreEntitiesServer/src/BundleBehavior.ts:190-211 | A concrete line whose whole price of 1.00 is carried by no child. |
| `BundleBehavior.PlanQuantityRipple` | packages/CoreEntitiesServer/src/BundleBehavior.ts:236-253 | The loop returns just the children whose quantity changes. |
| `BundleProofs.RippleReaches` | packages/CoreEntitiesServer/src/BundleBehavior.ts:236-253 | Written, a ripple leaves each child at its share of the parent or, hand-set, as it was; a second ripple is empty. |
| `BundleResults.RippleIs` | packages/CoreEntitiesServer/src/BundleBehavior.ts:236-253 | The changes are just those of the children not set by hand whose quantity is not the parent's share of them, in order, each from what it is to that share. |
| `BundleBehavior.PlanInheritanceRefresh` | packages/CoreEntitiesServer/src/BundleBehavior.ts:343-355 | The loop over the six fields returns just the fields to change. |
| `BundleResults.InheritedIs` | packages/CoreEntitiesServer/src/BundleBehavior.ts:302-316 | Ship-to comes from the line always, start and action only to a subscription, and what it renews only to the component that renews it. |
| `BundleResults.RefreshIs` | packages/CoreEntitiesServer/src/BundleBehavior.ts:343-355 | Each of the six fields by itself takes the new value exactly when it still held the old one. |
| `BundleProofs.RenewalPlacedExactlyWhen` | packages/CoreEntitiesServer/src/BundleBehavior.ts:366-377 | A renewal is placed on a component if and only if that one and no other sells its product. |
| `BundleResults.UnplacedExactlyWhen` | packages/CoreEntitiesServer/src/BundleBehavior.ts:366-377 | A renewal is refused exactly when no component sells its product, or more than one does, each with its own reason. |
| `BundleEngine.OrderLines.ExpandBundleLines` | packages/CoreEntitiesServer/src/BundleEngine.ts:142-233 | The pass over the lines there were at the start, appending to the list it walks, leaves the order `Expand` gives, or stops for its reason. |
| `BundleEngine.OrderLines.ExpandLine` | packages/CoreEntitiesServer/src/BundleEngine.ts:153-233 | One line: refusal, refresh of the children it has, or children appended with fresh ids. |
| `BundleEngine.OrderLines.RefreshChildren` | packages/CoreEntitiesServer/src/BundleEngine.ts:254-289 | Existing children get inherited fields, planned values and the acknowledgment; a stop leaves the lines as they were. |
| `BundleEngine.OrderLines.MatchChildren` | packages/CoreEntitiesServer/src/BundleEngine.ts:275-282 | Splicing the unmatched list matches each planned child to the first unmatched row of its product. |
| `BundleEngine.OrderLines.RippleBundleQuantity` | packages/CoreEntitiesServer/src/BundleEngine.ts:298-364 | Each child not set by hand takes its quantity by product; the count returned is of those that changed. |
| `BundleEngineProofs.HandEditsSurvive` | packages/CoreEntitiesServer/src/BundleEngine.ts:280-281 | Over any part of the pass a quantity or price set by hand is as it was, as are a line's id, product and parent. |
| `BundleEngineProofs.ExpandedIsSettled` | packages/CoreEntitiesServer/src/BundleEngine.ts:142-233 | Afterwards every line the order came with is settled: no bundle, or a display-only parent whose children hold their planned quantity and price but where set by hand, and its acknowledgment. |
| `BundleEngineResults.ParentIs` | packages/CoreEntitiesServer/src/BundleEngine.ts:191-197 | A bundle line that expands becomes a heading: its own discount, charge and tax go and all else stays. |
| `BundleEngineResults.PlannedIs` | packages/CoreEntitiesServer/src/BundleEngine.ts:157-175 | A line that expands plans from its own quantity and price and the catalog's components: a child for each, so many as its quantity makes of it, at its part of what the line comes to or its own price. |
| `BundleEngineResults.ChildrenMade` | packages/CoreEntitiesServer/src/BundleEngine.ts:211-229 | A line without children gets one for each component, in order, with product, quantity, price, acknowledgment and inherited fields written out, and nothing set by hand. |
| `BundleEngineResults.ChildRefreshed` | packages/CoreEntitiesServer/src/BundleEngine.ts:254-289 | A child the line had takes the planned quantity and price of its product where not set by hand and the acknowledgment; all but its inherited fields is otherwise as it was. |
| `BundleEngineResults.ApartIsLeft` | packages/CoreEntitiesServer/src/BundleEngine.ts:142-155 | A line that neither expands nor belongs to one that does stays exactly as it is. |
| `BundleEngineResults.RefusedExactlyWhen` | packages/CoreEntitiesServer/src/BundleEngine.ts:176-211 | An order is refused exactly when a line of it is a bundle within a bundle, or one that expands renews what has no one place among its children. |
| `BundleRuns.MadeChildrenFollow` | packages/CoreEntitiesServer/src/BundleEngine.ts:211-229 | The children a line is first expanded into hold, once saved, what the line gives them in each of the six inherited fields. |
| `BundleRuns.ResaveMoves` | packages/CoreEntitiesServer/src/BundleEngine.ts:254-273 | One edit, expansion and save of a whole order: a child field that held what the line last gave it holds what it gives now; any other stays. |
| `BundleRuns.RunFollows` | packages/CoreEntitiesServer/src/BundleEngine.ts:254-273 | Over every run of edits, expansions and saves, catalog changes included, a child field never set by hand holds after each save what the line's own values give it, renewal target included. |
| `BundleRuns.RunKeepsSetValue` | packages/CoreEntitiesServer/src/BundleEngine.ts:254-273 | Over every such run a field set to what the line never gives it stays as it was set. |
| `BundleRuns.SkippedSaveFollowsExactlyWhen` | packages/CoreEntitiesServer/src/BundleEngine.ts:153-155 | A save while the product has no components leaves the child behind if and only if an edit changed what the line gives it. |
| `BundleEngineProofs.SecondSaveExactlyWhen` | packages/CoreEntitiesServer/src/BundleEngine.ts:142-209 | A second save changes nothing at all if and only if no child made the first time is itself a bundle; otherwise, and only then, it is refused. |
| `BundleEngineProofs.InnerBundleStopsSecondSave` | packages/CoreEntitiesServer/src/BundleEngine.ts:142-187 | A concrete order whose first save succeeds and whose second is refused. |
| `BundleEngineProofs.NestedStops` | packages/CoreEntitiesServer/src/BundleEngine.ts:180-187 | A bundle line inside another stops any pass that comes to it. |
| `BundleEngineProofs.AssignsSelf` | packages/CoreEntitiesServer/src/BundleEngine.ts:275-282 | Matched against the plan they were made from, children take their own plan even when products repeat. |
| `BundleEngineProofs.UneditedHoldsPlan` | packages/CoreEntitiesServer/src/BundleEngine.ts:275-282 | After expansion every matched child holds the quantity and unit price the line's current values give its product, unless set by hand. |
| `BundleEngineProofs.BundleLinesAddNothing` | packages/CoreEntitiesServer/src/BundleBehavior.ts:262-264 | Whatever amounts expanded bundle lines show, the order's total is the same. |
| `BundleResults.TotalIs` | packages/CoreEntitiesServer/src/BundleBehavior.ts:262-264 | An order's total is what its lines come to, but for those that head a bundle. |
| `BundleEngineProofs.RippleReadsEach` | packages/CoreEntitiesServer/src/BundleEngine.ts:337-346 | A bundle lists each component once, so the per-product map holds every component's own quantity. |
| `BundleEngineResults.RippledIs` | packages/CoreEntitiesServer/src/BundleEngine.ts:322-346 | A child that follows takes, for a product the bundle lists, so many as the bundles now hold; every other line stays as it is. |
| `BundleEngineResults.RippleCounts` | packages/CoreEntitiesServer/src/BundleEngine.ts:346-364 | What is returned is how many lines differ afterwards. |
| `BundleEngineProofs.RippleKeepsSoldExactlyWhen` | packages/CoreEntitiesServer/src/BundleEngine.ts:322-346 | Children sold under one catalog and rippled under another all come to what was sold if and only if each one's component still comes to the same quantity, or was dropped and nothing changes. |
| `BundleEngineProofs.RippleFollowsTheCatalog` | packages/CoreEntitiesServer/src/BundleEngine.ts:322-346 | Sold at one a bundle, the catalog now says two: for two bundles the ripple makes four. |
| `AccountCredit.SameCustomerMeaning` | packages/CoreEntitiesServer/src/ApplyAccountCreditOperation.ts:147-159 | The branching rule allows a spend if and only if both orders are billed to one customer and there is one. |
| `AccountCredit.TransferConserves` | packages/CoreEntitiesServer/src/ApplyAccountCreditOperation.ts:341-362 | One spend keeps every customer's total, an order in credit at or below zero and one owing at or above. |
| `AccountCredit.CommitRefines` | packages/CoreEntitiesServer/src/ApplyAccountCreditOperation.ts:341-373 | A commit, confirmed or not, is one atomic transfer of the log; a confirmed one is answered with the balances it left. |
| `AccountCredit.RunRefines` | packages/CoreEntitiesServer/src/ApplyAccountCreditOperation.ts:279-374 | In every interleaving of any number of calls, failures at any point, commits whose answer is lost and other writers: the orders are what an atomic history makes of them, each committed call is in it once, and each applied one was answered with the committed balances. |
| `AccountCredit.RunConserves` | packages/CoreEntitiesServer/src/ApplyAccountCreditOperation.ts:279-374 | Over every interleaving without other writers: each customer's total unchanged, credit never above zero, debt never below. |
| `AccountCredit.BlockedBy` | packages/CoreEntitiesServer/src/ApplyAccountCreditOperation.ts:168-173 | A call that cannot act waits for a row held by another, past every row it holds. |
| `AccountCredit.SomeoneCanAct` | packages/CoreEntitiesServer/src/ApplyAccountCreditOperation.ts:168-173 | However many calls wait, one can act: they never wait in a circle. |
| `AccountCredit.RunsEnd` | packages/CoreEntitiesServer/src/ApplyAccountCreditOperation.ts:277-380 | A run has at most eight steps per call, so every call answers. |
| `AccountCreditResults.AloneAnswers` | packages/CoreEntitiesServer/src/ApplyAccountCreditOperation.ts:177-380 | A call left to itself: declined, previewed or applied exactly as the two orders stand, and only an applied one moves anything, just what it answers, from the one order to the other. |
| `AccountCreditResults.CommitsAre` | packages/CoreEntitiesServer/src/ApplyAccountCreditOperation.ts:341-373 | A written call commits what it wrote on its two orders whether it hears so or not, and gives back its locks. |
| `AccountCreditResults.LocksAre` | packages/CoreEntitiesServer/src/ApplyAccountCreditOperation.ts:168-173 | A call takes the row of the lower id first and waits exactly while someone else holds the one it is at. |
| `AccountStep.NeverOverlap` | packages/CoreEntitiesServer/src/CheckoutAccountStep.ts:218-228 | In every order of entering, beginning, settling and leaving, two calls on one session never overlap and work in the order they came. |
| `AccountStep.NextCanBegin` | packages/CoreEntitiesServer/src/CheckoutAccountStep.ts:219-224 | A waiting call can begin once every earlier one settled, even by throwing. |
| `AccountStep.QueueIsDropped` | packages/CoreEntitiesServer/src/CheckoutAccountStep.ts:225-227 | Once every call of a session left, the map holds nothing of it. |
| `AccountStep.StoredStep.EnsureAccount` | packages/CoreEntitiesServer/src/CheckoutAccountStep.ts:394-447 | The step-by-step method leaves exactly the state and answer of `EnsureOf`, with host refusals, timeouts and failed saves. |
| `AccountStep.StoredStep.SetAccountPassword` | packages/CoreEntitiesServer/src/CheckoutAccountStep.ts:502-563 | Likewise `SetOf`: the pending save before the host call, the answer's save after it, either of which may fail. |
| `AccountStep.RunGuarded` | packages/CoreEntitiesServer/src/CheckoutAccountStep.ts:290-304 | Over every run of calls at most five passwords reach the host, and none after one that was accepted, timed out or whose answer was lost. |
| `AccountStep.RecordedIsFinal` | packages/CoreEntitiesServer/src/CheckoutAccountStep.ts:404-409 | A recorded Created, Exists or NotApplicable never changes, nor does when it was decided. |
| `AccountStep.ReachedOnlyWhileOpen` | packages/CoreEntitiesServer/src/CheckoutAccountStep.ts:513-535 | A password reaches the host only inside the window with the form open, and is counted in the stored state first. |
| `AccountStep.AcceptedClosesForGood` | packages/CoreEntitiesServer/src/CheckoutAccountStep.ts:552-562 | The buyer hears success only when the host accepted, and no other password follows, recorded or not. |
| `AccountStep.ClosedStays` | packages/CoreEntitiesServer/src/CheckoutAccountStep.ts:528-555 | Once a password may have been set, no later call gives the host another. |
| `AccountStepResults.EnsureIs` | packages/CoreEntitiesServer/src/CheckoutAccountStep.ts:394-447 | What an ensure records and answers, by what was recorded, what the host said and whether the save went through. |
| `AccountStepResults.SetIs` | packages/CoreEntitiesServer/src/CheckoutAccountStep.ts:502-563 | A password request without a try changes nothing and fails; a try is counted, given to the host unless it was not reached, stays pending exactly when no answer came or the save failed, and succeeds exactly when the host accepted. |
| `CancelSubscription.NoneLeftOpenExactlyWhen` | packages/CoreEntitiesServer/src/CancelSubscriptionOperation.ts:472-493 | With disjoint terms each open term is exactly one of cancelled, later and served if and only if the cancel moved past the covering term or nothing open precedes it. |
| `CancelSubscription.ResolvedTermIsFirst` | packages/CoreEntitiesServer/src/CancelSubscriptionOperation.ts:893-905 | When no open term ended before the request day, the term found is the first of them. |
| `CancelSubscription.EndOfTermPick` | packages/CoreEntitiesServer/src/CancelSubscriptionOperation.ts:849-891 | The term ended with is the latest charged one not refunded in full, and every refunded one passed over becomes a later term. |
| `CancelSubscription.CancelLeavesNoneOpen` | packages/CoreEntitiesServer/src/CancelSubscriptionOperation.ts:459-494 | So, over all terms, days and refunds, a successful cancel leaves no term open and none counted twice. |
| `CancelSubscription.EarlierTermLeftOpen` | packages/CoreEntitiesServer/src/CancelSubscriptionOperation.ts:900-904 | Without that hypothesis it fails: after every term is over, the latest is cancelled and an earlier one stays open. |
| `CancelResults.ResolvedIs` | packages/CoreEntitiesServer/src/CancelSubscriptionOperation.ts:893-906 | The first listed term that covers the day, or else one that starts next, or else the first listed. |
| `CancelResults.EachSettled` | packages/CoreEntitiesServer/src/CancelSubscriptionOperation.ts:459-494 | The same, term by term: cancelled, starting after coverage ends, or over before the cancelled one began. |
| `GatewayCancel.QuietExactlyWhen` | packages/CoreEntitiesServer/src/StripePaymentProvider.ts:1313-1316 | Left alone, the gateway charges nothing at or after an instant if and only if it ended, or ends by then or by the end of its current period. |
| `CancelResults.StopIs` | packages/CoreEntitiesServer/src/StripePaymentProvider.ts:1330-1344 | What a stop leaves: nothing done when it ended or ends in time; ended now when asked so or its charges are not settled; and otherwise ending with its period when that is in time, or at the coverage's end. |
| `GatewayCancel.WriteSilences` | packages/CoreEntitiesServer/src/StripePaymentProvider.ts:476-488 | A write carried out however late, on whatever the gateway has come to, leaves it charging nothing more. |
| `GatewayCancel.SettledAnswers` | packages/CoreEntitiesServer/src/StripePaymentProvider.ts:500-508 | An answer the recheck accepts is ended or set to end by the coverage; a plan carried out at once is always answered so. |
| `GatewayCancel.RunIsSafe` | packages/CoreEntitiesServer/src/StripePaymentProvider.ts:468-511 | In every interleaving of cancels, of their reads, writes, answers and re-reads, of late writes, failures and lost commits, and of the gateway's own charges between any two: Canceled only on an answer the gateway really gave that ends by that cancel's coverage, nothing charged past it afterwards, one call, at most one reversal. |
| `GatewayCancel.ChargesAreCovered` | packages/CoreEntitiesServer/src/CancelSubscriptionOperation.ts:608-621 | Once Orders says Canceled, any charge the gateway still makes falls before its coverage ends. |
| `GatewayCancel.CanRunAgain` | packages/CoreEntitiesServer/src/CancelSubscriptionOperation.ts:695-729 | After a call failed to record its cancel, or to hear that it did, the same cancel run from there is recorded once, or is told that it was and changes nothing. |
| `GatewayCancel.RolledPeriodIsDeclined` | packages/CoreEntitiesServer/src/StripePaymentProvider.ts:500-508 | The period renews between the read and the write: the answer shows an end past the coverage, and the recheck declines. |
| `GatewayCancel.LandedWriteKeepsEndExactlyWhen` | packages/CoreEntitiesServer/src/StripePaymentProvider.ts:476-488 | A write landing after another cancel was confirmed keeps the gateway ending by that coverage if and only if it asks for no later end. |
| `GatewayCancel.LaterWriteMovesTheEnd` | packages/CoreEntitiesServer/src/StripePaymentProvider.ts:476-488 | Two cancels at once: one is recorded with coverage to 12, the other's write then moves the gateway's end to 20; nothing is charged. |
| `CancelResults.AnswerIs` | packages/CoreEntitiesServer/src/StripePaymentProvider.ts:500-508 | An answer or a re-read is accepted exactly when the subscription ended or is set to end by the coverage of a cancel that ends later than now. |
| `CancelResults.CommitIs` | packages/CoreEntitiesServer/src/CancelSubscriptionOperation.ts:623-686 | What a recorded cancel leaves in Orders, and that nothing else moves. |
| `CapturePayment.OnePaymentPerKey` | packages/CoreEntitiesServer/src/CapturePaymentOperation.ts:201-216 | However many captures carry a key and whatever their lookups miss: at most one payment commits and every success names it. |
| `CapturePayment.NothingElseIsWritten` | packages/CoreEntitiesServer/src/CapturePaymentOperation.ts:340-352 | A capture has a committed payment if and only if it reported it or its commit went unconfirmed; previews and failed read-backs have none. |
| `CapturePayment.WaitsForOneThatCanAct` | packages/CoreEntitiesServer/src/CapturePaymentOperation.ts:328-375 | A capture waiting on the unique index waits for one that can act. |
| `CaptureResults.Captures` | packages/CoreEntitiesServer/src/CapturePaymentOperation.ts:201-375 | Left to itself a first capture takes one payment and reports it as its own, and a preview takes none. |
| `CaptureResults.Retries` | packages/CoreEntitiesServer/src/CapturePaymentOperation.ts:201-260 | A capture of a committed key reports that payment as a retry and writes nothing, even when its own lookup misses it. |
| `ChargeReconciliation.IndexPayments` | packages/CoreEntitiesServer/src/ChargeReconciliation.ts:74-77 | The map holds the last payment naming each charge, and nothing else. |
| `ChargeReconciliation.IndexCharges` | packages/CoreEntitiesServer/src/ChargeReconciliation.ts:78 | The map holds the last charge of each id, and nothing else. |
| `ChargeReconciliation.FindChargeMismatches` | packages/CoreEntitiesServer/src/ChargeReconciliation.ts:64-145 | The two indexed loops return what judging each charge against every payment and each payment against every charge returns, in order. |
| `ChargeReconciliation.MismatchesByCharge` | packages/CoreEntitiesServer/src/ChargeReconciliation.ts:80-120 | The loop over charges, looking payments up by charge id, judges each charge as a search of every payment would. |
| `ChargeReconciliation.MismatchesByPayment` | packages/CoreEntitiesServer/src/ChargeReconciliation.ts:122-143 | The loop over payments, looking charges up by id, judges each payment as a search of every charge would. |
| `ChargeReconciliation.MismatchesOnce` | packages/CoreEntitiesServer/src/ChargeReconciliation.ts:80-143 | With distinct charge ids and payments, no two mismatches are of one kind about one reference. |
| `ChargeResults.FoundExactlyWhen` | packages/CoreEntitiesServer/src/ChargeReconciliation.ts:80-143 | A mismatch is found if and only if it is of a succeeded charge in the window without a captured payment, of a charge refunded by more than its payment holds, or of a captured payment in the window whose charge is not there or did not succeed, with its references and amount. |
| `ChargeReconciliation.TwoMismatchesExactlyWhen` | packages/CoreEntitiesServer/src/ChargeReconciliation.ts:80-143 | A charge has two mismatches if and only if it succeeded, is confirmed missing, and a captured payment of it in the window holds less refunded than it does. |
| `ChargeReconciliation.ReadRefunded` | packages/CoreEntitiesServer/src/ReconcilePaymentProviderChargesOperation.ts:177-185 | Gathering keeps each charge id once and knows every listed charge and every refunded one that could be read. |
| `ChargeReconciliation.ConfirmMissing` | packages/CoreEntitiesServer/src/ReconcilePaymentProviderChargesOperation.ts:187-198 | What is confirmed missing is not known and was not found; every payment asked about has its charge known or missing; it fails only when one cannot be read. |
| `ChargeResults.MissingExactlyWhen` | packages/CoreEntitiesServer/src/ReconcilePaymentProviderChargesOperation.ts:187-198 | A charge is confirmed missing if and only if a captured payment of the window names it, the listing does not have it and reading it finds nothing. |
| `ChargeReconciliation.OneMismatchPerCharge` | packages/CoreEntitiesServer/src/ReconcilePaymentProviderChargesOperation.ts:187-213 | For what is gathered so, each charge has at most one mismatch. |
| `ChargeReconciliation.KeyRoundTrip` | packages/CoreEntitiesServer/src/ChargeExceptionResolution.ts:66-77 | Parsing a printed key gives back kind, reference, even one holding the separator, and amount. |
| `ChargeReconciliation.ParsedKeyIs` | packages/CoreEntitiesServer/src/ChargeExceptionResolution.ts:66-77 | A key parses only when it is a kind's name, some reference and an amount that reads, joined as printed. |
| `ChargeResults.KeyIs` | packages/CoreEntitiesServer/src/ChargeReconciliation.ts:148-150 | A key is the kind, the charge or else the payment, and the amount in its shortest decimals. |
| `ChargeResults.ParsesExactlyWhen` | packages/CoreEntitiesServer/src/ChargeExceptionResolution.ts:66-77 | A text parses to a kind, reference and amount if and only if it spells out those three, the last without the separator. |
| `ChargeReconciliation.ReadAmountPrinted` | packages/CoreEntitiesServer/src/ChargeReconciliation.ts:148-150 | Amounts printed to the cent read back as themselves, negative ones too, so the round trip's assumption is met. |
| `ChargeReconciliation.KeysAreDistinct` | packages/CoreEntitiesServer/src/ChargeReconciliation.ts:148-150 | With distinct charge ids and payments, every mismatch has its own key. |
| `ChargeReconciliation.ExceptionResolvesExactlyWhen` | packages/CoreEntitiesServer/src/ChargeExceptionResolution.ts:84-117 | An open exception raised for a mismatch yields an order target if and only if it is a charge without a payment raised against the provider, and then names that very charge. |
| `ChargeResults.CheckIs` | packages/CoreEntitiesServer/src/ChargeExceptionResolution.ts:84-117 | Each refusal of an exception exactly when it holds and none before it. |

## Left out

- RecognitionProofs.NextChangeAddsUp: speaks of a new schedule that starts no earlier than the effective day, as the drivers' do.
- BillingProofs.InstalmentReduction: amounts are taken as non-negative, as the stored rows are; conservation needs no such thing.
- OrderChanges.RunKeepsSound: the rows bill all of the order's lines; a line of a company billed by rows of its own is a separate such order. An instalment invoice bills each line any part its changes leave it, the slicing itself being left out; write-offs are left out.
- AmountChangeProofs.ApprovedExactlyWhen: of accounting only its refusal of amounts that are not positive is modelled, and row saves succeed; any other failure rolls the approval back, as `AmountChange.Arrangement.Approve` states for every refusal.
- BundleRuns.RunFollows: the line is expanded at every save of the run; lines are not removed, and a line's product and parent stay.
- AccountCredit.RunConserves: other writers change balances by design, so this part is for runs of credit calls only; `AccountCredit.RunRefines` includes them.
- AccountCredit.RunRefines: other writers lock a row before changing it and leave its customer alone; the customer rule is read before the lock and not again under it.
- AccountCredit.SomeoneCanAct: for callers of `LockOrderRows` only; the payment-number lock and writers that take it first are not part of this model.
- AccountStep.NeverOverlap: the queue is in one process; two processes on one session are not part of this model.
- AccountStep.RunGuarded: a host call that throws counts as having set nothing, as the code takes it; each call reads the clock once; other writers of the session's metadata are left out.
- BundleEngineResults.ChildRefreshed: a bundle lists each component once, as a unique key of its table has it; for a component listed twice `BundleEngineProofs.ExpandedIsSettled` still says what each child holds.
- CancelSubscription.CancelLeavesNoneOpen: the day coverage ends is any day, moved into the cancelled term; how each cancellation rule chooses it is left out.
- GatewayCancel.RunIsSafe: nobody resumes or un-cancels the subscription at the gateway, or moves its end there; a write repeated under one idempotency key is carried out again rather than answered with the first reply. Reversal amounts, credits decided again under the lock, grants, events and alerts are one write that happens or does not.
- GatewayCancel.CanRunAgain: left to itself from there; the gate that reads the gateway before a cancel may still refuse it.
- CapturePayment.OnePaymentPerKey: tender and company checks come before the protocol and are left out; a duplicate key is known from the index, not from the wording of an error.
- ChargeReconciliation.ConfirmMissing: reading one charge answers the same throughout and with the charge asked for.
- ChargeReconciliation.FindChargeMismatches: the currency, company, customer and date fields copied into a mismatch are left out.
- ChargeReconciliation.KeyRoundTrip: amounts print as plain decimals; the exponent form of very large numbers is left out. `Number` is any reading that reads those decimals.
- BundleEngineProofs.RippleKeepsSoldExactlyWhen: a bundle lists each component once, as a unique key of its table has it.
- CreditMemo.NumberIsFresh: `Number` is any reading that reads printed whole numbers.
- BundleEngine.OrderLines.ExpandBundleLines: the counts of lines expanded and the list of lines split evenly are left out; which split was even is `BundleBehavior.AllocateBundlePrice`'s.
- Floating-point detail: the epsilon and the half-cent tolerances vanish in integer cents.
- Database reads and writes, entity loading, SQL, metadata lookup and the wording of messages.
- Schedule coverage, which picks the rows that bill a line's company: the rows are taken as already picked.
- General-ledger account lookup, acknowledgment and approval tasks, who may approve, access grants.
- Previews of a cancel, the gate that compares the gateway's period with the booked terms, reading a gateway's refunds.
- Which catalog prices become a component's standalone price: taken as given.
- Business time zones and calendar dates: days are integers.
- Other payment gateways, webhooks and signatures, delivery channels, the user interface.
