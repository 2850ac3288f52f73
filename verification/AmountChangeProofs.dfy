/** What every approved amount change keeps of the order's books: the schedule ties to the line, nothing is
    credited or billed past what is owed, and the ledger describes the term. */
module AmountChangeProofs {
  import opened Outcomes
  import opened Rounding
  import opened AmountChange
  import Recognition
  import RecognitionProofs
  import Billing
  import BillingProofs
  import CreditMemo
  import CreditMemoResults

  // ─── The joint invariant ──────────────────────────────────────────────────

  predicate UninvoicedRow(row: Row) { row.status.Scheduled? && row.document == "" }

  /** No row is credited above its amount, and an uninvoiced one is not credited at all and bills at least
      what is paid on it. */
  predicate RowSound(row: Row) {
    && 0 <= row.credited <= row.amount && row.paid >= 0
    && (UninvoicedRow(row) ==> row.credited == 0 && row.paid <= row.amount)
  }

  predicate RowsSound(rows: seq<Row>) {
    && (forall i :: 0 <= i < |rows| ==> RowSound(rows[i]))
    && forall i, j :: 0 <= i < j < |rows| ==> rows[i].id != rows[j].id
  }

  /** What the rows still on the schedule bill. */
  function LiveAmounts(rows: seq<Row>): (live: seq<int>)
    ensures |live| == |rows|
  {
    seq(|rows|, i requires 0 <= i < |rows| => if rows[i].status.Canceled? then 0 else rows[i].amount)
  }

  function Live(rows: seq<Row>): int { Sum(LiveAmounts(rows)) }

  function CreditedAmounts(rows: seq<Row>): (credited: seq<int>)
    ensures |credited| == |rows|
  {
    seq(|rows|, i requires 0 <= i < |rows| => rows[i].credited)
  }

  function Credited(rows: seq<Row>): int { Sum(CreditedAmounts(rows)) }

  function Scheduled(changes: seq<Approved>): int {
    if changes == [] then 0 else changes[0].schedule + Scheduled(changes[1..])
  }

  /** What a line's changes reduced it by, before tax. */
  function Reduced(changes: seq<Approved>, line: nat): int {
    if changes == [] then 0 else (if changes[0].line == line then changes[0].reduced else 0) + Reduced(changes[1..], line)
  }

  /** A stored change: its two parts hold its net reduction, and it is numbered just when it carries a memo. */
  predicate ChangeSound(change: Approved) {
    && 0 < change.reduced <= change.schedule + change.memo && change.schedule >= 0 && change.memo >= 0
    && (change.number != "" <==> change.memo > 0)
  }

  predicate ChangesSound(changes: seq<Approved>) {
    && (forall c :: c in changes ==> ChangeSound(c))
    && (forall i, j :: 0 <= i < j < |changes| ==> changes[i].id != changes[j].id)
    && forall i, j :: 0 <= i < j < |changes| && changes[i].number != "" ==> changes[i].number != changes[j].number
  }

  /** The live rows bill what the order's lines were booked for, less what changes took off the schedule. */
  predicate Ties(total: int, rows: seq<Row>, changes: seq<Approved>) {
    if rows == [] then Scheduled(changes) == 0 else Live(rows) + Scheduled(changes) == total
  }

  predicate LineSound(line: OrderLine) {
    line.net >= 0 && line.tax >= 0 && forall t :: t in line.taxCharges ==> t >= 0
  }

  /** What the order holds between changes, its lines together coming to `total`. */
  predicate OrderSound(total: int, rows: seq<Row>, changes: seq<Approved>) {
    RowsSound(rows) && ChangesSound(changes) && Ties(total, rows, changes)
  }

  /** What a term and its line hold: of what the line comes to once lowered neither more is left to the term nor
      more was billed, and its ledger is of lines accounting books. */
  predicate TermSound(line: OrderLine, books: Books) {
    && LineSound(line)
    && books.amount + Reduced(books.changes, line.id) <= line.net
    && books.billed <= line.net - Reduced(books.changes, line.id)
    && Recognition.Takes(books.entries)
  }

  function Total(setting: Setting): int { setting.line.net + setting.line.tax + setting.others }

  /** What the books hold between changes. */
  predicate Sound(setting: Setting, books: Books) {
    OrderSound(Total(setting), books.rows, books.changes) && TermSound(setting.line, books)
  }

  // ─── Lists ────────────────────────────────────────────────────────────────

  lemma {:induction false} TotalsSnoc(changes: seq<Approved>, own: Approved)
    ensures Scheduled(changes + [own]) == Scheduled(changes) + own.schedule
    ensures forall line: nat :: Reduced(changes + [own], line) == Reduced(changes, line) + if own.line == line then own.reduced else 0
    ensures OwnReduction(changes + [own], own.id) == OwnReduction(changes, own.id) + own.schedule + own.memo
    ensures forall line: nat :: ReducedByOthers(changes + [own], line, own.id) == ReducedByOthers(changes, line, own.id)
  {
    if changes == [] {
      assert changes + [own] == [own] && [own][1..] == [];
    } else {
      TotalsSnoc(changes[1..], own);
      assert (changes + [own])[1..] == changes[1..] + [own];
    }
  }

  predicate Fresh(changes: seq<Approved>, id: nat) { forall c :: c in changes ==> c.id != id }

  lemma {:induction false} FreshTotals(changes: seq<Approved>, line: nat, id: nat)
    requires Fresh(changes, id)
    ensures OwnReduction(changes, id) == 0 && ReducedByOthers(changes, line, id) == Reduced(changes, line)
  {
    if changes != [] {
      assert changes[0] in changes;
      FreshTotals(changes[1..], line, id);
    }
  }

  // ─── A change accepts its own stamp ───────────────────────────────────────

  lemma GuardedAgain(setting: Setting, books: Books, own: Approved, plan: Recognition.Plan, gross: int, billing: Billing.Plan)
    ensures Guarded(setting, Saved(books, own), own.id, plan, gross, billing) == Guarded(setting, books, own.id, plan, gross, billing)
  {
    TotalsSnoc(books.changes, own);
  }

  /** Once a change is saved as approved the balance has its own reduction off and its own row is among the
      line's changes; adding the one back and leaving the other out, the second check sees what the first did. */
  lemma CheckedAgain(setting: Setting, books: Books, request: Request, own: Approved)
    ensures CheckOf(setting, Saved(books, own), request, own.id) == CheckOf(setting, books, request, own.id)
  {
    hide Recognition.PlanAmountChange, Billing.ReductionOf, TaxReduction;
    TotalsSnoc(books.changes, own);
    var saved := Saved(books, own);
    assert RecognitionInput(setting, saved, request) == RecognitionInput(setting, books, request);
    forall gross ensures BillingInput(saved, request, gross, own.id) == BillingInput(books, request, gross, own.id) {}
    forall plan, gross, billing
      ensures Guarded(setting, saved, own.id, plan, gross, billing) == Guarded(setting, books, own.id, plan, gross, billing)
    {
      GuardedAgain(setting, books, own, plan, gross, billing);
    }
    hide Guarded, BillingInput, RecognitionInput;
  }

  // ─── What a check finds ───────────────────────────────────────────────────

  lemma FactsSound(rows: seq<Row>)
    requires RowsSound(rows)
    ensures Billing.Distinct(AllFacts(rows)) && BillingProofs.NonNegativeAmounts(AllFacts(rows))
  {
  }

  /** `row` is uninvoiced, bills what `change` says and is lowered to no less than what is paid on it. */
  predicate Applies(rows: seq<Row>, i: int, change: Billing.Change) {
    && 0 <= i < |rows| && rows[i].id == change.id && UninvoicedRow(rows[i])
    && rows[i].amount == change.current && rows[i].paid <= change.next <= change.current
  }

  lemma IndexIs(rows: seq<Row>, i: nat)
    requires i < |rows| && RowsSound(rows)
    ensures IndexOf(rows, rows[i].id) == i
  {
  }

  lemma ChangeApplies(rows: seq<Row>, change: Billing.Change)
    requires RowsSound(rows) && BillingProofs.Lowers(AllFacts(rows), change) && !BelowPaidOn(rows, change)
    ensures Applies(rows, IndexOf(rows, change.id), change)
  {
    var facts := AllFacts(rows);
    var r :| r in facts && Billing.Uninvoiced(r) && change == Billing.ChangeFrom(r, change.next) && 0 <= change.next <= r.amount;
    var i :| 0 <= i < |facts| && facts[i] == r;
    IndexIs(rows, i);
  }

  /** A passed check, as its parts. */
  ghost predicate Passed(setting: Setting, books: Books, request: Request, self: nat, checked: Checked) {
    && var plan := checked.recognition;
    && Recognition.PlanAmountChange(RecognitionInput(setting, books, request)) == Ok(plan)
    && checked.gross == plan.reduction + TaxReduction(setting.line, plan.reduction)
    && Billing.ReductionOf(BillingInput(books, request, checked.gross, self)) == Ok(checked.billing)
    && Guarded(setting, books, self, plan, checked.gross, checked.billing) == Ok(checked)
  }

  lemma CheckParts(setting: Setting, books: Books, request: Request, self: nat)
    requires CheckOf(setting, books, request, self).Ok?
    ensures Passed(setting, books, request, self, CheckOf(setting, books, request, self).value)
  {
    hide Recognition.PlanAmountChange, Billing.ReductionOf, TaxReduction;
  }

  lemma {:induction false} SharesNonNegative(charges: seq<int>, part: int, net: int)
    requires net > 0 && part >= 0 && forall c :: c in charges ==> c >= 0
    ensures Shares(charges, part, net) >= 0
  {
    if charges != [] {
      assert charges[0] in charges && forall c :: c in charges[1..] ==> c in charges;
      SharesNonNegative(charges[1..], part, net);
      RoundDivExact(0, net);
      assert 0 * net <= charges[0] * part;
      RoundDivMonotone(0 * net, charges[0] * part, net);
    }
  }

  lemma TaxNonNegative(line: OrderLine, reduction: int)
    requires LineSound(line) && reduction >= 0
    ensures TaxReduction(line, reduction) >= 0
  {
    if line.net > 0 {
      SharesNonNegative(line.taxCharges, Min(line.net, reduction), line.net);
      SharesNonNegative([line.tax], Min(line.net, reduction), line.net);
    }
  }

  lemma ReductionIs(input: Recognition.Input)
    requires Recognition.PlanAmountChange(input).Ok?
    ensures Recognition.PlanAmountChange(input).value.reduction == input.current - input.next > 0 && input.next > 0
  {
  }

  /** The amounts of a passed check: the gross is the reduction and its tax, the schedule takes its part and the
      memo the rest, split in the reduction's own proportion. */
  ghost predicate Measured(books: Books, request: Request, checked: Checked) {
    && checked.recognition.reduction == books.amount - request.newAmount > 0 && request.newAmount > 0
    && checked.gross >= checked.recognition.reduction
    && checked.schedule == Billing.Cut(checked.billing.instalments)
    && 0 <= checked.schedule <= checked.gross
    && checked.memo == CreditMemo.Split(checked.gross - checked.schedule, checked.memo.net, checked.memo.tax)
    && CreditMemo.Parts(checked.memo)
    && CreditMemo.SplitCreditMemo(checked.gross - checked.schedule, checked.recognition.reduction, checked.gross) == Ok(checked.memo)
  }

  lemma CutBounds(input: Billing.Input)
    requires Billing.ReductionOf(input).Ok? && BillingProofs.NonNegativeAmounts(input.instalments)
    ensures var p := Billing.ReductionOf(input).value;
            0 <= Billing.Cut(p.instalments) <= input.gross && p.creditMemo == input.gross - Billing.Cut(p.instalments)
  {
    BillingProofs.ReductionConserved(input);
    var p := Billing.ReductionOf(input).value;
    if input.instalments == [] {
      BillingProofs.WholeOrderReduction(input);
    } else {
      hide Billing.ReductionOf;
      BillingProofs.InstalmentReduction(input);
      BillingProofs.DueRows(input.instalments);
      SumNonNegative(Billing.Amounts(Billing.InDueOrder(input.instalments)));
      assert p.applied != [] ==> p.applied[1..] == [];
      assert 0 <= BillingProofs.AppliedSum(p.applied) + p.refund <= input.gross;
    }
  }

  lemma CheckGross(setting: Setting, books: Books, request: Request, self: nat)
    requires Sound(setting, books) && CheckOf(setting, books, request, self).Ok?
    ensures var checked := CheckOf(setting, books, request, self).value;
            && checked.recognition.reduction == books.amount - request.newAmount > 0 && request.newAmount > 0
            && checked.gross >= checked.recognition.reduction
            && checked.schedule == Billing.Cut(checked.billing.instalments)
            && 0 <= checked.schedule <= checked.gross
            && CreditMemo.SplitCreditMemo(checked.gross - checked.schedule, checked.recognition.reduction, checked.gross)
               == Ok(checked.memo)
  {
    hide Recognition.PlanAmountChange, Billing.ReductionOf, TaxReduction, CheckOf, CreditMemo.SplitCreditMemo;
    CheckParts(setting, books, request, self);
    var checked := CheckOf(setting, books, request, self).value;
    ReductionIs(RecognitionInput(setting, books, request));
    TaxNonNegative(setting.line, checked.recognition.reduction);
    FactsSound(books.rows);
    CutBounds(BillingInput(books, request, checked.gross, self));
  }

  lemma CheckMeasured(setting: Setting, books: Books, request: Request, self: nat)
    requires Sound(setting, books) && CheckOf(setting, books, request, self).Ok?
    ensures Measured(books, request, CheckOf(setting, books, request, self).value)
  {
    hide CheckOf, CreditMemo.SplitCreditMemo, CreditMemo.ScheduleShare, Sound, Billing.Cut;
    var checked := CheckOf(setting, books, request, self).value;
    CheckGross(setting, books, request, self);
    CreditMemo.SplitRecombines(checked.schedule, checked.gross - checked.schedule, checked.recognition.reduction);
  }

  // ─── Lowering and crediting rows ──────────────────────────────────────────

  ghost predicate AllApply(rows: seq<Row>, changes: seq<Billing.Change>) {
    && BillingProofs.DistinctChanges(changes)
    && forall k :: 0 <= k < |changes| ==> Applies(rows, IndexOf(rows, changes[k].id), changes[k])
  }

  lemma LiveUpdate(rows: seq<Row>, i: nat, row: Row)
    requires i < |rows|
    ensures var live := (r: Row) => if r.status.Canceled? then 0 else r.amount;
            Live(rows[i := row]) == Live(rows) - live(rows[i]) + live(row)
    ensures Credited(rows[i := row]) == Credited(rows) - rows[i].credited + row.credited
  {
    var live := if row.status.Canceled? then 0 else row.amount;
    SumUpdate(LiveAmounts(rows), i, live);
    SumUpdate(CreditedAmounts(rows), i, row.credited);
    assert LiveAmounts(rows[i := row]) == LiveAmounts(rows)[i := live];
    assert CreditedAmounts(rows[i := row]) == CreditedAmounts(rows)[i := row.credited];
  }

  /** One row lowered as a change says: the rows stay sound, and the schedule falls by the cut. */
  lemma LowerOne(rows: seq<Row>, i: nat, change: Billing.Change)
    requires RowsSound(rows) && Applies(rows, i, change)
    ensures var after := rows[i := LowerRow(rows[i], change.next)];
            && RowsSound(after) && IndexOf(rows, change.id) == i
            && Live(after) == Live(rows) - (change.current - change.next) && Credited(after) == Credited(rows)
  {
    IndexIs(rows, i);
    LiveUpdate(rows, i, LowerRow(rows[i], change.next));
  }

  lemma StillApplies(rows: seq<Row>, i: nat, changes: seq<Billing.Change>)
    requires RowsSound(rows) && changes != [] && AllApply(rows, changes) && Applies(rows, i, changes[0])
    ensures AllApply(rows[i := LowerRow(rows[i], changes[0].next)], changes[1..])
  {
    var after := rows[i := LowerRow(rows[i], changes[0].next)];
    LowerOne(rows, i, changes[0]);
    forall k | 0 <= k < |changes[1..]| ensures Applies(after, IndexOf(after, changes[1..][k].id), changes[1..][k]) {
      var j := IndexOf(rows, changes[k + 1].id);
      assert Applies(rows, j, changes[k + 1]) && changes[1..][k] == changes[k + 1] && j != i;
      IndexIs(after, j);
    }
  }

  /** Rows after a lowering: the same rows, and those that were invoiced untouched. */
  predicate SameInvoices(before: seq<Row>, after: seq<Row>) {
    && |after| == |before|
    && forall i :: 0 <= i < |before| ==> after[i].id == before[i].id && (!UninvoicedRow(before[i]) ==> after[i] == before[i])
  }

  /** A plan that passed the check lowers its rows without refusal, by just its cut, and keeps them sound. */
  lemma {:induction false} LowerAllKeeps(rows: seq<Row>, changes: seq<Billing.Change>)
    requires RowsSound(rows) && AllApply(rows, changes)
    ensures LowerAll(rows, changes).Ok?
    ensures var after := LowerAll(rows, changes).value;
            && RowsSound(after) && SameInvoices(rows, after)
            && Live(after) == Live(rows) - Billing.Cut(changes) && Credited(after) == Credited(rows)
    decreases changes
  {
    if changes != [] {
      var i := IndexOf(rows, changes[0].id);
      LowerOne(rows, i, changes[0]);
      StillApplies(rows, i, changes);
      LowerAllKeeps(rows[i := LowerRow(rows[i], changes[0].next)], changes[1..]);
    }
  }

  lemma CheckApplies(setting: Setting, books: Books, request: Request, self: nat)
    requires Sound(setting, books) && CheckOf(setting, books, request, self).Ok?
    ensures AllApply(books.rows, CheckOf(setting, books, request, self).value.billing.instalments)
  {
    hide CheckOf, Recognition.PlanAmountChange, Billing.ReductionOf, TaxReduction, BelowPaidOn;
    CheckParts(setting, books, request, self);
    var checked := CheckOf(setting, books, request, self).value;
    var changes := checked.billing.instalments;
    FactsSound(books.rows);
    BillingProofs.PlanChanges(BillingInput(books, request, checked.gross, self));
    forall k | 0 <= k < |changes| ensures Applies(books.rows, IndexOf(books.rows, changes[k].id), changes[k]) {
      assert changes[k] in changes;
      ChangeApplies(books.rows, changes[k]);
    }
  }

  /** What a memo credits: one invoice at most, by what the plan applies to it or refunds of it. */
  ghost predicate CreditsOne(credits: seq<(nat, int)>, billing: Billing.Plan, appliesTo: Option<nat>) {
    if credits == [] then billing.refund == 0 && billing.applied == []
    else
      && (billing.refund > 0 ==> billing.applied == [])
      && |credits| == 1 && appliesTo == Some(credits[0].0)
      && credits[0].1 == BillingProofs.AppliedSum(billing.applied) + billing.refund > 0
  }

  lemma RecordsApplied(p: Billing.Plan, appliesTo: Option<nat>)
    requires |p.applied| == 1 && p.refund == 0 && p.applied[0].amount > 0
    requires p.applied[0].instalment.Some? && appliesTo == p.applied[0].instalment
    ensures CreditsOne(CreditsToRecord(p, appliesTo), p, appliesTo)
  {
    assert p.applied[1..] == [];
    var one := AddCredit([], p.applied[0].instalment.value, p.applied[0].amount);
    assert AppliedCredits([], p.applied) == AppliedCredits(one, []) == one;
  }

  lemma RecordsRefund(p: Billing.Plan, appliesTo: Option<nat>)
    requires p.applied == [] && p.refund >= 0 && (p.refund > 0 ==> appliesTo.Some?)
    ensures CreditsOne(CreditsToRecord(p, appliesTo), p, appliesTo)
  {
    assert AppliedCredits([], p.applied) == [];
  }

  /** A plan's memo is recorded on the invoice the request names, or on none. */
  lemma RecordsOne(input: Billing.Input)
    requires Billing.ReductionOf(input).Ok? && BillingProofs.NonNegativeAmounts(input.instalments)
    requires input.instalments != []
    ensures var p := Billing.ReductionOf(input).value;
            CreditsOne(CreditsToRecord(p, input.appliesTo), p, input.appliesTo)
  {
    hide Billing.ReductionOf, CreditsOne, CreditsToRecord, BillingProofs.LandsRest;
    var p := Billing.ReductionOf(input).value;
    BillingProofs.InstalmentReduction(input);
    if p.applied != [] {
      RecordsApplied(p, input.appliesTo);
    } else {
      RecordsRefund(p, input.appliesTo);
    }
  }

  /** Without instalments a memo is recorded on none. */
  lemma RecordsNone(input: Billing.Input)
    requires Billing.ReductionOf(input).Ok? && input.instalments == []
    ensures CreditsToRecord(Billing.ReductionOf(input).value, input.appliesTo) == []
  {
    var p := Billing.ReductionOf(input).value;
    if p.applied != [] {
      assert p.applied[1..] == [] && p.applied[0].instalment.None?;
    }
    assert AppliedCredits([], p.applied) == [];
  }

  lemma CreditOne(rows: seq<Row>, id: nat, amount: int)
    requires RowsSound(rows) && amount > 0
    requires var i := IndexOf(rows, id); i >= 0 && !UninvoicedRow(rows[i])
    ensures var i := IndexOf(rows, id);
            CreditAll(rows, [(id, amount)])
              == if rows[i].credited + amount > rows[i].amount then Refused(Overcredited)
                 else Ok(rows[i := rows[i].(credited := rows[i].credited + amount)])
    ensures var result := CreditAll(rows, [(id, amount)]);
            result.Ok? ==> && RowsSound(result.value) && |result.value| == |rows|
                           && Live(result.value) == Live(rows) && Credited(result.value) == Credited(rows) + amount
  {
    var i := IndexOf(rows, id);
    assert [(id, amount)][1..] == [];
    LiveUpdate(rows, i, rows[i].(credited := rows[i].credited + amount));
  }

  // ─── The step ─────────────────────────────────────────────────────────────

  /** The plan's drafts, numbered from `first` on, after what the ledger held: the catch-up, the offsets and the new
      schedule. */
  predicate Booked(before: seq<Recognition.Entry>, plan: Recognition.Plan, first: nat, after: seq<Recognition.Entry>) {
    var drafts := RecognitionProofs.ListOf(plan.catchUpEntry) + plan.offsets + plan.respread;
    && |after| == |before| + |drafts| && after[..|before|] == before
    && forall i :: 0 <= i < |drafts| ==> after[|before| + i] == drafts[i].(number := first + i)
  }

  /** A memo's one entry after those there were, or none without a memo. */
  ghost predicate PostsMemo(setting: Setting, before: seq<Recognition.Entry>, request: Request, memo: CreditMemo.Split, after: seq<Recognition.Entry>) {
    if memo.gross <= 0 then after == before
    else
      var input := CreditMemo.MemoInput(memo, request.effective, setting.receivable, setting.deferred, setting.line.credits, setting.dimensions);
      && |after| == |before| + 1 && after[..|before|] == before
      && exists pieces :: CreditMemoResults.Posts(input, after[|before|], pieces)
  }

  /** What an approved change does to the rest of the books, besides keeping them sound. */
  ghost predicate Steps(setting: Setting, before: Books, request: Request, checked: Checked, own: Approved, first: nat, after: Books) {
    && after.status == before.status && after.renewed == before.renewed && after.returned == before.returned
    && Booked(before.entries, checked.recognition, first, after.entries)
    && PostsMemo(setting, before.memos, request, checked.memo, after.memos)
    && after.amount == request.newAmount
    && after.changes == before.changes + [own]
    && after.balance == before.balance - checked.gross
    && own.schedule == checked.schedule && own.memo == checked.memo.gross && own.reduced == checked.recognition.reduction
    && (before.rows != [] ==> Live(after.rows) == Live(before.rows) - checked.schedule)
    && Credited(after.rows) - Credited(before.rows)
       == (if before.rows == [] then 0 else BillingProofs.AppliedSum(checked.billing.applied) + checked.billing.refund)
    && after.billed == before.billed - checked.memo.net
  }

  lemma NamedRow(rows: seq<Row>, input: Billing.Input, plan: Billing.Plan)
    requires input.instalments == AllFacts(rows) && BillingProofs.CreditsFairly(input, plan)
    requires RowsSound(rows) && input.appliesTo.Some? && (plan.applied != [] || plan.refund != 0)
    ensures var i := IndexOf(rows, input.appliesTo.value); i >= 0 && !UninvoicedRow(rows[i])
    ensures var i := IndexOf(rows, input.appliesTo.value);
            if plan.applied != [] then plan.refund == 0 && |plan.applied| == 1
                 && rows[i].credited + plan.applied[0].amount <= rows[i].amount
            else plan.refund > 0
  {
    var r :| r in input.instalments && Billing.IsInvoice(r) && Some(r.id) == input.appliesTo
             && (plan.applied != [] ==> plan.applied[0].amount <= r.balance);
    var i :| 0 <= i < |rows| && AllFacts(rows)[i] == r;
    IndexIs(rows, i);
  }

  /** The rows after a change are lowered without refusal, by just what the plan takes off the schedule. */
  lemma LoweredStep(setting: Setting, books: Books, request: Request, self: nat)
    requires Sound(setting, books) && CheckOf(setting, books, request, self).Ok?
    ensures var checked := CheckOf(setting, books, request, self).value;
            var lowered := LowerAll(books.rows, checked.billing.instalments);
            && lowered.Ok? && SameInvoices(books.rows, lowered.value) && RowsSound(lowered.value)
            && Live(lowered.value) == Live(books.rows) - checked.schedule
            && Credited(lowered.value) == Credited(books.rows)
  {
    hide CheckOf, LowerAll;
    CheckGross(setting, books, request, self);
    CheckApplies(setting, books, request, self);
    LowerAllKeeps(books.rows, CheckOf(setting, books, request, self).value.billing.instalments);
  }

  /** What a memo credits is one invoice, named by the request, that the schedule holds. */
  ghost predicate CreditsNamed(rows: seq<Row>, billing: Billing.Plan, appliesTo: Option<nat>) {
    var credits := CreditsToRecord(billing, appliesTo);
    && CreditsOne(credits, billing, appliesTo) && billing.refund >= 0
    && (credits != [] ==>
          var i := IndexOf(rows, credits[0].0);
          && i >= 0 && !UninvoicedRow(rows[i])
          && (billing.refund == 0 ==> rows[i].credited + credits[0].1 <= rows[i].amount))
  }

  lemma CreditStep(rows: seq<Row>, input: Billing.Input)
    requires Billing.ReductionOf(input).Ok? && input.instalments == AllFacts(rows) != [] && RowsSound(rows)
    ensures CreditsNamed(rows, Billing.ReductionOf(input).value, input.appliesTo)
  {
    hide Billing.ReductionOf, CreditsToRecord, BillingProofs.LandsRest;
    FactsSound(rows);
    RecordsOne(input);
    BillingProofs.InstalmentReduction(input);
    var plan := Billing.ReductionOf(input).value;
    var credits := CreditsToRecord(plan, input.appliesTo);
    if credits != [] {
      NamedRow(rows, input, plan);
      if plan.applied != [] {
        assert plan.applied[1..] == [];
        assert BillingProofs.AppliedSum(plan.applied) == plan.applied[0].amount;
      }
    }
  }

  /** A credited invoice is untouched by the lowering, so crediting it can only refuse a refund. */
  lemma CreditedStep(before: seq<Row>, lowered: seq<Row>, billing: Billing.Plan, appliesTo: Option<nat>)
    requires RowsSound(before) && RowsSound(lowered) && SameInvoices(before, lowered)
    requires CreditsNamed(before, billing, appliesTo)
    ensures var credits := CreditsToRecord(billing, appliesTo);
            var result := CreditAll(lowered, credits);
            && (result.Ok? <==> credits == [] || var i := IndexOf(before, credits[0].0);
                                                 before[i].credited + credits[0].1 <= before[i].amount)
            && (result.Refused? ==> result.reason == Overcredited && billing.refund > 0)
            && (result.Ok? ==> && RowsSound(result.value) && |result.value| == |before|
                               && Live(result.value) == Live(lowered)
                               && Credited(result.value) == Credited(lowered) + if credits == [] then 0 else credits[0].1)
  {
    hide CreditsToRecord;
    var credits := CreditsToRecord(billing, appliesTo);
    if credits != [] {
      var i := IndexOf(before, credits[0].0);
      IndexIs(lowered, i);
      assert credits == [(credits[0].0, credits[0].1)];
      CreditOne(lowered, credits[0].0, credits[0].1);
    }
  }

  // ─── The approval ─────────────────────────────────────────────────────────

  /** A passed check is applied unless one of six things the caller could have looked up says no. */
  ghost predicate Applicable(setting: Setting, books: Books, request: Request, checked: Checked, value: int) {
    && checked.recognition.reduction == value
    && (checked.recognition.catchUp > 0 ==> checked.recognition.catchUpEntry.Some?)
    && Postable(setting, books, request, checked)
  }

  /** The driver scheduled no negative slice, the memo takes its tax back from accounts credited with some, and a
      refund fits the paid invoice it is of. */
  ghost predicate Postable(setting: Setting, books: Books, request: Request, checked: Checked) {
    && Recognition.Takes(checked.recognition.respread) && TaxFits(setting, request, checked.memo)
    && (checked.memo.tax > 0 ==> Sum(CreditMemo.AmountsOf(setting.line.credits)) != 0)
    && (checked.billing.refund > 0 && books.rows != [] ==> RefundFits(books.rows, checked.billing, request.appliesTo))
  }

  /** No account gives back tax the other way round. */
  ghost predicate TaxFits(setting: Setting, request: Request, memo: CreditMemo.Split) {
    memo.gross > 0 ==> forall c :: c in CreditMemo.TaxShares(MemoEntryInput(setting, request, memo)) ==> c.amount > 0
  }

  /** The refund of a paid invoice, on top of what was credited on it before, is no more than its amount. */
  predicate RefundFits(rows: seq<Row>, billing: Billing.Plan, appliesTo: Option<nat>) {
    appliesTo.Some?
    && var i := IndexOf(rows, appliesTo.value);
    i >= 0 && rows[i].credited + billing.refund <= rows[i].amount
  }

  lemma MemoEntryWhen(setting: Setting, request: Request, memo: CreditMemo.Split)
    requires CreditMemo.Parts(memo)
    ensures MemoEntry(setting, request, memo).Ok? <==> memo.tax <= 0 || Sum(CreditMemo.AmountsOf(setting.line.credits)) != 0
    ensures MemoEntry(setting, request, memo).Ok? ==> (MemoEntry(setting, request, memo).value == [] <==> memo.gross == 0)
  {
  }

  lemma MemoTaken(setting: Setting, request: Request, memo: CreditMemo.Split)
    requires CreditMemo.Parts(memo) && MemoEntry(setting, request, memo).Ok?
    ensures Recognition.Takes(MemoEntry(setting, request, memo).value) <==> TaxFits(setting, request, memo)
  {
    hide CreditMemo.TaxShares, Sum;
    if memo.gross > 0 {
      var input := MemoEntryInput(setting, request, memo);
      var shares := CreditMemo.TaxShares(input);
      var tax := CreditMemo.TaxLines(shares, input.dimensions);
      var lines := CreditMemo.EntryOf(input).value.lines;
      assert forall l :: l in tax ==> l in lines;
      forall k | 0 <= k < |shares| ensures Recognition.Bookable(tax[k]) <==> shares[k].amount > 0 {}
      assert Recognition.AllBookable(tax) <==> forall c :: c in shares ==> c.amount > 0 by {
        if Recognition.AllBookable(tax) {
          forall c | c in shares ensures c.amount > 0 {
            var k :| 0 <= k < |shares| && shares[k] == c;
            assert tax[k] in tax;
          }
        }
      }
    }
  }

  /** Of a passed check, accounting takes the drafts exactly when it takes the new schedule and the memo. */
  lemma DraftsTaken(setting: Setting, books: Books, request: Request, self: nat, memo: seq<Recognition.Entry>)
    requires Recognition.Takes(books.entries) && CheckOf(setting, books, request, self).Ok?
    ensures var plan := CheckOf(setting, books, request, self).value.recognition;
            Recognition.Takes(Drafts(plan) + memo) <==> Recognition.Takes(plan.respread) && Recognition.Takes(memo)
  {
    hide CheckOf, Recognition.PlanAmountChange, Recognition.AllBookable;
    CheckParts(setting, books, request, self);
    var plan := CheckOf(setting, books, request, self).value.recognition;
    RecognitionProofs.PostedTakenExactlyWhen(RecognitionInput(setting, books, request));
    assert Drafts(plan) == RecognitionProofs.Posted(plan);
    assert forall e :: e in Drafts(plan) + memo <==> e in Drafts(plan) || e in memo;
  }

  /** The rows an applied change leaves, and when crediting them is refused. */
  ghost predicate RowsAfter(books: Books, request: Request, checked: Checked, after: Result<seq<Row>, Refusal>) {
    && (after.Ok? <==> (checked.billing.refund > 0 && books.rows != [] ==> RefundFits(books.rows, checked.billing, request.appliesTo)))
    && (after.Ok? ==>
          && RowsSound(after.value) && |after.value| == |books.rows|
          && Live(after.value) == Live(books.rows) - checked.schedule
          && Credited(after.value) - Credited(books.rows)
             == if books.rows == [] then 0 else BillingProofs.AppliedSum(checked.billing.applied) + checked.billing.refund)
  }

  lemma CreditsOf(rows: seq<Row>, billing: Billing.Plan, appliesTo: Option<nat>)
    requires CreditsNamed(rows, billing, appliesTo)
    ensures var credits := CreditsToRecord(billing, appliesTo);
            (if credits == [] then 0 else credits[0].1) == BillingProofs.AppliedSum(billing.applied) + billing.refund
    ensures var credits := CreditsToRecord(billing, appliesTo);
            (credits == [] || var i := IndexOf(rows, credits[0].0); rows[i].credited + credits[0].1 <= rows[i].amount)
              <==> (billing.refund > 0 ==> RefundFits(rows, billing, appliesTo))
  {
    hide CreditsToRecord;
    var credits := CreditsToRecord(billing, appliesTo);
    if credits != [] && billing.refund > 0 {
      assert credits[0].1 == billing.refund;
    }
  }

  /** A change without a memo credits nothing. */
  lemma NoMemoNoCredit(input: Billing.Input)
    requires Billing.ReductionOf(input).Ok? && BillingProofs.NonNegativeAmounts(input.instalments)
    requires Billing.ReductionOf(input).value.creditMemo == 0
    ensures CreditsToRecord(Billing.ReductionOf(input).value, input.appliesTo) == []
  {
    if input.instalments == [] {
      RecordsNone(input);
    } else {
      hide Billing.ReductionOf, CreditsToRecord;
      RecordsOne(input);
      BillingProofs.ReductionConserved(input);
      BillingProofs.InstalmentReduction(input);
    }
  }

  lemma RowsAfterChange(setting: Setting, books: Books, request: Request, self: nat, memo: seq<Recognition.Entry>)
    requires Sound(setting, books) && CheckOf(setting, books, request, self).Ok?
    requires memo == [] <==> CheckOf(setting, books, request, self).value.memo.gross <= 0
    ensures var checked := CheckOf(setting, books, request, self).value;
            var lowered := LowerAll(books.rows, checked.billing.instalments);
            lowered.Ok? && RowsAfter(books, request, checked, CreditAll(lowered.value, Recorded(checked, request, memo)))
  {
    hide CheckOf, LowerAll, CreditsToRecord, CreditAll, Billing.ReductionOf, RefundFits, CreditsNamed, CreditMemo.SplitCreditMemo;
    LoweredStep(setting, books, request, self);
    CheckParts(setting, books, request, self);
    CheckMeasured(setting, books, request, self);
    FactsSound(books.rows);
    var checked := CheckOf(setting, books, request, self).value;
    var lowered := LowerAll(books.rows, checked.billing.instalments).value;
    var input := BillingInput(books, request, checked.gross, self);
    CutBounds(input);
    if checked.memo.gross <= 0 { NoMemoNoCredit(input); }
    assert Recorded(checked, request, memo) == CreditsToRecord(checked.billing, request.appliesTo);
    if books.rows == [] {
      RecordsNone(input);
      NothingCredited(lowered);
    } else {
      CreditStep(books.rows, input);
      CreditedStep(books.rows, lowered, checked.billing, request.appliesTo);
      CreditsOf(books.rows, checked.billing, request.appliesTo);
    }
  }

  lemma NothingCredited(rows: seq<Row>)
    ensures CreditAll(rows, []) == Ok(rows)
  {
  }

  // ─── What approval stamps ─────────────────────────────────────────────────

  lemma SnocSound(changes: seq<Approved>, own: Approved)
    requires ChangesSound(changes) && ChangeSound(own) && Fresh(changes, own.id)
    requires forall c :: c in changes && own.number != "" ==> c.number != own.number
    ensures ChangesSound(changes + [own])
  {
    forall i | 0 <= i < |changes| ensures changes[i].id != own.id && (own.number != "" ==> changes[i].number != own.number) {
      assert changes[i] in changes;
    }
  }

  lemma StampedNumber(setting: Setting, changes: seq<Approved>)
    requires CreditMemo.ReadsDecimals(setting.reader)
    ensures var number := CreditMemo.CreditMemoNumber(setting.order, NumbersOf(changes), setting.reader);
            number != "" && forall c :: c in changes ==> c.number != number
  {
    var numbers := NumbersOf(changes);
    CreditMemo.NumberIsFresh(setting.order, numbers, setting.reader);
    forall c | c in changes ensures c.number in numbers {
      var i :| 0 <= i < |changes| && changes[i] == c;
      assert numbers[i] == c.number;
    }
  }

  lemma StampSound(setting: Setting, books: Books, request: Request, id: nat)
    requires Sound(setting, books) && CheckOf(setting, books, request, id).Ok?
    requires Fresh(books.changes, id) && CreditMemo.ReadsDecimals(setting.reader)
    ensures var checked := CheckOf(setting, books, request, id).value;
            var own := Stamp(setting, books, checked, id, checked.recognition.reduction);
            && own.schedule == checked.schedule && own.memo == checked.gross - checked.schedule == checked.memo.gross
            && (own.number == "" <==> checked.memo.gross <= 0)
            && ChangesSound(books.changes + [own])
  {
    hide CheckOf, CreditMemo.CreditMemoNumber, CreditMemo.SplitCreditMemo, Billing.Cut, ChangesSound;
    CheckMeasured(setting, books, request, id);
    StampedNumber(setting, books.changes);
    var checked := CheckOf(setting, books, request, id).value;
    SnocSound(books.changes, Stamp(setting, books, checked, id, checked.recognition.reduction));
  }

  /** Given what the memo, the ledger and the rows say, when the writes go through. */
  lemma WrittenGiven(setting: Setting, books: Books, request: Request, own: Approved, checked: Checked, first: nat, memo: seq<Recognition.Entry>)
    requires MemoEntry(setting, request, checked.memo) == Ok(memo) && checked.schedule == own.schedule
    requires var lowered := LowerAll(books.rows, checked.billing.instalments);
             lowered.Ok? && RowsAfter(books, request, checked, CreditAll(lowered.value, Recorded(checked, request, memo)))
    ensures var written := WrittenOf(setting, Saved(books, own), request, own, checked, first);
            && (written.Ok? <==> Recognition.Takes(Drafts(checked.recognition) + memo)
                                 && (checked.billing.refund > 0 && books.rows != [] ==> RefundFits(books.rows, checked.billing, request.appliesTo)))
            && (written.Ok? ==> WrittenRows(books, request, checked, written.value.rows))
  {
    hide LowerAll, CreditAll, MemoEntry, Recorded, RefundFits, Recognition.Takes, Drafts, Sum;
  }

  /** Of a passed check, the writes are refused just for a tax no account was credited with, drafts accounting does
      not take, or a refund that does not fit its invoice. */
  lemma WrittenWhen(setting: Setting, books: Books, request: Request, own: Approved, first: nat)
    requires Sound(setting, books) && CheckOf(setting, books, request, own.id).Ok?
    requires CheckOf(setting, books, request, own.id).value.schedule == own.schedule
    ensures var checked := CheckOf(setting, books, request, own.id).value;
            WrittenOf(setting, Saved(books, own), request, own, checked, first).Ok? == Postable(setting, books, request, checked)
    ensures var checked := CheckOf(setting, books, request, own.id).value;
            var written := WrittenOf(setting, Saved(books, own), request, own, checked, first);
            written.Ok? ==> WrittenRows(books, request, checked, written.value.rows)
  {
    SoundTerm(setting, books);
    hide CheckOf, LowerAll, CreditsToRecord, CreditAll, MemoEntry, Sound, RefundFits, Recorded, Sum;
    hide CreditMemo.SplitCreditMemo, Billing.Cut, Recognition.Takes, TaxFits, Drafts;
    var checked := CheckOf(setting, books, request, own.id).value;
    CheckMeasured(setting, books, request, own.id);
    MemoEntryWhen(setting, request, checked.memo);
    var memo := MemoEntry(setting, request, checked.memo);
    hide RowsAfter, Live, Credited;
    if memo.Ok? {
      RowsAfterChange(setting, books, request, own.id, memo.value);
      DraftsTaken(setting, books, request, own.id, memo.value);
      MemoTaken(setting, request, checked.memo);
      WrittenGiven(setting, books, request, own, checked, first, memo.value);
      hide WrittenOf;
    } else {
      LoweredStep(setting, books, request, own.id);
    }
  }

  lemma SoundTerm(setting: Setting, books: Books)
    requires Sound(setting, books)
    ensures TermSound(setting.line, books) && Recognition.Takes(books.entries)
  {
  }

  ghost predicate WrittenRows(books: Books, request: Request, checked: Checked, rows: seq<Row>) {
    RowsAfter(books, request, checked, Ok(rows))
  }

  /** A stamped change accepts its own stamp: it is applied exactly when the check passes and the request is
      applicable; nothing in the approval itself can make it refuse as a change of the order. */
  lemma ApprovedExactlyWhen(setting: Setting, books: Books, request: Request, id: nat, value: int, first: nat)
    requires Sound(setting, books) && Fresh(books.changes, id) && CreditMemo.ReadsDecimals(setting.reader)
    ensures ApprovedOf(setting, books, request, id, value, first).Ok?
       <==> && CheckOf(setting, books, request, id).Ok?
            && Applicable(setting, books, request, CheckOf(setting, books, request, id).value, value)
  {
    hide CheckOf, Sound, RefundFits, WrittenOf, Sum;
    hide CreditMemo.CreditMemoNumber, CreditMemo.SplitCreditMemo, ChangesSound, Billing.Cut;
    if CheckOf(setting, books, request, id).Ok? {
      var checked := CheckOf(setting, books, request, id).value;
      var own := Stamp(setting, books, checked, id, value);
      StampSound(setting, books, request, id);
      CheckMeasured(setting, books, request, id);
      CheckedAgain(setting, books, request, own);
      WrittenWhen(setting, books, request, own, first);
    }
  }

  lemma ApprovedIs(setting: Setting, books: Books, request: Request, id: nat, value: int, first: nat)
    requires Sound(setting, books) && Fresh(books.changes, id) && CreditMemo.ReadsDecimals(setting.reader)
    requires ApprovedOf(setting, books, request, id, value, first).Ok?
    ensures CheckOf(setting, books, request, id).Ok?
    ensures var checked := CheckOf(setting, books, request, id).value;
            var own := Stamp(setting, books, checked, id, value);
            && value == checked.recognition.reduction && own.schedule == checked.schedule
            && WrittenOf(setting, Saved(books, own), request, own, checked, first)
               == Ok(ApprovedOf(setting, books, request, id, value, first).value)
  {
    hide CheckOf, Sound, WrittenOf, CreditMemo.CreditMemoNumber;
    var checked := CheckOf(setting, books, request, id).value;
    var own := Stamp(setting, books, checked, id, value);
    CheckedAgain(setting, books, request, own);
    StampSound(setting, books, request, id);
  }

  lemma WrittenFields(setting: Setting, books: Books, request: Request, own: Approved, checked: Checked, first: nat)
    requires CreditMemo.Parts(checked.memo) && WrittenOf(setting, books, request, own, checked, first).Ok?
    ensures var after := WrittenOf(setting, books, request, own, checked, first).value;
            && after.amount == request.newAmount && after.billed == books.billed - checked.memo.net
            && after.changes == books.changes && after.balance == books.balance
            && after.status == books.status && after.renewed == books.renewed && after.returned == books.returned
            && after.entries == books.entries + Numbered(Drafts(checked.recognition), first)
            && Recognition.Takes(Drafts(checked.recognition))
            && MemoEntry(setting, request, checked.memo).Ok?
            && after.memos == books.memos + MemoEntry(setting, request, checked.memo).value
  {
    hide LowerAll, CreditAll, MemoEntry, CreditsToRecord, Drafts, Numbered, Recognition.AllBookable;
    MemoEntryWhen(setting, request, checked.memo);
  }

  lemma WrittenLedger(setting: Setting, books: Books, request: Request, own: Approved, checked: Checked, first: nat)
    requires CreditMemo.Parts(checked.memo) && WrittenOf(setting, books, request, own, checked, first).Ok?
    ensures var after := WrittenOf(setting, books, request, own, checked, first).value;
            && Booked(books.entries, checked.recognition, first, after.entries)
            && PostsMemo(setting, books.memos, request, checked.memo, after.memos)
  {
    WrittenFields(setting, books, request, own, checked, first);
    hide WrittenOf, Recognition.Takes;
    var after := WrittenOf(setting, books, request, own, checked, first).value;
    var memo := MemoEntry(setting, request, checked.memo).value;
    if checked.memo.gross > 0 {
      var input := CreditMemo.MemoInput(checked.memo, request.effective, setting.receivable, setting.deferred, setting.line.credits, setting.dimensions);
      var pieces := CreditMemoResults.EntryIs(input);
      assert memo == [CreditMemo.EntryOf(input).value];
      assert CreditMemoResults.Posts(input, memo[0], pieces);
    }
  }

  lemma BookedTaken(entries: seq<Recognition.Entry>, drafts: seq<Recognition.Entry>, first: nat)
    requires Recognition.Takes(entries) && Recognition.Takes(drafts)
    ensures Recognition.Takes(entries + Numbered(drafts, first))
  {
    hide Recognition.AllBookable;
    var booked := Numbered(drafts, first);
    forall e | e in booked ensures Recognition.AllBookable(e.lines) {
      var k :| 0 <= k < |booked| && booked[k] == e;
      assert drafts[k] in drafts && e.lines == drafts[k].lines;
    }
  }

  /** Every approved change steps the books as its check planned. */
  lemma ApprovalSteps(setting: Setting, books: Books, request: Request, id: nat, value: int, first: nat)
    requires Sound(setting, books) && Fresh(books.changes, id) && CreditMemo.ReadsDecimals(setting.reader)
    requires ApprovedOf(setting, books, request, id, value, first).Ok?
    ensures CheckOf(setting, books, request, id).Ok?
    ensures var checked := CheckOf(setting, books, request, id).value;
            Steps(setting, books, request, checked, Stamp(setting, books, checked, id, value), first,
                  ApprovedOf(setting, books, request, id, value, first).value)
  {
    hide CheckOf, Sound, WrittenOf, ApprovedOf, CreditMemo.CreditMemoNumber, CreditMemo.SplitCreditMemo, ChangesSound, Billing.Cut,
      Booked, PostsMemo, MemoEntry;
    ApprovedIs(setting, books, request, id, value, first);
    var checked := CheckOf(setting, books, request, id).value;
    var own := Stamp(setting, books, checked, id, value);
    CheckMeasured(setting, books, request, id);
    StampSound(setting, books, request, id);
    WrittenWhen(setting, books, request, own, first);
    WrittenFields(setting, Saved(books, own), request, own, checked, first);
    WrittenLedger(setting, Saved(books, own), request, own, checked, first);
  }

  lemma BillingGuard(setting: Setting, books: Books, request: Request, id: nat)
    requires Sound(setting, books) && Fresh(books.changes, id) && CheckOf(setting, books, request, id).Ok?
    ensures var checked := CheckOf(setting, books, request, id).value;
            && Magnitude(books.billed) - checked.memo.net
               <= setting.line.net - Reduced(books.changes, setting.line.id) - checked.recognition.reduction
            && (books.rows == [] ==> checked.schedule == 0)
  {
    hide CheckOf, Recognition.PlanAmountChange, TaxReduction;
    CheckParts(setting, books, request, id);
    FreshTotals(books.changes, setting.line.id, id);
  }

  /** The joint invariant over every approval: the live instalments tie to the order's lines less their changes, no
      row is credited above its amount, none is lowered below what is paid on it, the line is never billed beyond
      its lowered net, every change is stored in parts that hold it, under its own memo number, and the ledger
      holds only lines accounting books. */
  lemma ApprovalKeepsSound(setting: Setting, books: Books, request: Request, id: nat, value: int, first: nat)
    requires Sound(setting, books) && Fresh(books.changes, id) && CreditMemo.ReadsDecimals(setting.reader)
    requires ApprovedOf(setting, books, request, id, value, first).Ok?
    ensures Sound(setting, ApprovedOf(setting, books, request, id, value, first).value)
  {
    hide CheckOf, WrittenOf, ApprovedOf, CreditMemo.CreditMemoNumber, CreditMemo.SplitCreditMemo, ChangesSound, Billing.Cut, Live, Credited,
      Recognition.Takes, Drafts, Numbered;
    ApprovedIs(setting, books, request, id, value, first);
    ApprovalSteps(setting, books, request, id, value, first);
    var checked := CheckOf(setting, books, request, id).value;
    var own := Stamp(setting, books, checked, id, value);
    CheckMeasured(setting, books, request, id);
    StampSound(setting, books, request, id);
    BillingGuard(setting, books, request, id);
    WrittenWhen(setting, books, request, own, first);
    WrittenFields(setting, Saved(books, own), request, own, checked, first);
    BookedTaken(books.entries, Drafts(checked.recognition), first);
    TotalsSnoc(books.changes, own);
  }

  // ─── The ledger ───────────────────────────────────────────────────────────

  function TermOf(books: Books): RecognitionProofs.Term { RecognitionProofs.Term(books.entries, books.amount) }

  function ChangeOf(setting: Setting, request: Request): RecognitionProofs.Change {
    RecognitionProofs.Change(request.effective, request.newAmount, setting.termEnd, setting.driver, setting.periodMonths)
  }

  /** An approved change is one recognition step of its term: the ledger nets to the new amount afterwards. */
  lemma ApprovalKeepsLedger(setting: Setting, books: Books, request: Request, id: nat, value: int, first: nat,
                            deferred: Recognition.Side, revenue: Recognition.Side)
    requires Sound(setting, books) && Fresh(books.changes, id) && CreditMemo.ReadsDecimals(setting.reader)
    requires ApprovedOf(setting, books, request, id, value, first).Ok?
    requires RecognitionProofs.Holds(TermOf(books), deferred, revenue)
    ensures RecognitionProofs.Holds(TermOf(ApprovedOf(setting, books, request, id, value, first).value), deferred, revenue)
  {
    hide CheckOf, Sound, WrittenOf, ApprovedOf, Recognition.PlanAmountChange, Recognition.Takes, RecognitionProofs.Holds, TaxReduction, Guarded,
      Billing.ReductionOf, CreditMemo.CreditMemoNumber, CreditMemo.SplitCreditMemo;
    ApprovedIs(setting, books, request, id, value, first);
    CheckParts(setting, books, request, id);
    CheckMeasured(setting, books, request, id);
    var checked := CheckOf(setting, books, request, id).value;
    var after := ApprovedOf(setting, books, request, id, value, first).value;
    var own := Stamp(setting, books, checked, id, value);
    WrittenFields(setting, Saved(books, own), request, own, checked, first);
    NumberedSame(books.entries, Drafts(checked.recognition), first);
    assert RecognitionInput(setting, books, request) == RecognitionProofs.InputOf(TermOf(books), ChangeOf(setting, request));
    assert Drafts(checked.recognition) == RecognitionProofs.Posted(checked.recognition);
    assert RecognitionProofs.Applied(TermOf(books), ChangeOf(setting, request), TermOf(after));
    RecognitionProofs.ChangeKeepsNet(TermOf(books), ChangeOf(setting, request), TermOf(after), deferred, revenue);
  }

  lemma NumberedSame(entries: seq<Recognition.Entry>, drafts: seq<Recognition.Entry>, first: nat)
    ensures RecognitionProofs.SameBooks(entries + Numbered(drafts, first), entries + drafts)
  {
  }

  // ─── The lines instalment invoices slice ──────────────────────────────────

  /** Each stored change as an instalment invoice takes it off its line: net and tax, from the two parts stored. */
  function LineReductions(changes: seq<Approved>): seq<CreditMemo.LineReduction> {
    if changes == [] then []
    else
      var c := changes[0];
      var share := CreditMemo.ScheduleShare(c.schedule, c.memo, c.reduced);
      var rest := LineReductions(changes[1..]);
      if share.Ok? then [CreditMemo.LineReduction(c.line, share.value.net, share.value.tax)] + rest else rest
  }

  /** The line with its tax credits, as an instalment invoice reads it. */
  function Sliced(line: OrderLine): CreditMemo.SlicedLine {
    CreditMemo.SlicedLine(line.id, line.net, line.tax, line.net, line.credits)
  }

  /** What a line's changes took off the schedule. */
  function ScheduledOn(changes: seq<Approved>, line: nat): int {
    if changes == [] then 0 else (if changes[0].line == line then changes[0].schedule else 0) + ScheduledOn(changes[1..], line)
  }

  /** A line's reductions have non-negative parts that come to what its changes took off the schedule, and hold no
      more net than those changes reduced. */
  lemma {:induction false} ReductionTotals(changes: seq<Approved>, line: nat)
    requires forall c :: c in changes ==> ChangeSound(c)
    ensures var mine := CreditMemo.Of(LineReductions(changes), line);
            && CreditMemo.NetOf(mine) + CreditMemo.TaxOf(mine) == ScheduledOn(changes, line)
            && 0 <= CreditMemo.NetOf(mine) <= Reduced(changes, line) && CreditMemo.TaxOf(mine) >= 0
  {
    if changes != [] {
      var c := changes[0];
      assert c in changes && forall d :: d in changes[1..] ==> d in changes;
      ReductionTotals(changes[1..], line);
      CreditMemo.SplitRecombines(c.schedule, c.memo, c.reduced);
      var share := CreditMemo.ScheduleShare(c.schedule, c.memo, c.reduced).value;
      var first, rest := CreditMemo.LineReduction(c.line, share.net, share.tax), LineReductions(changes[1..]);
      assert LineReductions(changes) == [first] + rest && ([first] + rest)[1..] == rest;
      var mine := CreditMemo.Of(rest, line);
      assert CreditMemo.Of([first] + rest, line) == if c.line == line then [first] + mine else mine;
      assert ([first] + mine)[1..] == mine;
    }
  }

  /** A stored pair holds a reduction as its check split it. */
  ghost predicate GivesBack(own: Approved, memo: CreditMemo.Split, tax: int) {
    var share := CreditMemo.ScheduleShare(own.schedule, own.memo, own.reduced);
    && CreditMemo.SplitCreditMemo(own.memo, own.reduced, own.schedule + own.memo) == Ok(memo)
    && share.Ok? && CreditMemo.Parts(share.value) && share.value.gross == own.schedule
    && share.value.net + memo.net == own.reduced
    && share.value.tax + memo.tax == tax
  }

  lemma PairGivesBack(own: Approved, memo: CreditMemo.Split, tax: int)
    requires 0 <= own.reduced <= own.schedule + own.memo == own.reduced + tax && own.schedule >= 0 && own.memo >= 0
    requires CreditMemo.SplitCreditMemo(own.memo, own.reduced, own.schedule + own.memo) == Ok(memo)
    ensures GivesBack(own, memo, tax)
  {
    CreditMemo.SplitRecombines(own.schedule, own.memo, own.reduced);
  }

  /** The stored pair gives back the planned split, whatever the ratio and the rounding. */
  lemma StoredPairGivesBackSplit(setting: Setting, books: Books, request: Request, id: nat)
    requires Sound(setting, books) && Fresh(books.changes, id) && CreditMemo.ReadsDecimals(setting.reader)
    requires CheckOf(setting, books, request, id).Ok?
    ensures var checked := CheckOf(setting, books, request, id).value;
            var own := Stamp(setting, books, checked, id, checked.recognition.reduction);
            GivesBack(own, checked.memo, TaxReduction(setting.line, checked.recognition.reduction))
  {
    hide CheckOf, Sound, Recognition.PlanAmountChange, Billing.ReductionOf, TaxReduction, GivesBack,
      CreditMemo.SplitCreditMemo, CreditMemo.CreditMemoNumber, Billing.Cut, Guarded, ChangesSound;
    StampSound(setting, books, request, id);
    CheckMeasured(setting, books, request, id);
    CheckParts(setting, books, request, id);
    var checked := CheckOf(setting, books, request, id).value;
    var own := Stamp(setting, books, checked, id, checked.recognition.reduction);
    PairGivesBack(own, checked.memo, TaxReduction(setting.line, checked.recognition.reduction));
  }
}
