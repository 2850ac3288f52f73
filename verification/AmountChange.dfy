/** Checking and applying an approved amount change to a term, its order's instalments and its line
    (CheckAmountChange, ApplyAmountChange and their helpers in AmountChange.ts, and the stamp that
    OrderConcessionEntityServer.ts puts on the concession it approves). */
module AmountChange {
  import opened Outcomes
  import opened Rounding
  import Recognition
  import Billing
  import CreditMemo

  datatype TermStatus = Scheduled | Active | Closed

  /** A payment schedule row. Its balance is what it bills less what was credited and paid on it. */
  datatype Row = Row(
    id: nat, number: int, due: int, amount: int, paid: int, credited: int, status: Billing.Status, document: string)

  function Facts(row: Row): Billing.Instalment {
    Billing.Instalment(row.id, row.number, row.due, row.amount, row.amount - row.credited - row.paid, row.status, row.document)
  }

  function AllFacts(rows: seq<Row>): (facts: seq<Billing.Instalment>)
    ensures |facts| == |rows|
  {
    seq(|rows|, i requires 0 <= i < |rows| => Facts(rows[i]))
  }

  /** The order line that bought the term, as it was booked. */
  datatype OrderLine = OrderLine(id: nat, net: int, tax: int, taxCharges: seq<int>, otherCharges: int, credits: seq<CreditMemo.Credit>)

  /** An approved change as the concession stores it, with the line whose term it lowered; an empty number stands
      for no credit memo. */
  datatype Approved = Approved(id: nat, line: nat, reduced: int, schedule: int, memo: int, number: string)

  /** Everything a change reads and writes. The rows, the approved changes and the balance are the whole order's;
      the rest is the term's or its line's. */
  datatype Books = Books(
    status: TermStatus, renewed: bool, returned: bool, amount: int, entries: seq<Recognition.Entry>,
    memos: seq<Recognition.Entry>, rows: seq<Row>, billed: int, changes: seq<Approved>, balance: int)

  /** What a change only reads. `others` is what the order's other lines come to, tax included. */
  datatype Setting = Setting(
    line: OrderLine, others: int, termEnd: int, driver: Option<Recognition.Driver>, periodMonths: int,
    receivable: nat, deferred: nat, dimensions: multiset<(nat, nat)>, order: string, reader: CreditMemo.Reader)

  datatype Request = Request(newAmount: int, appliesTo: Option<nat>, refundRequested: bool, effective: int, acknowledged: bool)

  datatype Refusal =
    | TermNotOpen | RenewalPlaced | LineReturned | NobodyToAcknowledge
    | NotRecognized(recognition: Recognition.Refusal) | NotBilled(billing: Billing.Reason)
    | MemoTooLarge | OtherCharge | StillBilled | BelowPaid
    | OrderChanged | NoDeferredRevenue | NoMemoEntry(entry: CreditMemo.NoEntry) | LedgerRefuses | InvoicedMeanwhile | Overcredited

  datatype Checked = Checked(
    recognition: Recognition.Plan, gross: int, billing: Billing.Plan, schedule: int, memo: CreditMemo.Split)

  // ─── The check ────────────────────────────────────────────────────────────

  function Shares(charges: seq<int>, part: int, net: int): int
    requires net > 0
  {
    if charges == [] then 0 else RoundDiv(charges[0] * part, net) + Shares(charges[1..], part, net)
  }

  /** The line's tax in the share the reduction is of its net: each charge rounded by itself. */
  function TaxReduction(line: OrderLine, reduction: int): int {
    if line.net <= 0 then 0
    else
      var charges := if line.taxCharges != [] then line.taxCharges else if line.tax != 0 then [line.tax] else [];
      Shares(charges, Min(line.net, reduction), line.net)
  }

  /** How far saving a change has lowered the order's balance: by both its parts, once it is among the approved ones. */
  function OwnReduction(changes: seq<Approved>, id: nat): int {
    if changes == [] then 0
    else (if changes[0].id == id then changes[0].schedule + changes[0].memo else 0) + OwnReduction(changes[1..], id)
  }

  /** What a line's other changes reduced it by, before tax. */
  function ReducedByOthers(changes: seq<Approved>, line: nat, id: nat): int {
    if changes == [] then 0
    else (if changes[0].line == line && changes[0].id != id then changes[0].reduced else 0) + ReducedByOthers(changes[1..], line, id)
  }

  function RecognitionInput(setting: Setting, books: Books, request: Request): Recognition.Input {
    Recognition.Input(books.entries, request.effective, setting.termEnd, books.amount, request.newAmount,
                      setting.driver, setting.periodMonths)
  }

  function BillingInput(books: Books, request: Request, gross: int, self: nat): Billing.Input {
    Billing.Input(gross, AllFacts(books.rows), books.balance + OwnReduction(books.changes, self),
                  request.appliesTo, request.refundRequested)
  }

  function Magnitude(n: int): int { if n < 0 then -n else n }

  /** Where the row of an id is, or -1. */
  function IndexOf(rows: seq<Row>, id: nat): (i: int)
    ensures -1 <= i < |rows|
    ensures i >= 0 ==> rows[i].id == id && forall k :: 0 <= k < i ==> rows[k].id != id
    ensures i < 0 ==> forall k :: 0 <= k < |rows| ==> rows[k].id != id
  {
    if rows == [] then -1
    else if rows[0].id == id then 0
    else
      var rest := IndexOf(rows[1..], id);
      assert rest >= 0 ==> rows[rest + 1] == rows[1..][rest];
      assert forall k :: 1 <= k < |rows| ==> rows[k] == rows[1..][k - 1];
      if rest < 0 then -1 else rest + 1
  }

  /** A change would lower its row below what is already paid on it. */
  predicate BelowPaidOn(rows: seq<Row>, change: Billing.Change) {
    var i := IndexOf(rows, change.id);
    i >= 0 && change.next < rows[i].paid
  }

  predicate LowersBelowPaid(rows: seq<Row>, changes: seq<Billing.Change>) {
    exists c :: c in changes && BelowPaidOn(rows, c)
  }

  /** Every check in turn, then the plan. `self` is the change under approval, whose own row must not count against it. */
  function CheckOf(setting: Setting, books: Books, request: Request, self: nat): Result<Checked, Refusal> {
    if books.status.Closed? then Refused(TermNotOpen)
    else if books.renewed then Refused(RenewalPlaced)
    else if books.returned then Refused(LineReturned)
    else if !request.acknowledged then Refused(NobodyToAcknowledge)
    else
      var recognition := Recognition.PlanAmountChange(RecognitionInput(setting, books, request));
      if recognition.Refused? then Refused(NotRecognized(recognition.reason))
      else
        var plan := recognition.value;
        var gross := plan.reduction + TaxReduction(setting.line, plan.reduction);
        var billing := Billing.ReductionOf(BillingInput(books, request, gross, self));
        if billing.Refused? then Refused(NotBilled(billing.reason))
        else Guarded(setting, books, self, plan, gross, billing.value)
  }

  /** The guards on a planned change. */
  function Guarded(setting: Setting, books: Books, self: nat, plan: Recognition.Plan, gross: int, billing: Billing.Plan)
    : Result<Checked, Refusal>
  {
    var split := CreditMemo.SplitCreditMemo(billing.creditMemo, plan.reduction, gross);
    if split.Refused? then Refused(MemoTooLarge)
    else
      var memo := split.value;
      var netAfter := setting.line.net - ReducedByOthers(books.changes, setting.line.id, self) - plan.reduction;
      if (billing.instalments != [] || memo.gross > 0) && setting.line.otherCharges != 0 then Refused(OtherCharge)
      else if Magnitude(books.billed) - memo.net > netAfter then Refused(StillBilled)
      else if LowersBelowPaid(books.rows, billing.instalments) then Refused(BelowPaid)
      else Ok(Checked(plan, gross, billing, Billing.Cut(billing.instalments), memo))
  }

  // ─── The writes ───────────────────────────────────────────────────────────

  function LowerRow(row: Row, next: int): Row {
    if next > 0 then row.(amount := next) else row.(status := Billing.Canceled)
  }

  /** The rows with a plan's changes made to them in turn, unless one of them can no longer be changed. */
  function LowerAll(rows: seq<Row>, changes: seq<Billing.Change>): Result<seq<Row>, Refusal>
    decreases changes
  {
    if changes == [] then Ok(rows)
    else
      var i := IndexOf(rows, changes[0].id);
      if i < 0 || !Billing.Uninvoiced(Facts(rows[i])) then Refused(InvoicedMeanwhile)
      else LowerAll(rows[i := LowerRow(rows[i], changes[0].next)], changes[1..])
  }

  /** What the memo credits, by instalment, in the order it is recorded. */
  function AddCredit(credits: seq<(nat, int)>, id: nat, amount: int): seq<(nat, int)> {
    if credits == [] then [(id, amount)]
    else if credits[0].0 == id then [(id, credits[0].1 + amount)] + credits[1..]
    else [credits[0]] + AddCredit(credits[1..], id, amount)
  }

  function AppliedCredits(credits: seq<(nat, int)>, applied: seq<Billing.Application>): seq<(nat, int)>
    decreases applied
  {
    if applied == [] then credits
    else if applied[0].instalment.None? then AppliedCredits(credits, applied[1..])
    else AppliedCredits(AddCredit(credits, applied[0].instalment.value, applied[0].amount), applied[1..])
  }

  function CreditsToRecord(billing: Billing.Plan, appliesTo: Option<nat>): seq<(nat, int)> {
    var credits := AppliedCredits([], billing.applied);
    if billing.refund > 0 && appliesTo.Some? then AddCredit(credits, appliesTo.value, billing.refund) else credits
  }

  function CreditAll(rows: seq<Row>, credits: seq<(nat, int)>): Result<seq<Row>, Refusal>
    decreases credits
  {
    if credits == [] then Ok(rows)
    else
      var i := IndexOf(rows, credits[0].0);
      if i < 0 then Refused(OrderChanged)
      else if rows[i].credited + credits[0].1 > rows[i].amount then Refused(Overcredited)
      else CreditAll(rows[i := rows[i].(credited := rows[i].credited + credits[0].1)], credits[1..])
  }

  function Numbered(drafts: seq<Recognition.Entry>, first: nat): (booked: seq<Recognition.Entry>)
    ensures |booked| == |drafts|
  {
    seq(|drafts|, i requires 0 <= i < |drafts| => drafts[i].(number := first + i))
  }

  function Drafts(plan: Recognition.Plan): seq<Recognition.Entry> {
    (if plan.catchUpEntry.Some? then [plan.catchUpEntry.value] else []) + plan.offsets + plan.respread
  }

  function MemoEntryInput(setting: Setting, request: Request, memo: CreditMemo.Split): CreditMemo.MemoInput {
    CreditMemo.MemoInput(memo, request.effective, setting.receivable, setting.deferred, setting.line.credits, setting.dimensions)
  }

  /** The memo's entry, when the change carries a memo. */
  function MemoEntry(setting: Setting, request: Request, memo: CreditMemo.Split): Result<seq<Recognition.Entry>, Refusal> {
    if memo.gross <= 0 then Ok([])
    else
      var entry := CreditMemo.EntryOf(MemoEntryInput(setting, request, memo));
      if entry.Refused? then Refused(NoMemoEntry(entry.reason)) else Ok([entry.value])
  }

  /** Apply an approved change to the books it was saved in, or say why it is refused. */
  function ApplyOf(setting: Setting, books: Books, request: Request, own: Approved, first: nat): Result<Books, Refusal> {
    var result := CheckOf(setting, books, request, own.id);
    if result.Refused? then Refused(result.reason)
    else
      var checked := result.value;
      var plan := checked.recognition;
      if plan.reduction != own.reduced then Refused(OrderChanged)
      else if checked.memo.gross != own.memo || (checked.memo.gross > 0 && own.number == "") then Refused(OrderChanged)
      else if plan.catchUp > 0 && plan.catchUpEntry.None? then Refused(NoDeferredRevenue)
      else WrittenOf(setting, books, request, own, checked, first)
  }

  /** What a change records on invoices: nothing when it posts no memo. */
  function Recorded(checked: Checked, request: Request, memo: seq<Recognition.Entry>): seq<(nat, int)> {
    if memo == [] then [] else CreditsToRecord(checked.billing, request.appliesTo)
  }

  /** The books once a change is written: the term, the ledger, the rows and what the line has billed. */
  function Written(books: Books, request: Request, checked: Checked, first: nat, memo: seq<Recognition.Entry>, rows: seq<Row>): Books {
    books.(amount := request.newAmount,
           entries := books.entries + Numbered(Drafts(checked.recognition), first),
           memos := books.memos + memo,
           rows := rows,
           billed := books.billed - (if memo != [] && checked.memo.net > 0 then checked.memo.net else 0))
  }

  function WrittenOf(setting: Setting, books: Books, request: Request, own: Approved, checked: Checked, first: nat)
    : Result<Books, Refusal>
  {
    var memo := MemoEntry(setting, request, checked.memo);
    if memo.Refused? then Refused(memo.reason)
    else if !Recognition.Takes(Drafts(checked.recognition) + memo.value) then Refused(LedgerRefuses)
    else
      var lowered := LowerAll(books.rows, checked.billing.instalments);
      if lowered.Refused? then Refused(lowered.reason)
      else
        var credited := CreditAll(lowered.value, Recorded(checked, request, memo.value));
        if credited.Refused? then Refused(credited.reason)
        else if checked.schedule != own.schedule then Refused(OrderChanged)
        else Ok(Written(books, request, checked, first, memo.value, credited.value))
  }

  function NumbersOf(changes: seq<Approved>): (numbers: seq<string>)
    ensures |numbers| == |changes|
  {
    seq(|changes|, i requires 0 <= i < |changes| => changes[i].number)
  }

  /** What approval stamps on the concession before it is saved. */
  function Stamp(setting: Setting, books: Books, checked: Checked, id: nat, value: int): Approved {
    var number := if checked.memo.gross > 0
                  then CreditMemo.CreditMemoNumber(setting.order, NumbersOf(books.changes), setting.reader) else "";
    Approved(id, setting.line.id, value, Max(checked.schedule, 0), checked.memo.gross, number)
  }

  /** The concession saved as approved, which is when the order's balance takes its reduction off. */
  function Saved(books: Books, own: Approved): Books {
    books.(changes := books.changes + [own], balance := books.balance - (own.schedule + own.memo))
  }

  /** The whole approval: stamp, save, apply. A refusal anywhere leaves the books as they were. */
  function ApprovedOf(setting: Setting, books: Books, request: Request, id: nat, value: int, first: nat): Result<Books, Refusal> {
    var checked := CheckOf(setting, books, request, id);
    if checked.Refused? then Refused(checked.reason)
    else
      var own := Stamp(setting, books, checked.value, id, value);
      ApplyOf(setting, Saved(books, own), request, own, first)
  }

  // ─── The books, written step by step ──────────────────────────────────────

  class Arrangement {
    const setting: Setting
    var status: TermStatus
    var renewed: bool
    var returned: bool
    var amount: int
    var entries: seq<Recognition.Entry>
    var memos: seq<Recognition.Entry>
    var rows: seq<Row>
    var billed: int
    var changes: seq<Approved>
    var balance: int

    ghost function State(): Books
      reads this
    {
      Books(status, renewed, returned, amount, entries, memos, rows, billed, changes, balance)
    }

    constructor (setting: Setting, books: Books)
      ensures State() == books && this.setting == setting
    {
      this.setting := setting;
      status, renewed, returned := books.status, books.renewed, books.returned;
      amount, entries, memos := books.amount, books.entries, books.memos;
      rows, billed, changes, balance := books.rows, books.billed, books.changes, books.balance;
    }

    /** Check a change and plan it, writing nothing. */
    method CheckAmountChange(request: Request, self: nat) returns (result: Result<Checked, Refusal>)
      requires Billing.Distinct(AllFacts(rows))
      ensures result == CheckOf(setting, State(), request, self)
    {
      hide Recognition.PlanAmountChange, Billing.ReductionOf, TaxReduction, Guarded;
      if status.Closed? { return Refused(TermNotOpen); }
      if renewed { return Refused(RenewalPlaced); }
      if returned { return Refused(LineReturned); }
      if !request.acknowledged { return Refused(NobodyToAcknowledge); }
      var recognition := Recognition.PlanAmountChange(Recognition.Input(
        entries, request.effective, setting.termEnd, amount, request.newAmount, setting.driver, setting.periodMonths));
      if recognition.Refused? { return Refused(NotRecognized(recognition.reason)); }
      var plan := recognition.value;
      var gross := plan.reduction + TaxReduction(setting.line, plan.reduction);
      var billing := Billing.PlanReduction(Billing.Input(
        gross, AllFacts(rows), balance + OwnReduction(changes, self), request.appliesTo, request.refundRequested));
      if billing.Refused? { return Refused(NotBilled(billing.reason)); }
      result := Guard(self, plan, gross, billing.value);
    }

    method Guard(self: nat, plan: Recognition.Plan, gross: int, billing: Billing.Plan) returns (result: Result<Checked, Refusal>)
      ensures result == Guarded(setting, State(), self, plan, gross, billing)
    {
      var split := CreditMemo.SplitCreditMemo(billing.creditMemo, plan.reduction, gross);
      if split.Refused? { return Refused(MemoTooLarge); }
      var memo := split.value;
      if (billing.instalments != [] || memo.gross > 0) && setting.line.otherCharges != 0 { return Refused(OtherCharge); }
      var netAfter := setting.line.net - ReducedByOthers(changes, setting.line.id, self) - plan.reduction;
      if Magnitude(billed) - memo.net > netAfter { return Refused(StillBilled); }
      for i := 0 to |billing.instalments|
        invariant forall k :: 0 <= k < i ==> !BelowPaidOn(rows, billing.instalments[k])
      {
        var change := billing.instalments[i];
        var at := IndexOf(rows, change.id);
        if at >= 0 && change.next < rows[at].paid {
          assert change in billing.instalments && BelowPaidOn(rows, change);
          return Refused(BelowPaid);
        }
      }
      result := Ok(Checked(plan, gross, billing, Billing.Cut(billing.instalments), memo));
    }

    /** Lower or cancel each row a plan changes. On a refusal some rows may already be lowered. */
    method LowerInstalments(lowered: seq<Billing.Change>) returns (result: Result<seq<Row>, Refusal>)
      modifies this`rows
      ensures result == LowerAll(old(rows), lowered)
      ensures result.Ok? ==> rows == result.value
    {
      for k := 0 to |lowered|
        invariant LowerAll(rows, lowered[k..]) == LowerAll(old(rows), lowered)
      {
        assert lowered[k..][0] == lowered[k] && lowered[k..][1..] == lowered[k + 1..];
        var i := IndexOf(rows, lowered[k].id);
        if i < 0 || !Billing.Uninvoiced(Facts(rows[i])) { return Refused(InvoicedMeanwhile); }
        rows := rows[i := LowerRow(rows[i], lowered[k].next)];
      }
      result := Ok(rows);
    }

    /** Record what the memo credits on the invoices the customer holds. */
    method CreditInvoices(credits: seq<(nat, int)>) returns (result: Result<seq<Row>, Refusal>)
      modifies this`rows
      ensures result == CreditAll(old(rows), credits)
      ensures result.Ok? ==> rows == result.value
    {
      for k := 0 to |credits|
        invariant CreditAll(rows, credits[k..]) == CreditAll(old(rows), credits)
      {
        assert credits[k..][0] == credits[k] && credits[k..][1..] == credits[k + 1..];
        var i := IndexOf(rows, credits[k].0);
        if i < 0 { return Refused(OrderChanged); }
        var credited := rows[i].credited + credits[k].1;
        if credited > rows[i].amount { return Refused(Overcredited); }
        rows := rows[i := rows[i].(credited := credited)];
      }
      result := Ok(rows);
    }

    /** Apply an approved change in the caller's transaction; on a refusal the caller rolls back. */
    method ApplyAmountChange(request: Request, own: Approved, first: nat) returns (result: Result<Checked, Refusal>)
      requires Billing.Distinct(AllFacts(rows))
      modifies this
      ensures result.Ok? <==> ApplyOf(setting, old(State()), request, own, first).Ok?
      ensures result.Ok? ==> State() == ApplyOf(setting, old(State()), request, own, first).value
      ensures result.Refused? ==> result.reason == ApplyOf(setting, old(State()), request, own, first).reason
    {
      hide CheckOf, CreditMemo.EntryOf, LowerAll, Recognition.Takes, CreditsToRecord, Drafts, Numbered;
      result := CheckAmountChange(request, own.id);
      if result.Refused? { return; }
      var checked := result.value;
      var plan := checked.recognition;
      if plan.reduction != own.reduced { return Refused(OrderChanged); }
      if checked.memo.gross != own.memo || (checked.memo.gross > 0 && own.number == "") { return Refused(OrderChanged); }
      if plan.catchUp > 0 && plan.catchUpEntry.None? { return Refused(NoDeferredRevenue); }
      var memo: seq<Recognition.Entry> := [];
      if checked.memo.gross > 0 {
        var entry := CreditMemo.CreditMemoEntry(MemoEntryInput(setting, request, checked.memo));
        if entry.Refused? { return Refused(NoMemoEntry(entry.reason)); }
        memo := [entry.value];
      }
      if !Recognition.Takes(Drafts(plan) + memo) { return Refused(LedgerRefuses); }
      entries := entries + Numbered(Drafts(plan), first);
      memos := memos + memo;
      amount := request.newAmount;
      var lowered := LowerInstalments(checked.billing.instalments);
      if lowered.Refused? { return Refused(lowered.reason); }
      if memo != [] {
        var credited := CreditInvoices(CreditsToRecord(checked.billing, request.appliesTo));
        if credited.Refused? { return Refused(credited.reason); }
        if checked.memo.net > 0 { billed := billed - checked.memo.net; }
      }
      if checked.schedule != own.schedule { return Refused(OrderChanged); }
    }

    /** Approve a change: stamp it, save it and apply it in one transaction, all or nothing. */
    method Approve(request: Request, id: nat, value: int, first: nat) returns (result: Result<Checked, Refusal>)
      requires Billing.Distinct(AllFacts(rows))
      modifies this
      ensures result.Ok? <==> ApprovedOf(setting, old(State()), request, id, value, first).Ok?
      ensures result.Ok? ==> State() == ApprovedOf(setting, old(State()), request, id, value, first).value
      ensures result.Refused? ==> State() == old(State())
    {
      hide CheckOf, ApplyOf, Stamp;
      result := CheckAmountChange(request, id);
      if result.Refused? { return; }
      var own := Stamp(setting, Books(status, renewed, returned, amount, entries, memos, rows, billed, changes, balance),
                       result.value, id, value);
      var before := Books(status, renewed, returned, amount, entries, memos, rows, billed, changes, balance);
      changes := changes + [own];
      balance := balance - (own.schedule + own.memo);
      result := ApplyAmountChange(request, own, first);
      if result.Refused? {
        status, renewed, returned := before.status, before.renewed, before.returned;
        amount, entries, memos := before.amount, before.entries, before.memos;
        rows, billed, changes, balance := before.rows, before.billed, before.changes, before.balance;
      }
    }
  }
}
