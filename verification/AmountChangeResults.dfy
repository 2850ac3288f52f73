/** What checking and approving an amount change answers, written out: the tax it takes back, what it reads, which
    check refuses it, what becomes of each row, and what is stored. */
module AmountChangeResults {
  import opened Outcomes
  import opened Rounding
  import opened Decimals
  import opened AmountChange
  import opened AmountChangeProofs
  import Recognition
  import Billing
  import BillingProofs
  import CreditMemo
  import CreditMemoResults

  // ─── The tax taken back ───────────────────────────────────────────────────

  /** The tax charges of a line: those recorded, or its tax as one of them. */
  function ChargesOf(line: OrderLine): seq<int> {
    if line.taxCharges != [] then line.taxCharges else if line.tax != 0 then [line.tax] else []
  }

  lemma {:induction false} SharesAre(charges: seq<int>, part: int, net: int) returns (taxes: seq<int>)
    requires net > 0
    ensures |taxes| == |charges| && Shares(charges, part, net) == Sum(taxes)
    ensures forall i :: 0 <= i < |charges| ==> IsRounded(taxes[i], charges[i] * part, net)
  {
    taxes := [];
    if charges != [] {
      var rest := SharesAre(charges[1..], part, net);
      taxes := [RoundDiv(charges[0] * part, net)] + rest;
      assert taxes[1..] == rest;
    }
  }

  /** A reduction takes back of every tax charge its own share, each to the cent, as if it were no more than the line's
      net; of a line that comes to nothing it takes back none. */
  lemma TaxIs(line: OrderLine, reduction: int) returns (taxes: seq<int>)
    ensures line.net <= 0 ==> TaxReduction(line, reduction) == 0
    ensures line.net > 0 ==> |taxes| == |ChargesOf(line)| && TaxReduction(line, reduction) == Sum(taxes)
    ensures line.net > 0 ==>
              forall i :: 0 <= i < |taxes| ==> IsRounded(taxes[i], ChargesOf(line)[i] * Min(line.net, reduction), line.net)
  {
    taxes := [];
    if line.net > 0 { taxes := SharesAre(ChargesOf(line), Min(line.net, reduction), line.net); }
  }

  // ─── The check ────────────────────────────────────────────────────────────

  /** Nothing about the term, its line or its owner stands in the way. */
  predicate MayChange(books: Books, request: Request) {
    !books.status.Closed? && !books.renewed && !books.returned && request.acknowledged
  }

  function ReadTerm(setting: Setting, books: Books, request: Request): Recognition.Input {
    Recognition.Input(books.entries, request.effective, setting.termEnd, books.amount, request.newAmount, setting.driver, setting.periodMonths)
  }

  /** The rows as the plan reads them: what is open is what they bill less what was credited and paid. */
  function ReadRows(rows: seq<Row>): (facts: seq<Billing.Instalment>)
    ensures |facts| == |rows|
  {
    seq(|rows|, i requires 0 <= i < |rows| =>
      Billing.Instalment(rows[i].id, rows[i].number, rows[i].due, rows[i].amount, rows[i].amount - rows[i].credited - rows[i].paid,
                         rows[i].status, rows[i].document))
  }

  /** The change is planned: how it is recognised, how much it takes with its tax, and where that lands. */
  ghost predicate Planned(setting: Setting, books: Books, request: Request, self: nat, plan: Recognition.Plan, gross: int, billing: Billing.Plan) {
    && MayChange(books, request)
    && Recognition.PlanAmountChange(ReadTerm(setting, books, request)) == Ok(plan)
    && gross == plan.reduction + TaxReduction(setting.line, plan.reduction)
    && Billing.ReductionOf(Billing.Input(gross, ReadRows(books.rows), books.balance + OwnReduction(books.changes, self),
                                         request.appliesTo, request.refundRequested)) == Ok(billing)
  }

  /** The refusals before anything is planned, and those of the two planners. */
  lemma EarlyRefusals(setting: Setting, books: Books, request: Request, self: nat, r: Recognition.Refusal, b: Billing.Reason)
    ensures var result := CheckOf(setting, books, request, self);
            && (result == Refused(TermNotOpen) <==> books.status.Closed?)
            && (result == Refused(RenewalPlaced) <==> !books.status.Closed? && books.renewed)
            && (result == Refused(LineReturned) <==> !books.status.Closed? && !books.renewed && books.returned)
            && (result == Refused(NobodyToAcknowledge)
                <==> !books.status.Closed? && !books.renewed && !books.returned && !request.acknowledged)
            && (result == Refused(NotRecognized(r))
                <==> MayChange(books, request) && Recognition.PlanAmountChange(ReadTerm(setting, books, request)) == Refused(r))
    ensures CheckOf(setting, books, request, self) == Refused(NotBilled(b))
       <==> && MayChange(books, request) && Recognition.PlanAmountChange(ReadTerm(setting, books, request)).Ok?
            && var reduction := Recognition.PlanAmountChange(ReadTerm(setting, books, request)).value.reduction;
               Billing.ReductionOf(Billing.Input(reduction + TaxReduction(setting.line, reduction), ReadRows(books.rows),
                                                 books.balance + OwnReduction(books.changes, self), request.appliesTo,
                                                 request.refundRequested)) == Refused(b)
  {
    hide Recognition.PlanAmountChange, Billing.ReductionOf, TaxReduction, OwnReduction;
    assert AllFacts(books.rows) == ReadRows(books.rows);
    GuardsAre(setting, books, self);
  }

  /** The guards answer with their own refusals only. */
  lemma GuardsAre(setting: Setting, books: Books, self: nat)
    ensures forall plan, gross, billing ::
              var result := Guarded(setting, books, self, plan, gross, billing);
              result.Refused? ==> result.reason.MemoTooLarge? || result.reason.OtherCharge? || result.reason.StillBilled? || result.reason.BelowPaid?
  {
  }

  /** Once it is planned: a memo of more than the change takes is refused before all else. */
  lemma MemoRefusal(setting: Setting, books: Books, request: Request, self: nat, plan: Recognition.Plan, gross: int, billing: Billing.Plan)
    requires Planned(setting, books, request, self, plan, gross, billing)
    ensures CheckOf(setting, books, request, self) == Refused(MemoTooLarge) <==> billing.creditMemo > gross
    ensures billing.creditMemo > gross <==> CreditMemo.SplitCreditMemo(billing.creditMemo, plan.reduction, gross).Refused?
  {
    hide Recognition.PlanAmountChange, TaxReduction, OwnReduction, ReducedByOthers, LowersBelowPaid, CreditMemo.SplitCreditMemo, Billing.Land,
      Billing.InDueOrder;
    assert AllFacts(books.rows) == ReadRows(books.rows);
    CreditMemoResults.SplitIs(billing.creditMemo, plan.reduction, gross);
  }

  /** A row would go below what is paid on it. */
  predicate GoesBelowPaid(rows: seq<Row>, changes: seq<Billing.Change>) {
    exists c, i :: c in changes && 0 <= i < |rows| && rows[i].id == c.id && c.next < rows[i].paid
  }

  lemma BelowPaidIs(rows: seq<Row>, changes: seq<Billing.Change>)
    requires RowsSound(rows)
    ensures LowersBelowPaid(rows, changes) <==> GoesBelowPaid(rows, changes)
  {
    if c, i :| c in changes && 0 <= i < |rows| && rows[i].id == c.id && c.next < rows[i].paid {
      IndexIs(rows, i);
      assert BelowPaidOn(rows, c);
    }
    if LowersBelowPaid(rows, changes) {
      var c :| c in changes && BelowPaidOn(rows, c);
      assert rows[IndexOf(rows, c.id)].id == c.id;
    }
  }

  /** Once it is planned: a charge other than tax refuses anything taken off the line; then a line billed past what it
      comes to; then a row below what is paid on it; and a change none of them refuses is returned as planned. */
  lemma GuardRefusals(setting: Setting, books: Books, request: Request, self: nat, plan: Recognition.Plan, gross: int, billing: Billing.Plan)
    requires Planned(setting, books, request, self, plan, gross, billing) && RowsSound(books.rows)
    requires CreditMemo.SplitCreditMemo(billing.creditMemo, plan.reduction, gross).Ok?
    ensures var memo := CreditMemo.SplitCreditMemo(billing.creditMemo, plan.reduction, gross).value;
            var result := CheckOf(setting, books, request, self);
            var charged := (billing.instalments != [] || memo.gross > 0) && setting.line.otherCharges != 0;
            var billed := if books.billed < 0 then -books.billed else books.billed;
            var past := billed - memo.net > setting.line.net - ReducedByOthers(books.changes, setting.line.id, self) - plan.reduction;
            && (result == Refused(OtherCharge) <==> charged)
            && (result == Refused(StillBilled) <==> !charged && past)
            && (result == Refused(BelowPaid) <==> !charged && !past && GoesBelowPaid(books.rows, billing.instalments))
            && (result.Ok? <==> !charged && !past && !GoesBelowPaid(books.rows, billing.instalments))
            && (result.Ok? ==> result.value == Checked(plan, gross, billing, Billing.Cut(billing.instalments), memo))
  {
    hide Recognition.PlanAmountChange, Billing.ReductionOf, TaxReduction, OwnReduction, ReducedByOthers, LowersBelowPaid, RowsSound;
    assert AllFacts(books.rows) == ReadRows(books.rows);
    BelowPaidIs(books.rows, billing.instalments);
  }

  // ─── The rows ─────────────────────────────────────────────────────────────

  /** A row with the changes made to it: its new amount, or cancelled at nothing; untouched without one. */
  predicate RowLowered(before: Row, after: Row, changes: seq<Billing.Change>) {
    && (forall c :: c in changes && c.id == before.id ==>
          if c.next > 0 then after == before.(amount := c.next) else after == before.(status := Billing.Canceled))
    && ((forall c :: c in changes ==> c.id != before.id) ==> after == before)
  }

  lemma {:induction false} LowersEach(rows: seq<Row>, changes: seq<Billing.Change>, k: nat)
    requires RowsSound(rows) && AllApply(rows, changes) && k < |rows|
    ensures LowerAll(rows, changes).Ok? && k < |LowerAll(rows, changes).value|
    ensures RowLowered(rows[k], LowerAll(rows, changes).value[k], changes)
    decreases changes
  {
    if changes != [] {
      var first, rest := changes[0], changes[1..];
      var i := IndexOf(rows, first.id);
      LowerOne(rows, i, first);
      StillApplies(rows, i, changes);
      var next := rows[i := LowerRow(rows[i], first.next)];
      LowersEach(next, rest, k);
      assert first in changes && (forall c :: c in changes <==> c == first || c in rest);
      if k == i {
        forall c | c in rest ensures c.id != first.id {
          var m :| 0 <= m < |rest| && rest[m] == c;
          assert changes[m + 1] == c;
        }
      } else {
        assert rows[k].id != first.id;
      }
    }
  }

  function CreditedTo(credits: seq<(nat, int)>, id: nat): int {
    if credits == [] then 0 else (if credits[0].0 == id then credits[0].1 else 0) + CreditedTo(credits[1..], id)
  }

  function AppliedTo(applied: seq<Billing.Application>, id: nat): int {
    if applied == [] then 0 else (if applied[0].instalment == Some(id) then applied[0].amount else 0) + AppliedTo(applied[1..], id)
  }

  /** Each invoice once. */
  predicate OncePer(credits: seq<(nat, int)>) { forall i, j :: 0 <= i < j < |credits| ==> credits[i].0 != credits[j].0 }

  lemma {:induction false} AddCreditIs(credits: seq<(nat, int)>, id: nat, amount: int, other: nat)
    requires OncePer(credits)
    ensures var after := AddCredit(credits, id, amount);
            && CreditedTo(after, other) == CreditedTo(credits, other) + (if other == id then amount else 0)
            && OncePer(after) && forall c :: c in after ==> c.0 == id || exists b :: b in credits && b.0 == c.0
  {
    if credits != [] {
      if credits[0].0 == id {
        assert AddCredit(credits, id, amount)[1..] == credits[1..];
      } else {
        AddCreditIs(credits[1..], id, amount, other);
        var rest := AddCredit(credits[1..], id, amount);
        assert AddCredit(credits, id, amount)[1..] == rest;
        forall c | c in rest ensures c.0 == id || (exists b :: b in credits[1..] && b.0 == c.0) {}
        assert credits[0] in credits;
      }
    }
  }

  lemma {:induction false} AppliedIs(credits: seq<(nat, int)>, applied: seq<Billing.Application>, id: nat)
    requires OncePer(credits)
    ensures CreditedTo(AppliedCredits(credits, applied), id) == CreditedTo(credits, id) + AppliedTo(applied, id)
    ensures OncePer(AppliedCredits(credits, applied))
    decreases applied
  {
    if applied != [] {
      if applied[0].instalment.None? {
        AppliedIs(credits, applied[1..], id);
      } else {
        AddCreditIs(credits, applied[0].instalment.value, applied[0].amount, id);
        AppliedIs(AddCredit(credits, applied[0].instalment.value, applied[0].amount), applied[1..], id);
      }
    }
  }

  /** What is recorded on an invoice: all that is applied to it, and on the one named what is refunded; each once. */
  lemma RecordedIs(billing: Billing.Plan, appliesTo: Option<nat>, id: nat)
    ensures CreditedTo(CreditsToRecord(billing, appliesTo), id)
         == AppliedTo(billing.applied, id) + (if appliesTo == Some(id) then Max(billing.refund, 0) else 0)
    ensures OncePer(CreditsToRecord(billing, appliesTo))
  {
    AppliedIs([], billing.applied, id);
    if billing.refund > 0 && appliesTo.Some? {
      AddCreditIs(AppliedCredits([], billing.applied), appliesTo.value, billing.refund, id);
    }
  }

  /** What a plan credits on a row: all it applies or refunds, when the request named it. */
  function CreditOn(billing: Billing.Plan, appliesTo: Option<nat>, id: nat): int {
    if appliesTo == Some(id) then BillingProofs.AppliedSum(billing.applied) + billing.refund else 0
  }

  /** `after` is `before` with a plan carried out on it. */
  ghost predicate RowBecomes(before: Row, after: Row, billing: Billing.Plan, appliesTo: Option<nat>) {
    exists lowered: Row :: RowLowered(before, lowered, billing.instalments)
      && after == lowered.(credited := lowered.credited + CreditOn(billing, appliesTo, before.id))
  }

  lemma CreditsEach(lowered: seq<Row>, billing: Billing.Plan, appliesTo: Option<nat>, k: nat)
    requires RowsSound(lowered) && CreditsNamed(lowered, billing, appliesTo) && k < |lowered|
    requires CreditAll(lowered, CreditsToRecord(billing, appliesTo)).Ok?
    ensures var after := CreditAll(lowered, CreditsToRecord(billing, appliesTo)).value;
            k < |after| && after[k] == lowered[k].(credited := lowered[k].credited + CreditOn(billing, appliesTo, lowered[k].id))
  {
    hide CreditsToRecord;
    var credits := CreditsToRecord(billing, appliesTo);
    CreditsOf(lowered, billing, appliesTo);
    if credits != [] {
      assert credits == [(credits[0].0, credits[0].1)];
      CreditOne(lowered, credits[0].0, credits[0].1);
      IndexIs(lowered, k);
    }
  }

  lemma SameNamed(before: seq<Row>, lowered: seq<Row>, billing: Billing.Plan, appliesTo: Option<nat>)
    requires RowsSound(before) && RowsSound(lowered) && SameInvoices(before, lowered) && CreditsNamed(before, billing, appliesTo)
    ensures CreditsNamed(lowered, billing, appliesTo)
  {
    hide CreditsToRecord;
    var credits := CreditsToRecord(billing, appliesTo);
    if credits != [] {
      var i := IndexOf(before, credits[0].0);
      IndexIs(lowered, i);
    }
  }

  /** What a passed check lowers and credits. */
  lemma ReadyRows(setting: Setting, books: Books, request: Request, id: nat)
    requires Sound(setting, books) && CheckOf(setting, books, request, id).Ok? && books.rows != []
    ensures var checked := CheckOf(setting, books, request, id).value;
            var lowered := LowerAll(books.rows, checked.billing.instalments);
            && CreditMemo.Parts(checked.memo) && AllApply(books.rows, checked.billing.instalments)
            && lowered.Ok? && |lowered.value| == |books.rows| && RowsSound(lowered.value)
            && CreditsNamed(lowered.value, checked.billing, request.appliesTo)
            && (checked.memo.gross <= 0 ==> CreditsToRecord(checked.billing, request.appliesTo) == [])
  {
    hide CheckOf, LowerAll, CreditAll, CreditsToRecord, Billing.ReductionOf, CreditMemo.SplitCreditMemo, CreditsNamed, AllApply,
      Recognition.PlanAmountChange, TaxReduction, Guarded;
    var checked := CheckOf(setting, books, request, id).value;
    CheckMeasured(setting, books, request, id);
    CheckParts(setting, books, request, id);
    LoweredStep(setting, books, request, id);
    CheckApplies(setting, books, request, id);
    var input := BillingInput(books, request, checked.gross, id);
    FactsSound(books.rows);
    CutBounds(input);
    CreditStep(books.rows, input);
    SameNamed(books.rows, LowerAll(books.rows, checked.billing.instalments).value, checked.billing, request.appliesTo);
    if checked.memo.gross <= 0 { NoMemoNoCredit(input); }
  }

  /** What an approval makes of every row of an order billed by instalments: the plan's own change of it, and the
      memo's credit on the one the request named. */
  lemma RowsBecome(setting: Setting, books: Books, request: Request, id: nat, value: int, first: nat, k: nat)
    requires Sound(setting, books) && Fresh(books.changes, id) && CreditMemo.ReadsDecimals(setting.reader)
    requires ApprovedOf(setting, books, request, id, value, first).Ok? && k < |books.rows|
    ensures CheckOf(setting, books, request, id).Ok?
    ensures var after := ApprovedOf(setting, books, request, id, value, first).value.rows;
            k < |after| && RowBecomes(books.rows[k], after[k], CheckOf(setting, books, request, id).value.billing, request.appliesTo)
  {
    hide CheckOf, WrittenOf, ApprovedOf, LowerAll, CreditAll, CreditsToRecord, CreditsNamed, AllApply, RowLowered, Stamp, RowsSound,
      OrderSound, TermSound, CreditOn;
    ApprovedIs(setting, books, request, id, value, first);
    var checked := CheckOf(setting, books, request, id).value;
    var own := Stamp(setting, books, checked, id, value);
    ReadyRows(setting, books, request, id);
    WrittenRowsAre(setting, Saved(books, own), request, own, checked, first);
    var lowered := LowerAll(books.rows, checked.billing.instalments).value;
    SoundRows(setting, books);
    LowersEach(books.rows, checked.billing.instalments, k);
    CreditsEach(lowered, checked.billing, request.appliesTo, k);
    RowIdKept(books.rows[k], lowered[k], checked.billing.instalments);
  }

  lemma SoundRows(setting: Setting, books: Books)
    requires Sound(setting, books)
    ensures RowsSound(books.rows)
  {
  }

  lemma RowIdKept(before: Row, after: Row, changes: seq<Billing.Change>)
    requires RowLowered(before, after, changes)
    ensures after.id == before.id
  {
    if c :| c in changes && c.id == before.id {}
  }

  lemma WrittenRowsAre(setting: Setting, books: Books, request: Request, own: Approved, checked: Checked, first: nat)
    requires CreditMemo.Parts(checked.memo) && WrittenOf(setting, books, request, own, checked, first).Ok?
    requires checked.memo.gross <= 0 ==> CreditsToRecord(checked.billing, request.appliesTo) == []
    ensures LowerAll(books.rows, checked.billing.instalments).Ok?
    ensures CreditAll(LowerAll(books.rows, checked.billing.instalments).value, CreditsToRecord(checked.billing, request.appliesTo))
         == Ok(WrittenOf(setting, books, request, own, checked, first).value.rows)
  {
    hide LowerAll, CreditAll, MemoEntry, CreditsToRecord, Drafts, Numbered, Recognition.Takes;
    MemoEntryWhen(setting, request, checked.memo);
  }

  // ─── What is stored ───────────────────────────────────────────────────────

  /** The concession as approved: what was reduced, its two parts, and for a memo the order's next number. */
  lemma StampIs(setting: Setting, books: Books, checked: Checked, id: nat, value: int) returns (top: nat)
    ensures var own := Stamp(setting, books, checked, id, value);
            && own.id == id && own.line == setting.line.id && own.reduced == value
            && own.schedule == Max(checked.schedule, 0) && own.memo == checked.memo.gross
            && own.number == (if checked.memo.gross > 0 then setting.order + "-CM" + Print(top + 1) else "")
    ensures forall c, n: nat :: c in books.changes && CreditMemoResults.Uses(c.number, setting.order, setting.reader, n) ==> n <= top
    ensures top > 0 ==> exists c :: c in books.changes && CreditMemoResults.Uses(c.number, setting.order, setting.reader, top)
  {
    var numbers := NumbersOf(books.changes);
    top := CreditMemoResults.NumberIs(setting.order, numbers, setting.reader);
    forall c, n: nat | c in books.changes && CreditMemoResults.Uses(c.number, setting.order, setting.reader, n) ensures n <= top {
      var i :| 0 <= i < |books.changes| && books.changes[i] == c;
      assert numbers[i] == c.number;
    }
    if top > 0 {
      var s :| s in numbers && CreditMemoResults.Uses(s, setting.order, setting.reader, top);
      var i :| 0 <= i < |numbers| && numbers[i] == s;
      assert books.changes[i] in books.changes;
    }
  }
}
