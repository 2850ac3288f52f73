/** What planning a reduction answers, written out: which instalments change, in what order and to what amounts, what
    is credited, refunded or left open, and exactly when it refuses. */
module BillingResults {
  import opened Outcomes
  import opened Rounding
  import opened Sorting
  import opened Billing
  import opened BillingProofs

  // ─── The rows in due order ────────────────────────────────────────────────

  /** Still on the schedule and on no document. */
  predicate Open(i: Instalment) { i.status.Scheduled? && i.document == "" }

  /** `rows` are the order's open instalments, each as often as it is there, by due date and then by number. */
  ghost predicate InDue(instalments: seq<Instalment>, rows: seq<Instalment>) {
    && (forall r :: multiset(rows)[r] == if Open(r) then multiset(instalments)[r] else 0)
    && forall i, j :: 0 <= i < j < |rows| ==>
         rows[i].due < rows[j].due || (rows[i].due == rows[j].due && rows[i].number <= rows[j].number)
  }

  lemma {:induction false} OpenCount(instalments: seq<Instalment>, r: Instalment)
    ensures multiset(UninvoicedOnly(instalments))[r] == if Open(r) then multiset(instalments)[r] else 0
  {
    if instalments != [] {
      OpenCount(instalments[1..], r);
      assert instalments == [instalments[0]] + instalments[1..];
    }
  }

  lemma RowsInDue(instalments: seq<Instalment>)
    ensures InDue(instalments, InDueOrder(instalments))
  {
    SortMembers(UninvoicedOnly(instalments), DueFirst);
    SortSorted(UninvoicedOnly(instalments), DueFirst);
    forall r { OpenCount(instalments, r); }
  }

  // ─── How the rows are lowered ─────────────────────────────────────────────

  function AmountsOf(rows: seq<Instalment>): (amounts: seq<int>)
    ensures |amounts| == |rows|
  {
    seq(|rows|, i requires 0 <= i < |rows| => rows[i].amount)
  }

  /** The plan's changes take the first of the rows to `after`, one change a row, and leave the rest. */
  predicate Lowered(changes: seq<Change>, rows: seq<Instalment>, after: seq<int>) {
    && |changes| <= |rows| == |after|
    && (forall i :: 0 <= i < |changes| ==>
          && changes[i].id == rows[i].id && changes[i].number == rows[i].number && changes[i].due == rows[i].due
          && changes[i].current == rows[i].amount && changes[i].next == after[i])
    && forall i :: |changes| <= i < |rows| ==> after[i] == rows[i].amount
  }

  /** `amount` is spread over `before` in proportion: every run of them from the first gives its share to the cent,
      until they have no more to give. */
  predicate Spread(amount: int, before: seq<int>, after: seq<int>) {
    && |after| == |before|
    && if amount <= 0 then after == before
       else if amount >= Sum(before) then forall i :: 0 <= i < |after| ==> after[i] == 0
       else forall i :: 0 <= i <= |before| ==>
              IsRounded(Sum(before[..i]) - Sum(after[..i]), amount * Sum(before[..i]), Sum(before))
  }

  lemma ProRataSpreads(amount: int, before: seq<int>)
    requires NonNegative(before) && amount > 0
    ensures Spread(amount, before, ProRata(amount, before))
  {
    SpreadBounds(amount, before);
    var after := ProRata(amount, before);
    if amount < Sum(before) {
      forall i | 0 <= i <= |before|
        ensures IsRounded(Sum(before[..i]) - Sum(after[..i]), amount * Sum(before[..i]), Sum(before))
      {
        if i < |before| {
          SpreadIsFair(amount, before, i);
        } else {
          assert before[..i] == before && after[..i] == after;
          assert amount * Sum(before) == Sum(before) * amount;
        }
      }
    }
  }

  /** Landing what is left on rows that stand at `mid`. */
  lemma LandSpreads(gross: int, left: int, rows: seq<Instalment>, mid: seq<int>, visited: nat, applied: seq<Application>, refund: int)
    returns (after: seq<int>)
    requires |mid| == |rows| && visited <= |rows| && left >= 0 && NonNegative(mid)
    requires forall k :: visited <= k < |rows| ==> mid[k] == rows[k].amount
    ensures var p := Land(gross, left, rows, mid, visited, applied, refund);
            && Lowered(p.instalments, rows, after) && Spread(left, mid, after)
            && p.openCredit == Max(0, left - Sum(mid))
            && p.creditMemo == gross - (Sum(AmountsOf(rows)) - Sum(after))
            && p.applied == applied && p.refund == refund
            && |p.instalments| == if left > 0 then |rows| else visited
  {
    SumNonNegative(mid);
    LandCut(gross, left, rows, mid, visited, applied, refund);
    assert Amounts(rows) == AmountsOf(rows);
    if left > 0 {
      after := ProRata(left, mid);
      ProRataSpreads(left, mid);
      SpreadBounds(left, mid);
    } else {
      after := mid;
    }
  }

  /** A change is started for each row looked at: all of them when something is spread, and otherwise just as many as it
      takes to come to what is taken in due order. */
  predicate Started(changes: seq<Change>, amounts: seq<int>, taken: int, rest: int) {
    && |changes| <= |amounts|
    && (rest > 0 ==> |changes| == |amounts|)
    && (rest <= 0 ==> (forall i :: 0 <= i < |changes| ==> Sum(amounts[..i]) < taken)
                      && (|changes| < |amounts| ==> Sum(amounts[..|changes|]) >= taken))
  }

  lemma {:induction false} VisitedIs(owed: int, amounts: seq<int>, i: nat)
    requires NonNegative(amounts) && owed >= 0 && i <= |amounts|
    ensures var n := VisitedFrom(owed, amounts, i);
            && (forall k :: i <= k < n ==> Sum(amounts[..k]) < owed)
            && (n < |amounts| ==> Sum(amounts[..n]) >= owed)
    decreases |amounts| - i
  {
    LeftIs(owed, amounts, i);
    if i < |amounts| && LeftAt(owed, amounts, i) > 0 { VisitedIs(owed, amounts, i + 1); }
  }

  // ─── The plan ─────────────────────────────────────────────────────────────

  /** The `n`th instalment is the one an id names. */
  predicate IsNamed(instalments: seq<Instalment>, n: nat, id: nat) {
    n < |instalments| && instalments[n].id == id && forall k :: 0 <= k < n ==> instalments[k].id != id
  }

  lemma {:induction false} FindNamed(instalments: seq<Instalment>, id: nat) returns (n: nat)
    ensures Find(instalments, id).None? ==> forall i :: i in instalments ==> i.id != id
    ensures Find(instalments, id).Some? ==> IsNamed(instalments, n, id) && Find(instalments, id).value == instalments[n]
  {
    n := 0;
    if instalments != [] && instalments[0].id != id {
      n := FindNamed(instalments[1..], id);
      if Find(instalments, id).Some? {
        assert forall k :: 0 < k <= n ==> instalments[k] == instalments[1..][k - 1];
        n := n + 1;
      }
    }
  }

  /** An invoice the customer holds. */
  predicate Billed(i: Instalment) { i.document != "" && (i.status.Invoiced? || i.status.Paid?) }

  /** What a plan does besides lowering rows: `rest` is what is spread over them, standing at `mid` by then. */
  ghost predicate Settles(input: Input, p: Plan, amounts: seq<int>, mid: seq<int>, rest: int, invoice: Instalment) {
    var credit, owed := Min(input.gross, invoice.balance), Min(input.gross, invoice.amount);
    if input.appliesTo.None? then
      p.applied == [] && p.refund == 0 && mid == amounts && rest == input.gross
    else if invoice.balance > 0 then
      && p.applied == [Application(Some(invoice.id), invoice.document, credit)] && p.refund == 0
      && mid == amounts && rest == input.gross - credit
    else if input.refundRequested then
      p.applied == [] && p.refund == owed && mid == amounts && rest == input.gross - owed
    else
      && p.applied == [] && p.refund == 0
      && OldestFirst(owed, amounts, mid) && rest == input.gross - Min(owed, Sum(amounts))
  }

  /** What is taken off the rows in due order before anything is spread. */
  function TakenFirst(input: Input, invoice: Instalment): int {
    if input.appliesTo.None? || invoice.balance > 0 || input.refundRequested then 0 else Min(input.gross, invoice.amount)
  }

  /** The plan for an order billed by instalments: the open ones in due order; what a paid invoice no one wants refunded
      would have credited comes off them oldest first; and all the rest is spread over what they then still bill. */
  lemma ReductionIs(input: Input) returns (rows: seq<Instalment>, mid: seq<int>, after: seq<int>, rest: int, n: nat)
    requires ReductionOf(input).Ok? && input.instalments != [] && NonNegativeAmounts(input.instalments)
    ensures InDue(input.instalments, rows) && |mid| == |rows|
    ensures input.appliesTo.Some? ==> IsNamed(input.instalments, n, input.appliesTo.value) && Billed(input.instalments[n])
    ensures n < |input.instalments|
    ensures var p := ReductionOf(input).value;
            && Settles(input, p, AmountsOf(rows), mid, rest, input.instalments[n])
            && Spread(rest, mid, after) && Lowered(p.instalments, rows, after)
            && Started(p.instalments, AmountsOf(rows), TakenFirst(input, input.instalments[n]), rest)
            && p.openCredit == Max(0, rest - Sum(mid))
            && p.creditMemo == input.gross - (Sum(AmountsOf(rows)) - Sum(after))
  {
    hide Land, InDueOrder;
    rows := InDueOrder(input.instalments);
    RowsInDue(input.instalments);
    DueRows(input.instalments);
    var amounts := Amounts(rows);
    assert amounts == AmountsOf(rows);
    mid, rest, n := amounts, input.gross, 0;
    if input.appliesTo.None? {
      after := LandSpreads(input.gross, rest, rows, mid, 0, [], 0);
    } else {
      n := FindNamed(input.instalments, input.appliesTo.value);
      assert input.instalments[n] in input.instalments;
      mid, after, rest := InvoiceIs(input, rows, input.instalments[n]);
    }
  }

  lemma InvoiceIs(input: Input, rows: seq<Instalment>, invoice: Instalment) returns (mid: seq<int>, after: seq<int>, rest: int)
    requires input.gross > 0 && input.appliesTo.Some? && NonNegative(Amounts(rows)) && invoice.amount >= 0
    requires OnInvoice(input, rows, Amounts(rows), invoice).Ok?
    ensures |mid| == |rows|
    ensures var p := OnInvoice(input, rows, Amounts(rows), invoice).value;
            && Settles(input, p, AmountsOf(rows), mid, rest, invoice)
            && Spread(rest, mid, after) && Lowered(p.instalments, rows, after)
            && Started(p.instalments, AmountsOf(rows), TakenFirst(input, invoice), rest)
            && p.openCredit == Max(0, rest - Sum(mid))
            && p.creditMemo == input.gross - (Sum(AmountsOf(rows)) - Sum(after))
  {
    hide Land, Spread, OldestFirst;
    assert Sum(Amounts(rows)[..0]) == 0;
    var gross, amounts := input.gross, Amounts(rows);
    assert amounts == AmountsOf(rows);
    var owed, credit := Min(gross, invoice.amount), Min(gross, invoice.balance);
    mid := amounts;
    if invoice.balance > 0 {
      rest := gross - credit;
      after := LandSpreads(gross, rest, rows, mid, 0, [Application(Some(invoice.id), invoice.document, credit)], 0);
    } else if input.refundRequested {
      rest := gross - owed;
      after := LandSpreads(gross, rest, rows, mid, 0, [], owed);
    } else {
      mid, after, rest := PaidIs(gross, owed, rows);
    }
  }

  /** What a paid invoice would have been credited comes off the rows in due order, and then the rest is spread. */
  lemma PaidIs(gross: int, owed: int, rows: seq<Instalment>) returns (mid: seq<int>, after: seq<int>, rest: int)
    requires 0 <= owed <= gross && NonNegative(Amounts(rows))
    ensures |mid| == |rows| && OldestFirst(owed, AmountsOf(rows), mid) && rest == gross - Min(owed, Sum(AmountsOf(rows)))
    ensures var amounts := Amounts(rows);
            var p := Land(gross, gross - owed + LeftAt(owed, amounts, |amounts|), rows, InOrder(owed, amounts), Visited(owed, amounts), [], 0);
            && Lowered(p.instalments, rows, after) && Spread(rest, mid, after)
            && p.openCredit == Max(0, rest - Sum(mid)) && p.creditMemo == gross - (Sum(AmountsOf(rows)) - Sum(after))
            && p.applied == [] && p.refund == 0 && Started(p.instalments, AmountsOf(rows), owed, rest)
  {
    var amounts := Amounts(rows);
    assert amounts == AmountsOf(rows);
    mid := InOrder(owed, amounts);
    TakenTotal(owed, amounts);
    InOrderMeaning(owed, amounts, mid);
    VisitedAll(owed, amounts, 0);
    VisitedIs(owed, amounts, 0);
    SumNonNegative(amounts);
    rest := gross - owed + LeftAt(owed, amounts, |amounts|);
    hide Land, Spread, Lowered, InOrder, LeftAt, Visited;
    after := LandSpreads(gross, rest, rows, mid, Visited(owed, amounts), [], 0);
  }

  /** The plan for an order billed as a whole. */
  lemma WholeReductionIs(input: Input)
    requires ReductionOf(input).Ok? && input.instalments == []
    ensures var p, onOrder := ReductionOf(input).value, Min(input.gross, Max(0, input.orderBalance));
            && p.instalments == [] && p.creditMemo == input.gross
            && p.applied == (if onOrder > 0 then [Application(None, "", onOrder)] else [])
            && (if input.refundRequested then p.refund == input.gross - onOrder && p.openCredit == 0
                else p.refund == 0 && p.openCredit == input.gross - onOrder)
  {
  }

  // ─── The refusals ─────────────────────────────────────────────────────────

  predicate ByInstalments(input: Input) { input.gross > 0 && input.instalments != [] }

  /** Each refusal exactly when its own reason holds and none before it does. */
  lemma RefusedExactlyWhen(input: Input)
    ensures ReductionOf(input) == Refused(NothingToReduce) <==> input.gross <= 0
    ensures ReductionOf(input) == Refused(OrderIsTheInvoice) <==> input.gross > 0 && input.instalments == [] && input.appliesTo.Some?
    ensures ReductionOf(input) == Refused(RefundNeedsInvoice) <==> ByInstalments(input) && input.appliesTo.None? && input.refundRequested
    ensures ReductionOf(input) == Refused(NotOnOrder)
       <==> ByInstalments(input) && input.appliesTo.Some? && forall i :: i in input.instalments ==> i.id != input.appliesTo.value
    ensures ReductionOf(input) == Refused(NotInvoiced)
       <==> ByInstalments(input) && input.appliesTo.Some?
            && exists n: nat :: IsNamed(input.instalments, n, input.appliesTo.value) && !Billed(input.instalments[n])
    ensures ReductionOf(input) == Refused(StillOpen)
       <==> ByInstalments(input) && input.appliesTo.Some? && input.refundRequested
            && exists n: nat :: IsNamed(input.instalments, n, input.appliesTo.value) && Billed(input.instalments[n]) && input.instalments[n].balance > 0
  {
    hide Land, InDueOrder;
    if input.appliesTo.Some? {
      var n := FindNamed(input.instalments, input.appliesTo.value);
      if Find(input.instalments, input.appliesTo.value).Some? {
        forall m: nat | IsNamed(input.instalments, m, input.appliesTo.value) ensures m == n {}
      }
    }
  }
}
