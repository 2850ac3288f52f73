/** Where a reduction lands: no cent is lost, nothing is credited past what is owed, and only what the
    uninvoiced instalments cannot take reaches a credit memo. */
module BillingProofs {
  import opened Outcomes
  import opened Rounding
  import opened Sorting
  import opened Billing

  predicate NonNegative(s: seq<int>) { forall i :: 0 <= i < |s| ==> s[i] >= 0 }

  /** `after` takes `amount` off `before` in order: each is used up before the next is touched. */
  ghost predicate OldestFirst(amount: int, before: seq<int>, after: seq<int>) {
    && |after| == |before|
    && (forall i :: 0 <= i < |after| ==> 0 <= after[i] <= before[i])
    && (forall i, j :: 0 <= i < j < |after| && after[j] < before[j] ==> after[i] == 0)
    && Sum(before) - Sum(after) == Min(amount, Sum(before))
  }

  lemma {:induction false} LeftIs(amount: int, amounts: seq<int>, i: nat)
    requires i <= |amounts| && NonNegative(amounts) && amount >= 0
    ensures LeftAt(amount, amounts, i) == Max(0, amount - Sum(amounts[..i]))
  {
    if i > 0 {
      LeftIs(amount, amounts, i - 1);
      SumPrefix(amounts, i - 1);
    }
  }

  lemma {:induction false} InOrderSum(amount: int, amounts: seq<int>, i: nat)
    requires i <= |amounts|
    ensures Sum(InOrder(amount, amounts)[..i]) == Sum(amounts[..i]) - (amount - LeftAt(amount, amounts, i))
  {
    if i > 0 {
      InOrderSum(amount, amounts, i - 1);
      SumPrefix(amounts, i - 1);
      SumPrefix(InOrder(amount, amounts), i - 1);
    }
  }

  lemma TakenWithin(amount: int, before: seq<int>, i: nat)
    requires NonNegative(before) && amount >= 0 && i < |before|
    ensures 0 <= InOrder(amount, before)[i] <= before[i]
    ensures LeftAt(amount, before, i + 1) > 0 ==> InOrder(amount, before)[i] == 0
  {
    LeftIs(amount, before, i);
  }

  lemma TakenInTurn(amount: int, before: seq<int>, i: nat, j: nat)
    requires i < j < |before| && LeftAt(amount, before, i + 1) <= 0
    ensures InOrder(amount, before)[j] == before[j]
  {
    NothingLeft(amount, before, i + 1, j);
    NothingLeft(amount, before, i + 1, j + 1);
  }

  lemma TakenTotal(amount: int, before: seq<int>)
    requires NonNegative(before) && amount >= 0
    ensures Sum(before) - Sum(InOrder(amount, before)) == Min(amount, Sum(before))
    ensures LeftAt(amount, before, |before|) == amount - Min(amount, Sum(before))
  {
    InOrderSum(amount, before, |before|);
    LeftIs(amount, before, |before|);
    assert InOrder(amount, before)[..|before|] == InOrder(amount, before) && before[..|before|] == before;
  }

  /** Taking in due order is the one way to take an amount that uses each row up before touching the next. */
  lemma InOrderMeaning(amount: int, before: seq<int>, after: seq<int>)
    requires NonNegative(before) && amount >= 0
    ensures after == InOrder(amount, before) <==> OldestFirst(amount, before, after)
  {
    var taken := InOrder(amount, before);
    TakenTotal(amount, before);
    forall i | 0 <= i < |before| ensures 0 <= taken[i] <= before[i] { TakenWithin(amount, before, i); }
    forall i, j | 0 <= i < j < |before| && taken[j] < before[j] ensures taken[i] == 0 {
      if LeftAt(amount, before, i + 1) <= 0 { TakenInTurn(amount, before, i, j); }
      TakenWithin(amount, before, i);
    }
    if OldestFirst(amount, before, after) { OldestFirstUnique(amount, before, taken, after); }
  }

  lemma OldestFirstUnique(amount: int, before: seq<int>, a: seq<int>, b: seq<int>)
    requires OldestFirst(amount, before, a) && OldestFirst(amount, before, b)
    ensures a == b
  {
    forall i | 0 <= i < |a| ensures a[i] == b[i] {
      if a[i] < b[i] { LowerSomewhere(before, a, b, i); }
      if b[i] < a[i] { LowerSomewhere(before, b, a, i); }
    }
  }

  lemma LowerSomewhere(before: seq<int>, a: seq<int>, b: seq<int>, i: nat)
    requires |before| == |a| == |b| && i < |a| && a[i] < b[i]
    requires forall k :: 0 <= k < |a| ==> 0 <= a[k] <= before[k] && 0 <= b[k] <= before[k]
    requires forall j, k :: 0 <= j < k < |a| && a[k] < before[k] ==> a[j] == 0
    requires forall j, k :: 0 <= j < k < |b| && b[k] < before[k] ==> b[j] == 0
    ensures Sum(a) < Sum(b)
  {
    forall k | 0 <= k < |a| ensures a[k] <= b[k] {
      if k < i { assert a[i] < before[i] && a[k] == 0; }
      assert k > i ==> b[k] == before[k];
    }
    SumMonotone(a[i := b[i]], b);
    SumUpdate(a, i, b[i]);
  }

  // ─── Pro rata ─────────────────────────────────────────────────────────────

  lemma WeightsAre(amounts: seq<int>)
    requires NonNegative(amounts)
    ensures Weights(amounts) == amounts
  {
  }

  lemma CutsSum(amount: int, amounts: seq<int>)
    requires amount > 0
    ensures Sum(Cuts(amount, amounts)) == amount - Unplaced(amount, amounts)
    ensures Sum(ProRata(amount, amounts)) == Sum(amounts) - (amount - Unplaced(amount, amounts))
  {
    SumNonNegative(Weights(amounts));
    PiecesSum(amount, Weights(amounts));
    SumDifference(amounts, Cuts(amount, amounts), ProRata(amount, amounts));
  }

  /** A spread removes what it reports as placed, keeps every amount between zero and what it was, and clears
      every one of them when the amount is as much as they bill together. */
  lemma SpreadBounds(amount: int, before: seq<int>)
    requires NonNegative(before) && amount > 0
    ensures Sum(before) - Sum(ProRata(amount, before)) == Min(amount, Sum(before))
    ensures Unplaced(amount, before) == amount - Min(amount, Sum(before))
    ensures forall i :: 0 <= i < |before| ==> 0 <= ProRata(amount, before)[i] <= before[i]
    ensures amount >= Sum(before) ==> forall i :: 0 <= i < |before| ==> ProRata(amount, before)[i] == 0
  {
    WeightsAre(before);
    CutsSum(amount, before);
    SumNonNegative(before);
    forall i | 0 <= i < |before| ensures 0 <= Cuts(amount, before)[i] <= before[i] {
      if amount < Sum(before) { PieceWithinWeight(amount, before, i); }
    }
  }

  /** The spread is fair: each row gives within a cent of its exact share, and every run of rows from the
      first gives within half a cent of theirs. */
  lemma SpreadIsFair(amount: int, before: seq<int>, i: nat)
    requires NonNegative(before) && 0 < amount < Sum(before) && i < |before|
    ensures WithinOne(before[i] - ProRata(amount, before)[i], amount * before[i], Sum(before))
    ensures IsRounded(Sum(before[..i]) - Sum(ProRata(amount, before)[..i]), amount * Sum(before[..i]), Sum(before))
  {
    WeightsAre(before);
    PieceWithinOne(amount, before, i);
    PiecesPrefix(amount, before, i);
    SumDifference(before[..i], Cuts(amount, before)[..i], ProRata(amount, before)[..i]);
    assert UpTo(amount, before, i) == RoundDiv(amount * Sum(before[..i]), Sum(before));
  }

  // ─── The plan ─────────────────────────────────────────────────────────────

  function AppliedSum(applied: seq<Application>): int {
    if applied == [] then 0 else applied[0].amount + AppliedSum(applied[1..])
  }

  lemma {:induction false} CutIs(rows: seq<Instalment>, after: seq<int>)
    requires |rows| == |after|
    ensures Cut(ChangesOf(rows, after)) == Sum(Amounts(rows)) - Sum(after)
  {
    if rows != [] {
      CutIs(rows[1..], after[1..]);
      assert ChangesOf(rows, after)[1..] == ChangesOf(rows[1..], after[1..]);
      assert Amounts(rows)[1..] == Amounts(rows[1..]);
    }
  }

  lemma UntouchedTail(amounts: seq<int>, after: seq<int>, n: nat)
    requires n <= |amounts| == |after| && forall k :: n <= k < |amounts| ==> after[k] == amounts[k]
    ensures Sum(amounts[..n]) - Sum(after[..n]) == Sum(amounts) - Sum(after)
  {
    SumConcat(amounts[..n], amounts[n..]);
    SumConcat(after[..n], after[n..]);
    assert amounts == amounts[..n] + amounts[n..] && after == after[..n] + after[n..];
    assert amounts[n..] == after[n..];
  }

  /** The rows a plan lands on, as their amounts were and as they are when the rest is spread. */
  lemma LandCut(gross: int, left: int, rows: seq<Instalment>, after: seq<int>, visited: nat, applied: seq<Application>, refund: int)
    requires |after| == |rows| && visited <= |rows|
    requires forall k :: visited <= k < |rows| ==> after[k] == rows[k].amount
    ensures var plan := Land(gross, left, rows, after, visited, applied, refund);
            && plan.creditMemo == gross - Cut(plan.instalments)
            && Cut(plan.instalments) == Sum(Amounts(rows)) - Sum(after) + (left - plan.openCredit)
  {
    if left > 0 {
      CutsSum(left, after);
      CutIs(rows, ProRata(left, after));
    } else {
      CutIs(rows[..visited], after[..visited]);
      assert Amounts(rows[..visited]) == Amounts(rows)[..visited];
      UntouchedTail(Amounts(rows), after, visited);
    }
  }

  lemma {:induction false} VisitedAll(amount: int, amounts: seq<int>, i: nat)
    requires i <= |amounts|
    ensures forall k :: VisitedFrom(amount, amounts, i) <= k < |amounts| ==> InOrder(amount, amounts)[k] == amounts[k]
    decreases |amounts| - i
  {
    if i < |amounts| && LeftAt(amount, amounts, i) > 0 {
      VisitedAll(amount, amounts, i + 1);
    } else {
      forall k | i <= k < |amounts| ensures InOrder(amount, amounts)[k] == amounts[k] {
        NothingLeft(amount, amounts, i, k);
        NothingLeft(amount, amounts, i, k + 1);
      }
    }
  }

  /** The gross is all cut or on the memo, and the memo is all credited, refunded or left open. */
  ghost predicate Conserved(gross: int, p: Plan) {
    && gross == Cut(p.instalments) + p.creditMemo
    && p.creditMemo == AppliedSum(p.applied) + p.refund + p.openCredit
  }

  lemma WholeConserves(gross: int, left: int, rows: seq<Instalment>, applied: seq<Application>, refund: int)
    requires gross == left + AppliedSum(applied) + refund
    ensures Conserved(gross, Land(gross, left, rows, Amounts(rows), 0, applied, refund))
  {
    LandCut(gross, left, rows, Amounts(rows), 0, applied, refund);
  }

  lemma PaidConserves(gross: int, owed: int, rows: seq<Instalment>)
    ensures var after, over := InOrder(owed, Amounts(rows)), LeftAt(owed, Amounts(rows), |rows|);
            Conserved(gross, Land(gross, gross - owed + over, rows, after, Visited(owed, Amounts(rows)), [], 0))
  {
    var amounts := Amounts(rows);
    var after := InOrder(owed, amounts);
    VisitedAll(owed, amounts, 0);
    InOrderSum(owed, amounts, |amounts|);
    assert after[..|amounts|] == after && amounts[..|amounts|] == amounts;
    LandCut(gross, gross - owed + LeftAt(owed, amounts, |amounts|), rows, after, Visited(owed, amounts), [], 0);
  }

  lemma InvoiceConserves(input: Input, rows: seq<Instalment>, invoice: Instalment)
    requires OnInvoice(input, rows, Amounts(rows), invoice).Ok?
    ensures Conserved(input.gross, OnInvoice(input, rows, Amounts(rows), invoice).value)
  {
    hide Land;
    var owed, credit := Min(input.gross, invoice.amount), Min(input.gross, invoice.balance);
    var applied := [Application(Some(invoice.id), invoice.document, credit)];
    assert applied[1..] == [];
    var p := OnInvoice(input, rows, Amounts(rows), invoice).value;
    if invoice.balance > 0 {
      WholeConserves(input.gross, input.gross - credit, rows, applied, 0);
      assert p == Land(input.gross, input.gross - credit, rows, Amounts(rows), 0, applied, 0);
    } else if input.refundRequested {
      WholeConserves(input.gross, input.gross - owed, rows, [], owed);
      assert p == Land(input.gross, input.gross - owed, rows, Amounts(rows), 0, [], owed);
    } else {
      var after, over := InOrder(owed, Amounts(rows)), LeftAt(owed, Amounts(rows), |rows|);
      PaidConserves(input.gross, owed, rows);
      assert p == Land(input.gross, input.gross - owed + over, rows, after, Visited(owed, Amounts(rows)), [], 0);
    }
  }

  /** No cent of a reduction is lost, whatever the amounts. */
  lemma ReductionConserved(input: Input)
    requires ReductionOf(input).Ok?
    ensures Conserved(input.gross, ReductionOf(input).value)
  {
    if input.instalments == [] {
      var p := ReductionOf(input).value;
      assert p.applied != [] ==> p.applied[1..] == [];
      assert Cut(p.instalments) == 0;
    } else if input.appliesTo.None? {
      WholeConserves(input.gross, input.gross, InDueOrder(input.instalments), [], 0);
    } else {
      InvoiceConserves(input, InDueOrder(input.instalments), Find(input.instalments, input.appliesTo.value).value);
    }
  }

  predicate NonNegativeAmounts(instalments: seq<Instalment>) { forall i :: i in instalments ==> i.amount >= 0 }

  /** The rows a reduction may lower: the order's uninvoiced instalments, each of them. */
  lemma {:induction false} UninvoicedRows(instalments: seq<Instalment>)
    ensures forall r :: r in UninvoicedOnly(instalments) <==> r in instalments && Uninvoiced(r)
  {
    if instalments != [] { UninvoicedRows(instalments[1..]); }
  }

  lemma DueRows(instalments: seq<Instalment>)
    ensures forall r :: r in InDueOrder(instalments) <==> r in instalments && Uninvoiced(r)
    ensures NonNegativeAmounts(instalments) ==> NonNegative(Amounts(InDueOrder(instalments)))
  {
    UninvoicedRows(instalments);
    SortMembers(UninvoicedOnly(instalments), DueFirst);
    var rows := InDueOrder(instalments);
    forall i | NonNegativeAmounts(instalments) && 0 <= i < |rows| ensures Amounts(rows)[i] >= 0 {
      assert rows[i] in rows;
    }
  }

  /** What an order's uninvoiced instalments bill together. */
  function UninvoicedTotal(input: Input): int { Sum(Amounts(InDueOrder(input.instalments))) }

  /** Every change lowers an uninvoiced instalment of the order, to no less than nothing. */
  predicate LowersOnly(changes: seq<Change>, rows: seq<Instalment>) {
    forall c :: c in changes ==> 0 <= c.next <= c.current && exists r :: r in rows && c == ChangeFrom(r, c.next)
  }

  lemma ChangesLower(rows: seq<Instalment>, after: seq<int>, all: seq<Instalment>)
    requires |rows| == |after| && forall i :: 0 <= i < |rows| ==> rows[i] in all && 0 <= after[i] <= rows[i].amount
    ensures LowersOnly(ChangesOf(rows, after), all)
  {
    var changes := ChangesOf(rows, after);
    forall c | c in changes ensures 0 <= c.next <= c.current && exists r :: r in all && c == ChangeFrom(r, c.next) {
      var i :| 0 <= i < |changes| && changes[i] == c;
      assert c == ChangeFrom(rows[i], after[i]) && rows[i] in all;
    }
  }

  /** What a landing keeps: rows only go down, they take all they can, and credit is left open only once every
      one of them is at zero. */
  ghost predicate Lands(p: Plan, rows: seq<Instalment>, wanted: int) {
    && LowersOnly(p.instalments, rows)
    && p.openCredit >= 0
    && Cut(p.instalments) == Min(wanted, Sum(Amounts(rows)))
    && (p.openCredit > 0 ==> forall r :: r in rows ==> ChangeFrom(r, 0) in p.instalments)
  }

  lemma SpreadClears(left: int, rows: seq<Instalment>, after: seq<int>)
    requires |after| == |rows| && left > 0 && NonNegative(after) && Unplaced(left, after) > 0
    ensures forall r :: r in rows ==> ChangeFrom(r, 0) in ChangesOf(rows, ProRata(left, after))
  {
    SpreadBounds(left, after);
    forall r | r in rows ensures ChangeFrom(r, 0) in ChangesOf(rows, ProRata(left, after)) {
      var k :| 0 <= k < |rows| && rows[k] == r;
      assert ChangesOf(rows, ProRata(left, after))[k] == ChangeFrom(r, 0);
    }
  }

  lemma LandLowers(gross: int, left: int, rows: seq<Instalment>, after: seq<int>, visited: nat, applied: seq<Application>, refund: int)
    requires |after| == |rows| && visited <= |rows| && left >= 0
    requires forall k :: 0 <= k < |rows| ==> 0 <= after[k] <= rows[k].amount
    ensures LowersOnly(Land(gross, left, rows, after, visited, applied, refund).instalments, rows)
  {
    if left > 0 {
      SpreadBounds(left, after);
      ChangesLower(rows, ProRata(left, after), rows);
    } else {
      ChangesLower(rows[..visited], after[..visited], rows);
    }
  }

  lemma LandLands(gross: int, left: int, rows: seq<Instalment>, after: seq<int>, visited: nat, applied: seq<Application>, refund: int)
    requires |after| == |rows| && visited <= |rows| && left >= 0
    requires forall k :: 0 <= k < |rows| ==> 0 <= after[k] <= rows[k].amount
    requires forall k :: visited <= k < |rows| ==> after[k] == rows[k].amount
    ensures Lands(Land(gross, left, rows, after, visited, applied, refund), rows, left + Sum(Amounts(rows)) - Sum(after))
  {
    var p := Land(gross, left, rows, after, visited, applied, refund);
    LandCut(gross, left, rows, after, visited, applied, refund);
    LandLowers(gross, left, rows, after, visited, applied, refund);
    SumNonNegative(after);
    if left > 0 { SpreadBounds(left, after); }
    if p.openCredit > 0 { SpreadClears(left, rows, after); }
    SumMonotone(after, Amounts(rows));
  }

  /** The part of a plan a document or a refund takes, as the invoice it names allows. */
  ghost predicate CreditsFairly(input: Input, p: Plan) {
    && (p.applied != [] ==>
          && |p.applied| == 1 && p.refund == 0
          && exists i :: i in input.instalments && IsInvoice(i) && Some(i.id) == input.appliesTo == p.applied[0].instalment
                         && 0 < p.applied[0].amount <= Min(input.gross, i.balance))
    && (p.refund != 0 ==>
          && input.refundRequested && p.refund > 0
          && exists i :: i in input.instalments && IsInvoice(i) && Some(i.id) == input.appliesTo
                         && i.balance <= 0 && p.refund <= Min(input.gross, i.amount))
  }

  /** A paid invoice's part, taken off the instalments in due order and the rest spread. */
  lemma PaidLands(gross: int, owed: int, rows: seq<Instalment>)
    requires 0 <= owed <= gross && NonNegative(Amounts(rows))
    ensures var after, over := InOrder(owed, Amounts(rows)), LeftAt(owed, Amounts(rows), |rows|);
            Lands(Land(gross, gross - owed + over, rows, after, Visited(owed, Amounts(rows)), [], 0), rows, gross)
  {
    var amounts := Amounts(rows);
    var after := InOrder(owed, amounts);
    VisitedAll(owed, amounts, 0);
    TakenTotal(owed, amounts);
    SumNonNegative(amounts);
    forall k | 0 <= k < |rows| ensures 0 <= after[k] <= rows[k].amount { TakenWithin(owed, amounts, k); }
    LandLands(gross, gross - owed + LeftAt(owed, amounts, |amounts|), rows, after, Visited(owed, amounts), [], 0);
  }

  lemma WholeLands(gross: int, left: int, rows: seq<Instalment>, applied: seq<Application>, refund: int)
    requires left >= 0 && NonNegative(Amounts(rows))
    ensures Lands(Land(gross, left, rows, Amounts(rows), 0, applied, refund), rows, left)
  {
    forall k | 0 <= k < |rows| ensures 0 <= Amounts(rows)[k] <= rows[k].amount {}
    LandLands(gross, left, rows, Amounts(rows), 0, applied, refund);
  }

  ghost predicate LandsRest(input: Input, rows: seq<Instalment>, p: Plan) {
    Lands(p, rows, input.gross - AppliedSum(p.applied) - p.refund)
  }

  lemma InvoiceLands(input: Input, rows: seq<Instalment>, invoice: Instalment)
    requires OnInvoice(input, rows, Amounts(rows), invoice).Ok?
    requires NonNegative(Amounts(rows)) && invoice.amount >= 0 && input.gross > 0
    ensures LandsRest(input, rows, OnInvoice(input, rows, Amounts(rows), invoice).value)
  {
    hide Land;
    var owed, credit := Min(input.gross, invoice.amount), Min(input.gross, invoice.balance);
    var applied := [Application(Some(invoice.id), invoice.document, credit)];
    assert applied[1..] == [] && AppliedSum(applied) == credit;
    var p := OnInvoice(input, rows, Amounts(rows), invoice).value;
    if invoice.balance > 0 {
      WholeLands(input.gross, input.gross - credit, rows, applied, 0);
      assert p == Land(input.gross, input.gross - credit, rows, Amounts(rows), 0, applied, 0);
      assert Lands(p, rows, input.gross - credit);
    } else if input.refundRequested {
      WholeLands(input.gross, input.gross - owed, rows, [], owed);
      assert p == Land(input.gross, input.gross - owed, rows, Amounts(rows), 0, [], owed);
      assert Lands(p, rows, input.gross - owed);
    } else {
      var after, over := InOrder(owed, Amounts(rows)), LeftAt(owed, Amounts(rows), |rows|);
      PaidLands(input.gross, owed, rows);
      assert p == Land(input.gross, input.gross - owed + over, rows, after, Visited(owed, Amounts(rows)), [], 0);
    }
  }

  /** An order billed by instalments: the uninvoiced ones take everything that does not belong on the named
      invoice, up to all they bill, and credit is left open only when each of them is at zero. An invoice is
      credited no more than it has open; a refund is of a paid invoice that was named, when it was asked for. */
  lemma InstalmentReduction(input: Input)
    requires ReductionOf(input).Ok? && input.instalments != [] && NonNegativeAmounts(input.instalments)
    ensures LandsRest(input, InDueOrder(input.instalments), ReductionOf(input).value)
    ensures CreditsFairly(input, ReductionOf(input).value)
  {
    hide Land;
    DueRows(input.instalments);
    var rows := InDueOrder(input.instalments);
    if input.appliesTo.None? {
      WholeLands(input.gross, input.gross, rows, [], 0);
    } else {
      InvoiceLands(input, rows, Find(input.instalments, input.appliesTo.value).value);
    }
  }

  /** An order billed as a whole is credited up to its balance, and what is over is refunded when that was
      asked for and left open otherwise. */
  lemma WholeOrderReduction(input: Input)
    requires ReductionOf(input).Ok? && input.instalments == []
    ensures var p := ReductionOf(input).value;
            && p.instalments == [] && p.creditMemo == input.gross
            && AppliedSum(p.applied) == Min(input.gross, Max(0, input.orderBalance))
            && p.refund + p.openCredit == Max(0, input.gross - Max(0, input.orderBalance))
            && (if input.refundRequested then p.openCredit == 0 else p.refund == 0)
            && forall a :: a in p.applied ==> a.instalment.None? && a.amount > 0
  {
    var p := ReductionOf(input).value;
    assert p.applied != [] ==> p.applied[1..] == [];
  }

  /** Left blank, a reduction needs a credit memo for just what the uninvoiced instalments do not bill. */
  lemma BlankReduction(input: Input)
    requires ReductionOf(input).Ok? && input.instalments != [] && NonNegativeAmounts(input.instalments)
    requires input.appliesTo.None?
    ensures ReductionOf(input).value.creditMemo == Max(0, input.gross - UninvoicedTotal(input))
  {
    InstalmentReduction(input);
    ReductionConserved(input);
  }

  // ─── The changes, one per row ─────────────────────────────────────────────

  predicate DistinctChanges(changes: seq<Change>) {
    forall i, j :: 0 <= i < j < |changes| ==> changes[i].id != changes[j].id
  }

  lemma LandDistinct(gross: int, left: int, rows: seq<Instalment>, after: seq<int>, visited: nat, applied: seq<Application>, refund: int)
    requires |after| == |rows| && visited <= |rows| && Distinct(rows)
    ensures DistinctChanges(Land(gross, left, rows, after, visited, applied, refund).instalments)
  {
  }

  lemma InvoiceDistinct(input: Input, rows: seq<Instalment>, invoice: Instalment)
    requires Distinct(rows) && OnInvoice(input, rows, Amounts(rows), invoice).Ok?
    ensures DistinctChanges(OnInvoice(input, rows, Amounts(rows), invoice).value.instalments)
  {
    hide Land;
    var gross, owed, credit := input.gross, Min(input.gross, invoice.amount), Min(input.gross, invoice.balance);
    if invoice.balance > 0 {
      LandDistinct(gross, gross - credit, rows, Amounts(rows), 0, [Application(Some(invoice.id), invoice.document, credit)], 0);
    } else if input.refundRequested {
      LandDistinct(gross, gross - owed, rows, Amounts(rows), 0, [], owed);
    } else {
      LandDistinct(gross, gross - owed + LeftAt(owed, Amounts(rows), |rows|), rows, InOrder(owed, Amounts(rows)),
                   Visited(owed, Amounts(rows)), [], 0);
    }
  }

  /** `change` lowers an uninvoiced instalment of `rows`, to no less than nothing. */
  predicate Lowers(rows: seq<Instalment>, change: Change) {
    exists r :: r in rows && Uninvoiced(r) && change == ChangeFrom(r, change.next) && 0 <= change.next <= r.amount
  }

  /** A plan changes uninvoiced instalments of the order only, each once. */
  lemma PlanChanges(input: Input)
    requires ReductionOf(input).Ok? && Distinct(input.instalments) && NonNegativeAmounts(input.instalments)
    ensures DistinctChanges(ReductionOf(input).value.instalments)
    ensures forall c :: c in ReductionOf(input).value.instalments ==> Lowers(input.instalments, c)
  {
    var p := ReductionOf(input).value;
    if input.instalments != [] {
      var rows := InDueOrder(input.instalments);
      DistinctUninvoiced(input.instalments);
      DistinctSorted(UninvoicedOnly(input.instalments));
      DueRows(input.instalments);
      PlanDistinct(input);
      InstalmentReduction(input);
      assert LowersOnly(p.instalments, rows);
      forall c | c in p.instalments ensures Lowers(input.instalments, c) {
        var r :| r in rows && c == ChangeFrom(r, c.next);
        assert r in input.instalments && Uninvoiced(r);
      }
    }
  }

  lemma PlanDistinct(input: Input)
    requires ReductionOf(input).Ok? && input.instalments != [] && Distinct(InDueOrder(input.instalments))
    ensures DistinctChanges(ReductionOf(input).value.instalments)
  {
    hide Land, OnInvoice, InDueOrder;
    var rows := InDueOrder(input.instalments);
    if input.appliesTo.None? {
      LandDistinct(input.gross, input.gross, rows, Amounts(rows), 0, [], 0);
    } else {
      InvoiceDistinct(input, rows, Find(input.instalments, input.appliesTo.value).value);
    }
  }
}
