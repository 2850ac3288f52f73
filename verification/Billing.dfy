/** Where an amount reduction lands: on uninvoiced instalments, an invoice, a refund or open credit
    (PlanReduction, takeInOrder and spreadProRata of AmountChangePlan.ts). Amounts are cents, days integers;
    instalment ids are case-folded numbers and an empty document number stands for none. */
module Billing {
  import opened Outcomes
  import opened Rounding
  import opened Sorting

  datatype Status = Scheduled | Invoiced | Paid | Canceled | WrittenOff

  datatype Instalment = Instalment(
    id: nat, number: int, due: int, amount: int, balance: int, status: Status, document: string)

  /** An uninvoiced instalment the reduction changes; `next` is zero when it is cancelled. */
  datatype Change = Change(id: nat, number: int, due: int, current: int, next: int)

  datatype Application = Application(instalment: Option<nat>, document: string, amount: int)

  datatype Input = Input(
    gross: int, instalments: seq<Instalment>, orderBalance: int, appliesTo: Option<nat>, refundRequested: bool)

  datatype Plan = Plan(
    instalments: seq<Change>, creditMemo: int, applied: seq<Application>, refund: int, openCredit: int)

  datatype Reason = NothingToReduce | OrderIsTheInvoice | NotOnOrder | NotInvoiced | StillOpen | RefundNeedsInvoice

  // ─── The two ways of taking an amount off a list of amounts ───────────────

  /** What is left to take when the `i`th amount is reached, taking `amount` from them in order. */
  function LeftAt(amount: int, amounts: seq<int>, i: nat): int
    requires i <= |amounts|
  {
    if i == 0 then amount
    else
      var left := LeftAt(amount, amounts, i - 1);
      if left <= 0 then left else left - Min(left, amounts[i - 1])
  }

  /** What is left of each amount once `amount` is taken from them in order. */
  function InOrder(amount: int, amounts: seq<int>): (after: seq<int>)
    ensures |after| == |amounts|
  {
    seq(|amounts|, i requires 0 <= i < |amounts| =>
      amounts[i] - (LeftAt(amount, amounts, i) - LeftAt(amount, amounts, i + 1)))
  }

  /** How many of the amounts, from the `i`th on, are looked at before nothing is left to take. */
  function VisitedFrom(amount: int, amounts: seq<int>, i: nat): (n: nat)
    requires i <= |amounts|
    ensures i <= n <= |amounts|
    decreases |amounts| - i
  {
    if i == |amounts| || LeftAt(amount, amounts, i) <= 0 then i else VisitedFrom(amount, amounts, i + 1)
  }

  function Visited(amount: int, amounts: seq<int>): nat { VisitedFrom(amount, amounts, 0) }

  /** What each amount weighs in a pro-rata spread: one that bills nothing weighs nothing. */
  function Weights(amounts: seq<int>): (w: seq<int>)
    ensures |w| == |amounts|
  {
    seq(|amounts|, i requires 0 <= i < |amounts| => Max(amounts[i], 0))
  }

  /** What a pro-rata spread of `amount` takes from each amount. */
  function Cuts(amount: int, amounts: seq<int>): (cuts: seq<int>)
    ensures |cuts| == |amounts|
  {
    if amount >= Sum(Weights(amounts)) then Weights(amounts) else Pieces(amount, Weights(amounts))
  }

  function ProRata(amount: int, amounts: seq<int>): (after: seq<int>)
    ensures |after| == |amounts|
  {
    seq(|amounts|, i requires 0 <= i < |amounts| => amounts[i] - Cuts(amount, amounts)[i])
  }

  /** What a pro-rata spread cannot place. */
  function Unplaced(amount: int, amounts: seq<int>): int {
    var total := Sum(Weights(amounts));
    if total == 0 then amount else Max(amount - total, 0)
  }

  // ─── The plan ─────────────────────────────────────────────────────────────

  predicate Uninvoiced(i: Instalment) { i.status.Scheduled? && i.document == "" }

  function UninvoicedOnly(instalments: seq<Instalment>): seq<Instalment> {
    if instalments == [] then []
    else (if Uninvoiced(instalments[0]) then [instalments[0]] else []) + UninvoicedOnly(instalments[1..])
  }

  predicate DueFirst(a: Instalment, b: Instalment) { a.due < b.due || (a.due == b.due && a.number <= b.number) }

  /** The instalments not yet invoiced, in due order. */
  function InDueOrder(instalments: seq<Instalment>): seq<Instalment> { SortBy(UninvoicedOnly(instalments), DueFirst) }

  function Find(instalments: seq<Instalment>, id: nat): (found: Option<Instalment>)
    ensures found.Some? ==> found.value in instalments && found.value.id == id
  {
    if instalments == [] then None
    else if instalments[0].id == id then Some(instalments[0])
    else Find(instalments[1..], id)
  }

  function Amounts(rows: seq<Instalment>): (a: seq<int>)
    ensures |a| == |rows|
  {
    seq(|rows|, i requires 0 <= i < |rows| => rows[i].amount)
  }

  function ChangeFrom(row: Instalment, next: int): Change { Change(row.id, row.number, row.due, row.amount, next) }

  function ChangesOf(rows: seq<Instalment>, after: seq<int>): seq<Change>
    requires |after| == |rows|
  {
    seq(|rows|, i requires 0 <= i < |rows| => ChangeFrom(rows[i], after[i]))
  }

  function Cut(changes: seq<Change>): int {
    if changes == [] then 0 else changes[0].current - changes[0].next + Cut(changes[1..])
  }

  /** Spread what is `left` over the rows, of which the first `visited` were already looked at. */
  function Land(gross: int, left: int, rows: seq<Instalment>, after: seq<int>, visited: nat, applied: seq<Application>, refund: int): (plan: Plan)
    requires |after| == |rows| && visited <= |rows|
    ensures plan.applied == applied && plan.refund == refund
  {
    var touched := if left > 0 then rows else rows[..visited];
    var settled := if left > 0 then ProRata(left, after) else after[..visited];
    var changes := ChangesOf(touched, settled);
    Plan(changes, gross - Cut(changes), applied, refund, if left > 0 then Unplaced(left, after) else left)
  }

  predicate IsInvoice(i: Instalment) { i.document != "" && (i.status.Invoiced? || i.status.Paid?) }

  /** The plan for a reduction, by how the order is billed and what the request names. */
  function ReductionOf(input: Input): Result<Plan, Reason> {
    var gross := input.gross;
    if gross <= 0 then Refused(NothingToReduce)
    else if input.instalments == [] then
      if input.appliesTo.Some? then Refused(OrderIsTheInvoice)
      else
        var onOrder := Min(gross, Max(0, input.orderBalance));
        var applied := if onOrder > 0 then [Application(None, "", onOrder)] else [];
        var left := gross - onOrder;
        Ok(Plan([], gross, applied, if input.refundRequested then left else 0, if input.refundRequested then 0 else left))
    else
      var rows := InDueOrder(input.instalments);
      var amounts := Amounts(rows);
      if input.appliesTo.None? then
        if input.refundRequested then Refused(RefundNeedsInvoice) else Ok(Land(gross, gross, rows, amounts, 0, [], 0))
      else
        var found := Find(input.instalments, input.appliesTo.value);
        if found.None? then Refused(NotOnOrder)
        else if !IsInvoice(found.value) then Refused(NotInvoiced)
        else OnInvoice(input, rows, amounts, found.value)
  }

  function OnInvoice(input: Input, rows: seq<Instalment>, amounts: seq<int>, invoice: Instalment): Result<Plan, Reason>
    requires |amounts| == |rows|
  {
    var gross := input.gross;
    if invoice.balance > 0 then
      if input.refundRequested then Refused(StillOpen)
      else
        var credit := Min(gross, invoice.balance);
        Ok(Land(gross, gross - credit, rows, amounts, 0, [Application(Some(invoice.id), invoice.document, credit)], 0))
    else
      var owed := Min(gross, invoice.amount);
      if input.refundRequested then Ok(Land(gross, gross - owed, rows, amounts, 0, [], owed))
      else
        var after := InOrder(owed, amounts);
        var over := LeftAt(owed, amounts, |amounts|);
        Ok(Land(gross, gross - owed + over, rows, after, Visited(owed, amounts), [], 0))
  }

  // ─── The table of changes ─────────────────────────────────────────────────

  predicate Distinct(rows: seq<Instalment>) {
    forall i, j :: 0 <= i < j < |rows| ==> rows[i].id != rows[j].id
  }

  function NextIn(changes: map<nat, Change>, row: Instalment): int {
    if row.id in changes then changes[row.id].next else row.amount
  }

  function NextAmounts(changes: map<nat, Change>, rows: seq<Instalment>): (a: seq<int>)
    ensures |a| == |rows|
  {
    seq(|rows|, i requires 0 <= i < |rows| => NextIn(changes, rows[i]))
  }

  /** Every change kept for one of `rows` is that row's, but for its new amount. */
  predicate Tracks(changes: map<nat, Change>, rows: seq<Instalment>) {
    forall r :: r in rows && r.id in changes ==> changes[r.id] == ChangeFrom(r, changes[r.id].next)
  }

  lemma SetNext(changes: map<nat, Change>, rows: seq<Instalment>, i: nat, next: int)
    requires i < |rows| && Distinct(rows) && Tracks(changes, rows)
    ensures var after := changes[rows[i].id := ChangeFrom(rows[i], next)];
            Tracks(after, rows) && NextAmounts(after, rows) == NextAmounts(changes, rows)[i := next]
  {
    var after := changes[rows[i].id := ChangeFrom(rows[i], next)];
    forall r | r in rows && r.id in after ensures after[r.id] == ChangeFrom(r, after[r.id].next) {
      var j :| 0 <= j < |rows| && rows[j] == r;
      assert j == i || r.id != rows[i].id;
    }
  }

  /** Between two tables, a change was started for just the first `n` rows. */
  predicate Started(before: map<nat, Change>, after: map<nat, Change>, rows: seq<Instalment>, n: nat) {
    forall k :: 0 <= k < |rows| ==> (rows[k].id in after <==> rows[k].id in before || k < n)
  }

  /** `i` amounts have been looked at and `left` is still to be taken. */
  ghost predicate Taking(amount: int, before: seq<int>, i: nat, now: seq<int>, left: int) {
    && i <= |before| == |now|
    && left == LeftAt(amount, before, i)
    && Visited(amount, before) == VisitedFrom(amount, before, i)
    && (forall k :: i <= k < |now| ==> now[k] == before[k])
    && (forall k :: 0 <= k < i ==> now[k] == InOrder(amount, before)[k])
  }

  /** Once nothing is left to take, nothing more is taken. */
  lemma {:induction false} NothingLeft(amount: int, amounts: seq<int>, i: nat, j: nat)
    requires i <= j <= |amounts| && LeftAt(amount, amounts, i) <= 0
    ensures LeftAt(amount, amounts, j) == LeftAt(amount, amounts, i)
  {
    if i < j { NothingLeft(amount, amounts, i, j - 1); }
  }

  lemma TakeDone(amount: int, before: seq<int>, i: nat, now: seq<int>, left: int)
    requires Taking(amount, before, i, now, left) && (i == |before| || left <= 0)
    ensures now == InOrder(amount, before) && Visited(amount, before) == i && left == LeftAt(amount, before, |before|)
  {
    forall k | i <= k <= |now| ensures LeftAt(amount, before, k) == left {
      if i < |before| { NothingLeft(amount, before, i, k); }
    }
  }

  /** `i` amounts have had their piece; `through` and `given` are the running weight and the running share. */
  ghost predicate Spreading(amount: int, before: seq<int>, i: nat, now: seq<int>, through: int, given: int) {
    && i <= |before| == |now|
    && through == Sum(Weights(before)[..i])
    && (amount < Sum(Weights(before)) ==> given == UpTo(amount, Weights(before), i))
    && (forall k :: i <= k < |now| ==> now[k] == before[k])
    && (forall k :: 0 <= k < i ==> now[k] == ProRata(amount, before)[k])
  }

  lemma SpreadStep(amount: int, before: seq<int>, i: nat, now: seq<int>, through: int, given: int)
    requires i < |before| && Spreading(amount, before, i, now, through, given) && Sum(Weights(before)) > 0
    ensures var total := Sum(Weights(before));
            var upTo := RoundDiv(amount * (through + now[i]), total);
            if now[i] <= 0 then Spreading(amount, before, i + 1, now, through, given)
            else if amount >= total then Spreading(amount, before, i + 1, now[i := 0], through + now[i], given)
            else Spreading(amount, before, i + 1, now[i := now[i] - (upTo - given)], through + now[i], upTo)
  {
    var weights := Weights(before);
    SumPrefix(weights, i);
    assert now[i] == before[i] && ProRata(amount, before)[i] == before[i] - Cuts(amount, before)[i];
    assert amount >= Sum(weights) ==> Cuts(amount, before)[i] == weights[i];
    assert amount < Sum(weights) ==> Cuts(amount, before)[i] == UpTo(amount, weights, i + 1) - UpTo(amount, weights, i);
    assert weights[i] == 0 ==> UpTo(amount, weights, i + 1) == UpTo(amount, weights, i);
    assert Sum(weights[..i + 1]) == through + weights[i];
    assert UpTo(amount, weights, i + 1) == RoundDiv(amount * (through + weights[i]), Sum(weights));
  }

  /** The changes a plan makes to uninvoiced instalments, kept by instalment while it is drawn up. */
  class ChangeTable {
    var rows: map<nat, Change>

    constructor ()
      ensures rows == map[]
    {
      rows := map[];
    }

    /** The change kept for the `i`th row, starting one that changes nothing when there is none yet. */
    method ChangeFor(scheduled: seq<Instalment>, i: nat) returns (change: Change)
      requires i < |scheduled| && Distinct(scheduled) && Tracks(rows, scheduled)
      modifies this
      ensures Tracks(rows, scheduled) && NextAmounts(rows, scheduled) == old(NextAmounts(rows, scheduled))
      ensures rows.Keys == old(rows.Keys) + {scheduled[i].id}
      ensures change == rows[scheduled[i].id] == ChangeFrom(scheduled[i], NextAmounts(rows, scheduled)[i])
    {
      var row := scheduled[i];
      assert row in scheduled;
      if row.id !in rows {
        SetNext(rows, scheduled, i, row.amount);
        rows := rows[row.id := ChangeFrom(row, row.amount)];
      }
      change := rows[row.id];
    }

    /** Give the `i`th row its new amount. */
    method LowerTo(scheduled: seq<Instalment>, i: nat, next: int)
      requires i < |scheduled| && Distinct(scheduled) && Tracks(rows, scheduled) && scheduled[i].id in rows
      modifies this
      ensures Tracks(rows, scheduled) && rows.Keys == old(rows.Keys)
      ensures NextAmounts(rows, scheduled) == old(NextAmounts(rows, scheduled))[i := next]
    {
      SetNext(rows, scheduled, i, next);
      assert scheduled[i] in scheduled;
      rows := rows[scheduled[i].id := rows[scheduled[i].id].(next := next)];
    }

    /** Take what the `i`th row has of `amount`, and say what is left of it. */
    method TakeFrom(scheduled: seq<Instalment>, i: nat, amount: int) returns (left: int)
      requires i < |scheduled| && Distinct(scheduled) && Tracks(rows, scheduled)
      modifies this
      ensures Tracks(rows, scheduled) && rows.Keys == old(rows.Keys) + {scheduled[i].id}
      ensures left == amount - Min(amount, old(NextAmounts(rows, scheduled))[i])
      ensures NextAmounts(rows, scheduled)[i] == old(NextAmounts(rows, scheduled))[i] - (amount - left)
      ensures forall k :: 0 <= k < |scheduled| && k != i ==> NextAmounts(rows, scheduled)[k] == old(NextAmounts(rows, scheduled))[k]
    {
      var change := ChangeFor(scheduled, i);
      var take := Min(amount, change.next);
      LowerTo(scheduled, i, change.next - take);
      left := amount - take;
    }

    /** Use the rows up one after another until `amount` is taken. */
    method TakeInOrder(amount: int, scheduled: seq<Instalment>) returns (left: int)
      requires Distinct(scheduled) && Tracks(rows, scheduled)
      modifies this
      ensures Tracks(rows, scheduled)
      ensures NextAmounts(rows, scheduled) == InOrder(amount, old(NextAmounts(rows, scheduled)))
      ensures Started(old(rows), rows, scheduled, Visited(amount, old(NextAmounts(rows, scheduled))))
      ensures left == LeftAt(amount, old(NextAmounts(rows, scheduled)), |scheduled|)
    {
      ghost var before := NextAmounts(rows, scheduled);
      ghost var now := before;
      left := amount;
      var i := 0;
      while i < |scheduled| && left > 0
        invariant i <= |scheduled| && Tracks(rows, scheduled)
        invariant now == NextAmounts(rows, scheduled) && Taking(amount, before, i, now, left)
        invariant Started(old(rows), rows, scheduled, i)
      {
        left := TakeFrom(scheduled, i, left);
        now := NextAmounts(rows, scheduled);
        i := i + 1;
      }
      TakeDone(amount, before, i, now, left);
    }

    /** Spread `amount` over the rows in proportion to what each still bills. Returns what they cannot take. */
    method SpreadProRata(amount: int, scheduled: seq<Instalment>) returns (left: int)
      requires Distinct(scheduled) && Tracks(rows, scheduled)
      modifies this
      ensures Tracks(rows, scheduled)
      ensures NextAmounts(rows, scheduled) == ProRata(amount, old(NextAmounts(rows, scheduled)))
      ensures Started(old(rows), rows, scheduled, |scheduled|)
      ensures left == Unplaced(amount, old(NextAmounts(rows, scheduled)))
    {
      ghost var before := NextAmounts(rows, scheduled);
      var total := StartChanges(scheduled);
      if total == 0 {
        NoWeights(amount, before);
        return amount;
      }
      var through, given := 0, 0;
      RoundDivExact(0, total);
      assert amount * 0 == 0 * total;
      for i := 0 to |scheduled|
        invariant Tracks(rows, scheduled) && Started(old(rows), rows, scheduled, |scheduled|)
        invariant Spreading(amount, before, i, NextAmounts(rows, scheduled), through, given)
      {
        SpreadStep(amount, before, i, NextAmounts(rows, scheduled), through, given);
        var change := ChangeFor(scheduled, i);
        if change.next > 0 {
          through := through + change.next;
          if amount >= total {
            LowerTo(scheduled, i, 0);
          } else {
            var upTo := RoundDiv(amount * through, total);
            LowerTo(scheduled, i, change.next - (upTo - given));
            given := upTo;
          }
        }
      }
      left := if amount >= total then amount - total else 0;
    }

    /** Start a change for every row and add up what they bill. */
    method StartChanges(scheduled: seq<Instalment>) returns (total: int)
      requires Distinct(scheduled) && Tracks(rows, scheduled)
      modifies this
      ensures Tracks(rows, scheduled) && NextAmounts(rows, scheduled) == old(NextAmounts(rows, scheduled))
      ensures Started(old(rows), rows, scheduled, |scheduled|)
      ensures total == Sum(Weights(old(NextAmounts(rows, scheduled)))) >= 0
    {
      ghost var weights := Weights(NextAmounts(rows, scheduled));
      SumNonNegative(weights);
      total := 0;
      for i := 0 to |scheduled|
        invariant Tracks(rows, scheduled) && NextAmounts(rows, scheduled) == old(NextAmounts(rows, scheduled))
        invariant Started(old(rows), rows, scheduled, i)
        invariant total == Sum(weights[..i])
      {
        SumPrefix(weights, i);
        var change := ChangeFor(scheduled, i);
        if change.next > 0 {
          total := total + change.next;
        }
      }
      assert scheduled[..|scheduled|] == scheduled && weights[..|scheduled|] == weights;
    }

    /** The changes started, in due order. */
    method Changes(scheduled: seq<Instalment>, ghost n: nat) returns (changes: seq<Change>)
      requires n <= |scheduled| && Tracks(rows, scheduled) && Started(map[], rows, scheduled, n)
      ensures changes == ChangesOf(scheduled[..n], NextAmounts(rows, scheduled)[..n])
    {
      changes := [];
      for i := 0 to |scheduled|
        invariant changes == ChangesOf(scheduled[..Min(i, n)], NextAmounts(rows, scheduled)[..Min(i, n)])
      {
        if scheduled[i].id in rows {
          assert scheduled[i] in scheduled;
          changes := changes + [rows[scheduled[i].id]];
        }
      }
    }
  }

  lemma NoWeights(amount: int, amounts: seq<int>)
    requires Sum(Weights(amounts)) == 0
    ensures ProRata(amount, amounts) == amounts && Unplaced(amount, amounts) == amount
  {
    SumNonNegative(Weights(amounts));
    forall i | 0 <= i < |amounts| ensures Cuts(amount, amounts)[i] == 0 {
      assert Weights(amounts)[i] == 0;
    }
  }

  // ─── Planning with the table ──────────────────────────────────────────────

  lemma {:induction false} DistinctUninvoiced(rows: seq<Instalment>)
    requires Distinct(rows)
    ensures Distinct(UninvoicedOnly(rows))
    ensures forall r :: r in UninvoicedOnly(rows) <==> r in rows && Uninvoiced(r)
  {
    if rows != [] {
      DistinctUninvoiced(rows[1..]);
      var rest := UninvoicedOnly(rows[1..]);
      forall k | 0 <= k < |rest| ensures rest[k].id != rows[0].id {
        assert rest[k] in rest;
        assert rest[k] in rows[1..];
      }
    }
  }

  lemma {:induction false} DistinctInsert(row: Instalment, sorted: seq<Instalment>)
    requires Distinct([row] + sorted)
    ensures Distinct(Insert(row, sorted, DueFirst))
  {
    var all := [row] + sorted;
    if sorted != [] && !DueFirst(row, sorted[0]) {
      assert Distinct([row] + sorted[1..]) by {
        assert all[0] == row && forall k :: 0 < k <= |sorted[1..]| ==> ([row] + sorted[1..])[k] == all[k + 1];
      }
      DistinctInsert(row, sorted[1..]);
      InsertMembers(row, sorted[1..], DueFirst);
      var rest := Insert(row, sorted[1..], DueFirst);
      forall k | 0 <= k < |rest| ensures rest[k].id != sorted[0].id {
        assert rest[k] in multiset(rest);
        assert rest[k] == row || rest[k] in sorted[1..];
        assert all[0] == row && all[1] == sorted[0];
        assert forall j :: 0 <= j < |sorted[1..]| ==> sorted[1..][j] == all[j + 2];
      }
    }
  }

  lemma {:induction false} DistinctSorted(rows: seq<Instalment>)
    requires Distinct(rows)
    ensures Distinct(SortBy(rows, DueFirst))
  {
    if rows != [] {
      DistinctSorted(rows[1..]);
      SortMembers(rows[1..], DueFirst);
      var rest := SortBy(rows[1..], DueFirst);
      forall k | 0 <= k < |rest| ensures rest[k].id != rows[0].id {
        assert rest[k] in rest;
      }
      DistinctInsert(rows[0], rest);
    }
  }

  /** Spread what is still left over the rows and read the plan off the table. */
  method SpreadTheRest(gross: int, left: int, scheduled: seq<Instalment>, table: ChangeTable, ghost visited: nat,
                       applied: seq<Application>, refund: int) returns (plan: Plan)
    requires Distinct(scheduled) && Tracks(table.rows, scheduled)
    requires visited <= |scheduled| && Started(map[], table.rows, scheduled, visited)
    modifies table
    ensures plan == Land(gross, left, scheduled, old(NextAmounts(table.rows, scheduled)), visited, applied, refund)
  {
    ghost var n := if left > 0 then |scheduled| else visited;
    var open := left;
    if left > 0 { open := table.SpreadProRata(left, scheduled); }
    var changes := table.Changes(scheduled, n);
    assert scheduled[..|scheduled|] == scheduled;
    assert changes == Land(gross, left, scheduled, old(NextAmounts(table.rows, scheduled)), visited, applied, refund).instalments;
    plan := Plan(changes, gross - Cut(changes), applied, refund, open);
  }

  /** Decide where a reduction lands, changing uninvoiced instalments through one shared table. */
  method PlanReduction(input: Input) returns (result: Result<Plan, Reason>)
    requires Distinct(input.instalments)
    ensures result == ReductionOf(input)
  {
    hide Land, InOrder, LeftAt;
    var left := input.gross;
    if left <= 0 { return Refused(NothingToReduce); }
    var applied: seq<Application>, refund := [], 0;
    if input.instalments == [] {
      if input.appliesTo.Some? { return Refused(OrderIsTheInvoice); }
      var onOrder := Min(left, Max(0, input.orderBalance));
      if onOrder > 0 { applied := [Application(None, "", onOrder)]; }
      left := left - onOrder;
      if input.refundRequested {
        refund := left;
        left := 0;
      }
      return Ok(Plan([], input.gross, applied, refund, left));
    }
    var scheduled := InDueOrder(input.instalments);
    DistinctUninvoiced(input.instalments);
    DistinctSorted(UninvoicedOnly(input.instalments));
    var table := new ChangeTable();
    ghost var amounts, visited := Amounts(scheduled), 0;
    assert NextAmounts(table.rows, scheduled) == amounts;
    if input.appliesTo.Some? {
      var found := Find(input.instalments, input.appliesTo.value);
      if found.None? { return Refused(NotOnOrder); }
      var invoice := found.value;
      if !IsInvoice(invoice) { return Refused(NotInvoiced); }
      var open := Max(0, invoice.balance);
      if open > 0 {
        if input.refundRequested { return Refused(StillOpen); }
        var credit := Min(left, open);
        applied := [Application(Some(invoice.id), invoice.document, credit)];
        left := left - credit;
      } else {
        var owed := Min(left, invoice.amount);
        if input.refundRequested {
          refund := owed;
          left := left - owed;
        } else {
          visited := Visited(owed, amounts);
          amounts := InOrder(owed, amounts);
          var over := table.TakeInOrder(owed, scheduled);
          left := left - owed + over;
        }
      }
    } else if input.refundRequested {
      return Refused(RefundNeedsInvoice);
    }
    ghost var expected := Land(input.gross, left, scheduled, amounts, visited, applied, refund);
    assert ReductionOf(input) == Ok(expected);
    var plan := SpreadTheRest(input.gross, left, scheduled, table, visited, applied, refund);
    result := Ok(plan);
  }
}
