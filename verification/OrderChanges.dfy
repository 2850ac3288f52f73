/** An order of several lines over time: changes to any of its terms, payments and instalment invoices in any order.
    The rows, the approved changes and the memo numbers are shared; each term and its line's billing are its own. */
module OrderChanges {
  import opened Outcomes
  import opened Rounding
  import opened AmountChange
  import opened AmountChangeProofs
  import Recognition
  import RecognitionProofs
  import Billing
  import CreditMemo

  // ─── The order ────────────────────────────────────────────────────────────

  /** A term and what its line has billed. */
  datatype TermBook = TermBook(
    status: TermStatus, renewed: bool, returned: bool, amount: int, entries: seq<Recognition.Entry>, billed: int)

  datatype OrderBooks = OrderBooks(
    terms: seq<TermBook>, memos: seq<Recognition.Entry>, rows: seq<Row>, changes: seq<Approved>, balance: int)

  /** A line and how the term it bought is recognised. */
  datatype TermSetting = TermSetting(
    line: OrderLine, termEnd: int, driver: Option<Recognition.Driver>, periodMonths: int, deferred: nat, dimensions: multiset<(nat, nat)>)

  datatype OrderSetting = OrderSetting(terms: seq<TermSetting>, receivable: nat, order: string, reader: CreditMemo.Reader)

  function LineTotals(os: OrderSetting): (totals: seq<int>)
    ensures |totals| == |os.terms|
  {
    seq(|os.terms|, k requires 0 <= k < |os.terms| => os.terms[k].line.net + os.terms[k].line.tax)
  }

  /** What the order's lines come to together, tax included. */
  function OrderTotal(os: OrderSetting): int { Sum(LineTotals(os)) }

  /** The order as a change of its `k`th term sees it. */
  function SettingOf(os: OrderSetting, k: nat): Setting
    requires k < |os.terms|
  {
    var t := os.terms[k];
    Setting(t.line, OrderTotal(os) - t.line.net - t.line.tax, t.termEnd, t.driver, t.periodMonths, os.receivable, t.deferred,
            t.dimensions, os.order, os.reader)
  }

  function BooksOf(ob: OrderBooks, k: nat): Books
    requires k < |ob.terms|
  {
    var t := ob.terms[k];
    Books(t.status, t.renewed, t.returned, t.amount, t.entries, ob.memos, ob.rows, t.billed, ob.changes, ob.balance)
  }

  /** The order once a change left its `k`th term's books so. */
  function PutBooks(ob: OrderBooks, k: nat, books: Books): OrderBooks
    requires k < |ob.terms|
  {
    var term := TermBook(books.status, books.renewed, books.returned, books.amount, books.entries, books.billed);
    OrderBooks(ob.terms[k := term], books.memos, books.rows, books.changes, books.balance)
  }

  // ─── The moves ────────────────────────────────────────────────────────────

  /** A change of a term is approved; money is recorded on a row; or a row is invoiced, each line billing its part. */
  datatype Step =
    | Approve(term: nat, request: Request, id: nat, value: int, first: nat)
    | Pay(row: nat, amount: int)
    | Invoice(row: nat, document: string, parts: seq<int>)

  /** A row that still bills takes money, an uninvoiced one no more than it bills. */
  predicate Payable(ob: OrderBooks, i: nat, amount: int) {
    && i < |ob.rows| && amount > 0 && !ob.rows[i].status.Canceled? && !ob.rows[i].status.WrittenOff?
    && (UninvoicedRow(ob.rows[i]) ==> ob.rows[i].paid + amount <= ob.rows[i].amount)
  }

  function PaidRow(row: Row, amount: int): Row {
    var paid := row.(paid := row.paid + amount);
    if row.document != "" && paid.paid + paid.credited >= paid.amount then paid.(status := Billing.Paid) else paid
  }

  /** An instalment bills each line no more than its changes leave it to bill. */
  predicate Invoiceable(os: OrderSetting, ob: OrderBooks, i: nat, document: string, parts: seq<int>) {
    && i < |ob.rows| && UninvoicedRow(ob.rows[i]) && document != "" && |parts| == |ob.terms| == |os.terms|
    && forall k :: 0 <= k < |parts| ==> Fits(os.terms[k].line, ob, ob.terms[k].billed + parts[k])
  }

  predicate Fits(line: OrderLine, ob: OrderBooks, billed: int) { billed <= line.net - Reduced(ob.changes, line.id) }

  function Billed(ob: OrderBooks, parts: seq<int>): (terms: seq<TermBook>)
    requires |parts| == |ob.terms|
    ensures |terms| == |ob.terms|
  {
    seq(|parts|, k requires 0 <= k < |parts| => ob.terms[k].(billed := ob.terms[k].billed + parts[k]))
  }

  /** The order after a step; one that is refused leaves it as it was. */
  function After(os: OrderSetting, ob: OrderBooks, step: Step): OrderBooks {
    match step
    case Approve(k, request, id, value, first) =>
      if k >= |os.terms| || k >= |ob.terms| then ob
      else
        var result := ApprovedOf(SettingOf(os, k), BooksOf(ob, k), request, id, value, first);
        if result.Ok? then PutBooks(ob, k, result.value) else ob
    case Pay(i, amount) =>
      if Payable(ob, i, amount) then ob.(rows := ob.rows[i := PaidRow(ob.rows[i], amount)], balance := ob.balance - amount) else ob
    case Invoice(i, document, parts) =>
      if Invoiceable(os, ob, i, document, parts)
      then ob.(rows := ob.rows[i := ob.rows[i].(status := Billing.Invoiced, document := document)], terms := Billed(ob, parts))
      else ob
  }

  predicate FreshStep(ob: OrderBooks, step: Step) { step.Approve? ==> Fresh(ob.changes, step.id) }

  // ─── What every step keeps ────────────────────────────────────────────────

  predicate DistinctLines(os: OrderSetting) {
    forall j, k :: 0 <= j < k < |os.terms| ==> os.terms[j].line.id != os.terms[k].line.id
  }

  /** The `k`th line is named by a change. */
  predicate IsLine(os: OrderSetting, id: nat) { exists k :: 0 <= k < |os.terms| && os.terms[k].line.id == id }

  /** The rows bill what the lines come to less what changes took off the schedule, and every line and term holds what
      its own changes leave it. */
  predicate AllSound(os: OrderSetting, ob: OrderBooks) {
    && |ob.terms| == |os.terms| && DistinctLines(os)
    && OrderSound(OrderTotal(os), ob.rows, ob.changes)
    && (forall c :: c in ob.changes ==> IsLine(os, c.line))
    && forall k :: 0 <= k < |os.terms| ==> TermSound(os.terms[k].line, BooksOf(ob, k))
  }

  lemma ViewSound(os: OrderSetting, ob: OrderBooks, k: nat)
    requires AllSound(os, ob) && k < |os.terms|
    ensures Sound(SettingOf(os, k), BooksOf(ob, k))
  {
    assert TermSound(os.terms[k].line, BooksOf(ob, k));
    hide TermSound, OrderSound;
  }

  /** A change of one line's term leaves the other terms what their own changes leave them. */
  lemma ApproveKeeps(os: OrderSetting, ob: OrderBooks, step: Step)
    requires AllSound(os, ob) && step.Approve? && FreshStep(ob, step) && CreditMemo.ReadsDecimals(os.reader)
    ensures AllSound(os, After(os, ob, step))
  {
    var k := step.term;
    if k < |os.terms| {
      var setting, books := SettingOf(os, k), BooksOf(ob, k);
      var result := ApprovedOf(setting, books, step.request, step.id, step.value, step.first);
      if result.Ok? {
        ViewSound(os, ob, k);
        ApprovalKeepsSound(setting, books, step.request, step.id, step.value, step.first);
        ApprovalSteps(setting, books, step.request, step.id, step.value, step.first);
        hide Sound, ApprovedOf, CheckOf, Stamp;
        var own := Stamp(setting, books, CheckOf(setting, books, step.request, step.id).value, step.id, step.value);
        StampLine(setting, books, CheckOf(setting, books, step.request, step.id).value, step.id, step.value);
        PutKeeps(os, ob, k, result.value, own);
      }
    }
  }

  lemma StampLine(setting: Setting, books: Books, checked: Checked, id: nat, value: int)
    ensures Stamp(setting, books, checked, id, value).line == setting.line.id
  {
  }

  lemma PutKeeps(os: OrderSetting, ob: OrderBooks, k: nat, books: Books, own: Approved)
    requires AllSound(os, ob) && k < |os.terms| && Sound(SettingOf(os, k), books)
    requires own.line == os.terms[k].line.id && books.changes == ob.changes + [own]
    ensures AllSound(os, PutBooks(ob, k, books))
  {
    var after := PutBooks(ob, k, books);
    TotalsSnoc(ob.changes, own);
    SoundParts(SettingOf(os, k), books);
    hide OrderSound, Recognition.Takes, Reduced;
    assert IsLine(os, own.line);
    forall j | 0 <= j < |os.terms| ensures TermSound(os.terms[j].line, BooksOf(after, j)) {
      assert TermSound(os.terms[j].line, BooksOf(ob, j));
      if j == k { SameTerm(os.terms[j].line, books, BooksOf(after, j)); }
    }
  }

  lemma SoundParts(setting: Setting, books: Books)
    requires Sound(setting, books)
    ensures OrderSound(Total(setting), books.rows, books.changes) && TermSound(setting.line, books)
  {
  }

  lemma SameTerm(line: OrderLine, a: Books, b: Books)
    requires TermSound(line, a) && a.amount == b.amount && a.billed == b.billed && a.entries == b.entries && a.changes == b.changes
    ensures TermSound(line, b)
  {
  }

  /** A row that changes neither what it bills nor whether it still does. */
  lemma RowKeeps(total: int, rows: seq<Row>, changes: seq<Approved>, i: nat, row: Row)
    requires OrderSound(total, rows, changes) && i < |rows| && RowSound(row) && row.id == rows[i].id
    requires row.amount == rows[i].amount && (row.status.Canceled? <==> rows[i].status.Canceled?)
    ensures OrderSound(total, rows[i := row], changes)
  {
    LiveUpdate(rows, i, row);
  }

  lemma PayKeeps(os: OrderSetting, ob: OrderBooks, i: nat, amount: int)
    requires AllSound(os, ob) && Payable(ob, i, amount)
    ensures AllSound(os, After(os, ob, Pay(i, amount)))
  {
    assert RowSound(ob.rows[i]);
    RowKeeps(OrderTotal(os), ob.rows, ob.changes, i, PaidRow(ob.rows[i], amount));
    hide OrderSound, Recognition.Takes, Reduced;
    var after := After(os, ob, Pay(i, amount));
    forall k | 0 <= k < |os.terms| ensures TermSound(os.terms[k].line, BooksOf(after, k)) {
      SameTerm(os.terms[k].line, BooksOf(ob, k), BooksOf(after, k));
    }
  }

  lemma InvoiceKeeps(os: OrderSetting, ob: OrderBooks, i: nat, document: string, parts: seq<int>)
    requires AllSound(os, ob) && Invoiceable(os, ob, i, document, parts)
    ensures AllSound(os, After(os, ob, Invoice(i, document, parts)))
  {
    assert RowSound(ob.rows[i]);
    RowKeeps(OrderTotal(os), ob.rows, ob.changes, i, ob.rows[i].(status := Billing.Invoiced, document := document));
    hide OrderSound, Recognition.Takes, Reduced;
    var after := After(os, ob, Invoice(i, document, parts));
    forall k | 0 <= k < |os.terms| ensures TermSound(os.terms[k].line, BooksOf(after, k)) {
      assert TermSound(os.terms[k].line, BooksOf(ob, k)) && Fits(os.terms[k].line, ob, ob.terms[k].billed + parts[k]);
    }
  }

  lemma StepKeepsSound(os: OrderSetting, ob: OrderBooks, step: Step)
    requires AllSound(os, ob) && FreshStep(ob, step) && CreditMemo.ReadsDecimals(os.reader)
    ensures AllSound(os, After(os, ob, step))
  {
    hide AllSound;
    match step
    case Approve(_, _, _, _, _) => ApproveKeeps(os, ob, step);
    case Pay(i, amount) => if Payable(ob, i, amount) { PayKeeps(os, ob, i, amount); }
    case Invoice(i, document, parts) => if Invoiceable(os, ob, i, document, parts) { InvoiceKeeps(os, ob, i, document, parts); }
  }

  ghost predicate Run(os: OrderSetting, states: seq<OrderBooks>, steps: seq<Step>) {
    && |states| == |steps| + 1
    && forall i :: 0 <= i < |steps| ==> FreshStep(states[i], steps[i]) && states[i + 1] == After(os, states[i], steps[i])
  }

  /** Whatever is asked for, paid and invoiced, on whichever line and in whatever order, the order stays sound. */
  lemma {:induction false} RunKeepsSound(os: OrderSetting, states: seq<OrderBooks>, steps: seq<Step>, i: nat)
    requires Run(os, states, steps) && i < |states|
    requires AllSound(os, states[0]) && CreditMemo.ReadsDecimals(os.reader)
    ensures AllSound(os, states[i])
  {
    hide AllSound, After;
    if i > 0 {
      RunKeepsSound(os, states, steps, i - 1);
      StepKeepsSound(os, states[i - 1], steps[i - 1]);
    }
  }

  // ─── The ledgers ──────────────────────────────────────────────────────────

  /** Each term's ledger nets to its amount, between its own deferred and revenue sides. */
  ghost predicate AllHold(ob: OrderBooks, deferred: seq<Recognition.Side>, revenue: seq<Recognition.Side>) {
    && |deferred| == |revenue| == |ob.terms|
    && forall k :: 0 <= k < |ob.terms| ==> RecognitionProofs.Holds(TermOf(BooksOf(ob, k)), deferred[k], revenue[k])
  }

  lemma StepKeepsLedgers(os: OrderSetting, ob: OrderBooks, step: Step, deferred: seq<Recognition.Side>, revenue: seq<Recognition.Side>)
    requires AllSound(os, ob) && FreshStep(ob, step) && CreditMemo.ReadsDecimals(os.reader) && AllHold(ob, deferred, revenue)
    ensures AllHold(After(os, ob, step), deferred, revenue)
  {
    hide RecognitionProofs.Holds, ApprovedOf, Sound;
    var after := After(os, ob, step);
    if step.Approve? && step.term < |os.terms| {
      var k := step.term;
      var setting, books := SettingOf(os, k), BooksOf(ob, k);
      ViewSound(os, ob, k);
      hide AllSound;
      if ApprovedOf(setting, books, step.request, step.id, step.value, step.first).Ok? {
        ApprovalKeepsLedger(setting, books, step.request, step.id, step.value, step.first, deferred[k], revenue[k]);
        forall j | 0 <= j < |after.terms| ensures RecognitionProofs.Holds(TermOf(BooksOf(after, j)), deferred[j], revenue[j]) {
          assert j != k ==> TermOf(BooksOf(after, j)) == TermOf(BooksOf(ob, j));
        }
      }
    } else {
      forall j | 0 <= j < |after.terms| ensures RecognitionProofs.Holds(TermOf(BooksOf(after, j)), deferred[j], revenue[j]) {
        assert TermOf(BooksOf(after, j)) == TermOf(BooksOf(ob, j));
      }
    }
  }

  /** Over every such run each term's recognition entries net to its current amount. */
  lemma {:induction false} RunKeepsLedgers(os: OrderSetting, states: seq<OrderBooks>, steps: seq<Step>, i: nat,
                                           deferred: seq<Recognition.Side>, revenue: seq<Recognition.Side>)
    requires Run(os, states, steps) && i < |states|
    requires AllSound(os, states[0]) && CreditMemo.ReadsDecimals(os.reader) && AllHold(states[0], deferred, revenue)
    ensures AllHold(states[i], deferred, revenue)
  {
    hide AllSound, AllHold, After;
    if i > 0 {
      RunKeepsLedgers(os, states, steps, i - 1, deferred, revenue);
      RunKeepsSound(os, states, steps, i - 1);
      StepKeepsLedgers(os, states[i - 1], steps[i - 1], deferred, revenue);
    }
  }

  // ─── What the instalments bill of each line ───────────────────────────────

  function Lowered(os: OrderSetting, ob: OrderBooks, k: nat): Result<CreditMemo.SlicedLine, CreditMemo.Overreach>
    requires k < |os.terms|
  {
    CreditMemo.Lowered(Sliced(os.terms[k].line), LineReductions(ob.changes))
  }

  /** A line can still be sliced for an invoice exactly when its changes' taxes together are no more than its tax:
      each is rounded by itself, so they may come to more. Their nets together always fit. */
  lemma InvoicedExactlyWhen(os: OrderSetting, ob: OrderBooks, k: nat)
    requires AllSound(os, ob) && k < |os.terms| && ob.terms[k].amount >= 0
    ensures var line, mine := os.terms[k].line, CreditMemo.Of(LineReductions(ob.changes), os.terms[k].line.id);
            && (Lowered(os, ob, k).Ok? <==> CreditMemo.TaxOf(mine) <= line.tax)
            && (Lowered(os, ob, k).Ok? ==>
                  Lowered(os, ob, k).value.net + Lowered(os, ob, k).value.tax == line.net + line.tax - ScheduledOn(ob.changes, line.id))
  {
    assert TermSound(os.terms[k].line, BooksOf(ob, k));
    ReductionTotals(ob.changes, os.terms[k].line.id);
  }

  /** What each line comes to less what its changes took off the schedule. */
  function LeftOver(os: OrderSetting, changes: seq<Approved>): (left: seq<int>)
    ensures |left| == |os.terms|
  {
    seq(|os.terms|, k requires 0 <= k < |os.terms| => LineTotals(os)[k] - ScheduledOn(changes, os.terms[k].line.id))
  }

  lemma {:induction false} LeftOverSum(os: OrderSetting, changes: seq<Approved>)
    requires DistinctLines(os) && forall c :: c in changes ==> IsLine(os, c.line)
    ensures Sum(LeftOver(os, changes)) == OrderTotal(os) - AmountChangeProofs.Scheduled(changes)
    decreases changes
  {
    if changes == [] {
      assert LeftOver(os, []) == LineTotals(os);
    } else {
      var c, rest := changes[0], changes[1..];
      assert c in changes && forall d :: d in rest ==> d in changes;
      LeftOverSum(os, rest);
      var k :| 0 <= k < |os.terms| && os.terms[k].line.id == c.line;
      SumUpdate(LeftOver(os, rest), k, LeftOver(os, rest)[k] - c.schedule);
      assert LeftOver(os, changes) == LeftOver(os, rest)[k := LeftOver(os, rest)[k] - c.schedule];
    }
  }

  function LoweredTotals(os: OrderSetting, ob: OrderBooks): (totals: seq<int>)
    requires forall k :: 0 <= k < |os.terms| ==> Lowered(os, ob, k).Ok?
    ensures |totals| == |os.terms|
  {
    seq(|os.terms|, k requires 0 <= k < |os.terms| => Lowered(os, ob, k).value.net + Lowered(os, ob, k).value.tax)
  }

  /** When every line can be sliced, the live instalments bill just what the lowered lines come to together. */
  lemma LoweredLinesTie(os: OrderSetting, ob: OrderBooks)
    requires AllSound(os, ob) && ob.rows != [] && forall k :: 0 <= k < |os.terms| ==> ob.terms[k].amount >= 0
    requires forall k :: 0 <= k < |os.terms| ==> Lowered(os, ob, k).Ok?
    ensures Sum(LoweredTotals(os, ob)) == Live(ob.rows)
  {
    forall k | 0 <= k < |os.terms| ensures LoweredTotals(os, ob)[k] == LeftOver(os, ob.changes)[k] { InvoicedExactlyWhen(os, ob, k); }
    LeftOverSum(os, ob.changes);
    assert LoweredTotals(os, ob) == LeftOver(os, ob.changes);
  }
}
