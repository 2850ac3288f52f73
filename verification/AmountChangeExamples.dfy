/** Two orders on which an amount change does not do what it promises, each reached from sound books: tax rounded
    change by change comes to more than the line's, and a schedule that starts negative is refused by accounting. */
module AmountChangeExamples {
  import opened Outcomes
  import opened Rounding
  import opened Sorting
  import opened AmountChange
  import opened AmountChangeProofs
  import opened Decimals
  import Recognition
  import RecognitionProofs
  import Billing
  import BillingProofs
  import CreditMemo

  // ─── The order ────────────────────────────────────────────────────────────

  const DEFERRED := Recognition.Side(1, multiset{})
  const REVENUE := Recognition.Side(2, multiset{})

  /** A line of 8 with 4 of tax, its only line. */
  const LINE := OrderLine(1, 8, 4, [], 0, [])

  function ReadWhole(s: string): Option<int> { if s != "" && AllDigits(s) then Some(Read(s)) else None }

  function SettingWith(driver: Recognition.Driver): Setting {
    Setting(LINE, 0, 100, Some(driver), 1, 3, 1, multiset{}, "S-1", ReadWhole)
  }

  /** One instalment, not invoiced, that bills `amount`. */
  function OneRow(amount: int): Row { Row(1, 1, 0, amount, 0, 0, Billing.Scheduled, "") }

  /** The whole term is still to be recognised, on day 10, and the whole line still to be billed. */
  const START := Books(Active, false, false, 8, [RecognitionProofs.Staged(1, 10, 8, DEFERRED, REVENUE)], [], [OneRow(12)], 0, [], 12)

  /** Lowered by 1 on day 1. */
  function Cut(next: int): Request { Request(next, None, false, 1, true) }

  lemma ReaderReads()
    ensures CreditMemo.ReadsDecimals(ReadWhole)
  {
    forall n: nat ensures ReadWhole(Print(n)) == Some(n) { ReadPrinted(n); }
  }

  // ─── One cut ──────────────────────────────────────────────────────────────

  /** `n` cuts of 1 were approved, each taking 1 and 1 of tax off the instalment. */
  predicate CutChanges(changes: seq<Approved>, n: nat) {
    |changes| == n && forall c :: c in changes ==> c.id < n && c.line == 1 && c.reduced == 1 && c.schedule == 2 && c.memo == 0
  }

  /** Nothing is recognised before day 10, and nothing is in a batch. */
  predicate StillStaged(entries: seq<Recognition.Entry>) {
    forall e :: e in entries ==> e.day >= 10 && e.pending && !e.batched
  }

  ghost predicate Cutting(setting: Setting, books: Books, n: nat) {
    && books.status.Active? && !books.renewed && !books.returned
    && books.amount == 8 - n && books.rows == [OneRow(12 - 2 * n)] && books.billed == 0
    && CutChanges(books.changes, n) && StillStaged(books.entries)
    && Sound(setting, books) && RecognitionProofs.Holds(TermOf(books), DEFERRED, REVENUE)
  }

  lemma NoneBefore(entries: seq<Recognition.Entry>, day: int)
    requires forall e :: e in entries ==> e.day >= day
    ensures Recognition.Before(entries, day) == []
  {
    if entries != [] {
      assert entries[0] in entries;
      NoneBefore(entries[1..], day);
    }
  }

  lemma PlanFromNothing(input: Recognition.Input, targets: seq<Recognition.Entry>, after: Recognition.Release)
    requires 0 < input.next < input.current && after == Recognition.ReleaseOf(targets)
    requires after.Release? && after.amount == input.current && targets != []
    requires input.driver.Some?
    requires var slices := input.driver.value(input.next, targets[0].day, input.termEnd, input.periodMonths);
             Recognition.Scheduled(slices) == input.next
    ensures Recognition.ReleaseOf([]) == Recognition.Nothing
    ensures var reduction := input.current - input.next;
            var result := Recognition.PlanFrom(input, reduction, [], targets, Recognition.Nothing, after);
            && result.Ok? && result.value.reduction == reduction && result.value.catchUp == 0
            && result.value.catchUpEntry.None? && result.value.remaining == input.next
  {
    Recognition.NothingMeaning([]);
    RoundDivExact(0, input.current);
    hide RoundDiv, Recognition.ReleaseOf;
  }

  /** A cut before anything was recognised is accepted, takes nothing back and reschedules all that is left. */
  lemma PlanOfCut(term: RecognitionProofs.Term, driver: Recognition.Driver, next: int)
    requires RecognitionProofs.Holds(term, DEFERRED, REVENUE) && StillStaged(term.entries) && 0 < next < term.amount
    requires forall start :: Recognition.Scheduled(driver(next, start, 100, 1)) == next
    ensures var input := RecognitionProofs.InputOf(term, RecognitionProofs.Change(1, next, 100, Some(driver), 1));
            var result := Recognition.PlanAmountChange(input);
            && result.Ok? && result.value.reduction == term.amount - next && result.value.catchUp == 0
            && result.value.catchUpEntry.None? && result.value.remaining == next
  {
    var input := RecognitionProofs.InputOf(term, RecognitionProofs.Change(1, next, 100, Some(driver), 1));
    var targets := RecognitionProofs.Targets(term.entries, 1);
    NoneBefore(term.entries, 1);
    WholeRelease(term, targets);
    PlanFromNothing(input, targets, Recognition.ReleaseOf(targets));
    hide Recognition.PlanFrom, Recognition.ReleaseOf, RecognitionProofs.Paired, Recognition.Takes, Recognition.ByDate, Recognition.From;
  }

  lemma WholeRelease(term: RecognitionProofs.Term, targets: seq<Recognition.Entry>)
    requires RecognitionProofs.Holds(term, DEFERRED, REVENUE) && StillStaged(term.entries)
    requires targets == RecognitionProofs.Targets(term.entries, 1)
    ensures targets != [] && !Recognition.InBatch(targets)
    ensures Recognition.ReleaseOf(targets).Release? && Recognition.ReleaseOf(targets).amount == term.amount
  {
    hide Recognition.ReleaseOf, Recognition.ByDate, Recognition.From;
    NoneBefore(term.entries, 1);
    RecognitionProofs.TargetsMeaning(term.entries, 1, REVENUE);
    RecognitionProofs.SplitReleases(term.entries, 1, DEFERRED, REVENUE);
    RecognitionProofs.PairedRelease(targets, DEFERRED, REVENUE);
  }

  lemma TaxOfCut()
    ensures TaxReduction(LINE, 1) == 1
  {
    assert [4][1..] == [];
    assert Shares([4], 1, 8) == RoundDiv(4 * 1, 8) + Shares([], 1, 8);
    RoundDivUnique(4, 8, 1);
  }

  /** The one instalment takes the whole of a cut it can bear. */
  lemma BilledCut(amount: int, balance: int)
    requires amount > 2
    ensures Billing.ReductionOf(Billing.Input(2, AllFacts([OneRow(amount)]), balance, None, false))
         == Ok(Billing.Plan([Billing.Change(1, 1, 0, amount, amount - 2)], 0, [], 0, 0))
  {
    var row := Facts(OneRow(amount));
    var rows := [row];
    assert AllFacts([OneRow(amount)]) == rows && rows[1..] == [];
    assert Billing.UninvoicedOnly(rows) == rows;
    assert SortBy(rows[1..], Billing.DueFirst) == [];
    assert Billing.InDueOrder(rows) == rows;
    var amounts := Billing.Amounts(rows);
    assert amounts == [amount] && Billing.Weights(amounts) == [amount];
    assert [amount][1..] == [] && Sum([amount]) == amount;
    BillingProofs.SpreadBounds(2, amounts);
    var after := Billing.ProRata(2, amounts);
    assert after[1..] == [] && Sum(after) == after[0];
    assert after == [amount - 2];
    var changes := Billing.ChangesOf(rows, after);
    assert changes == [Billing.Change(1, 1, 0, amount, amount - 2)] && changes[1..] == [];
    assert Billing.Cut(changes) == 2;
  }

  lemma {:induction false} CutsReduce(changes: seq<Approved>)
    requires forall c :: c in changes ==> c.line == 1 && c.reduced == 1
    ensures Reduced(changes, 1) == |changes|
  {
    if changes != [] {
      assert changes[0] in changes && forall c :: c in changes[1..] ==> c in changes;
      CutsReduce(changes[1..]);
    }
  }

  /** How the cut from `8 - n` lands: all on the instalment, without a memo. */
  function CutPlan(n: nat): Billing.Plan { Billing.Plan([Billing.Change(1, 1, 0, 12 - 2 * n, 10 - 2 * n)], 0, [], 0, 0) }

  function CutChecked(plan: Recognition.Plan, n: nat): Checked { Checked(plan, 2, CutPlan(n), 2, CreditMemo.Split(0, 0, 0)) }

  ghost predicate Schedules(driver: Recognition.Driver, amount: int) {
    forall start :: Recognition.Scheduled(driver(amount, start, 100, 1)) == amount
  }

  lemma GuardedCut(setting: Setting, books: Books, plan: Recognition.Plan, n: nat, id: nat)
    requires setting.line == LINE && n <= 4 && books.rows == [OneRow(12 - 2 * n)] && books.billed == 0
    requires CutChanges(books.changes, n) && Fresh(books.changes, id) && plan.reduction == 1
    ensures Guarded(setting, books, id, plan, 2, CutPlan(n)) == Ok(CutChecked(plan, n))
  {
    FreshTotals(books.changes, 1, id);
    CutsReduce(books.changes);
    var change := Billing.Change(1, 1, 0, 12 - 2 * n, 10 - 2 * n);
    assert CutPlan(n).instalments == [change] && [change][1..] == [];
    assert forall c :: c in [change] ==> c == change;
    assert !LowersBelowPaid(books.rows, [change]);
    assert Billing.Cut([change]) == 2;
    assert CreditMemo.SplitCreditMemo(0, 1, 2) == Ok(CreditMemo.Split(0, 0, 0));
  }

  lemma CheckOfCut(driver: Recognition.Driver, books: Books, n: nat, id: nat) returns (plan: Recognition.Plan)
    requires Cutting(SettingWith(driver), books, n) && n <= 4 && Fresh(books.changes, id) && Schedules(driver, 7 - n)
    ensures Recognition.PlanAmountChange(RecognitionInput(SettingWith(driver), books, Cut(7 - n))) == Ok(plan)
    ensures plan.reduction == 1 && plan.catchUp == 0 && plan.catchUpEntry.None? && plan.remaining == 7 - n
    ensures CheckOf(SettingWith(driver), books, Cut(7 - n), id) == Ok(CutChecked(plan, n))
  {
    hide Recognition.PlanAmountChange, Billing.ReductionOf, TaxReduction, Guarded, RecognitionProofs.Holds, Sound, AllFacts,
      CutPlan, Fresh, Schedules, CutChanges, StillStaged;
    var setting := SettingWith(driver);
    plan := AcceptedCut(driver, books, n);
    TaxOfCut();
    BilledCut(12 - 2 * n, books.balance + OwnReduction(books.changes, id));
    CutPlanIs(n);
    GuardedCut(setting, books, plan, n, id);
  }

  lemma CutPlanIs(n: nat)
    ensures CutPlan(n) == Billing.Plan([Billing.Change(1, 1, 0, 12 - 2 * n, 12 - 2 * n - 2)], 0, [], 0, 0)
  {
  }

  lemma AcceptedCut(driver: Recognition.Driver, books: Books, n: nat) returns (plan: Recognition.Plan)
    requires Cutting(SettingWith(driver), books, n) && n <= 4 && Schedules(driver, 7 - n)
    ensures Recognition.PlanAmountChange(RecognitionInput(SettingWith(driver), books, Cut(7 - n))) == Ok(plan)
    ensures plan.reduction == 1 && plan.catchUp == 0 && plan.catchUpEntry.None? && plan.remaining == 7 - n
  {
    hide Recognition.PlanAmountChange, RecognitionProofs.Holds, Sound, StillStaged;
    PlanOfCut(TermOf(books), driver, 7 - n);
    var input := RecognitionInput(SettingWith(driver), books, Cut(7 - n));
    assert input == RecognitionProofs.InputOf(TermOf(books), RecognitionProofs.Change(1, 7 - n, 100, Some(driver), 1));
    plan := Recognition.PlanAmountChange(input).value;
  }

  // ─── Five cuts ────────────────────────────────────────────────────────────

  function Next(setting: Setting, books: Books, n: nat): Result<Books, Refusal> {
    ApprovedOf(setting, books, Cut(7 - n), n, 1, 0)
  }

  lemma OneSliceSchedules(amount: int)
    ensures Schedules(RecognitionProofs.OneSlice, amount)
  {
    forall start ensures Recognition.Scheduled(RecognitionProofs.OneSlice(amount, start, 100, 1)) == amount {
      assert [Recognition.Slice(start, amount)][1..] == [];
    }
  }

  lemma RowsOfCut(n: nat)
    requires n <= 4
    ensures LowerAll([OneRow(12 - 2 * n)], CutPlan(n).instalments) == Ok([OneRow(10 - 2 * n)])
  {
    var change := Billing.Change(1, 1, 0, 12 - 2 * n, 10 - 2 * n);
    assert CutPlan(n).instalments == [change] && [change][1..] == [];
    var rows := [OneRow(12 - 2 * n)];
    assert IndexOf(rows, 1) == 0;
    assert rows[0 := LowerRow(rows[0], 10 - 2 * n)] == [OneRow(10 - 2 * n)];
  }

  /** What an approved cut writes. */
  lemma WrittenCut(setting: Setting, books: Books, plan: Recognition.Plan, own: Approved, n: nat)
    requires books.rows == [OneRow(12 - 2 * n)] && n <= 4
    requires WrittenOf(setting, books, Cut(7 - n), own, CutChecked(plan, n), 0).Ok?
    ensures WrittenOf(setting, books, Cut(7 - n), own, CutChecked(plan, n), 0).value
         == books.(amount := 7 - n, entries := books.entries + Numbered(Drafts(plan), 0), rows := [OneRow(10 - 2 * n)])
  {
    hide LowerAll, Recognition.Takes, Drafts, Numbered;
    RowsOfCut(n);
    assert books.memos + [] == books.memos;
  }

  lemma NumberedStaged(entries: seq<Recognition.Entry>, drafts: seq<Recognition.Entry>)
    requires StillStaged(entries) && StillStaged(drafts)
    ensures StillStaged(entries + Numbered(drafts, 0))
  {
    var booked := Numbered(drafts, 0);
    forall e | e in booked ensures e.day >= 10 && e.pending && !e.batched {
      var k :| 0 <= k < |booked| && booked[k] == e;
      assert drafts[k] in drafts;
    }
  }

  lemma {:induction false} OffsetsStaged(targets: seq<Recognition.Entry>)
    requires forall e :: e in targets ==> e.day >= 10
    ensures StillStaged(Recognition.Offsets(targets))
  {
    if targets != [] {
      assert targets[0] in targets && forall e :: e in targets[1..] ==> e in targets;
      OffsetsStaged(targets[1..]);
    }
  }

  lemma CuttingParts(setting: Setting, books: Books, n: nat)
    requires Cutting(setting, books, n)
    ensures StillStaged(books.entries) && RecognitionProofs.Describes(books.entries, 8 - n, DEFERRED, REVENUE)
  {
  }

  lemma RespreadStaged(input: Recognition.Input, plan: Recognition.Plan)
    requires input.driver == Some(RecognitionProofs.OneSlice) && StillStaged(input.entries)
    requires RecognitionProofs.Describes(input.entries, input.current, DEFERRED, REVENUE)
    requires Recognition.PlanAmountChange(input) == Ok(plan) && plan.remaining >= 0
    ensures StillStaged(plan.respread) && Recognition.Takes(plan.respread)
  {
    RecognitionProofs.ReplacedRelease(input, DEFERRED, REVENUE);
    RecognitionProofs.OneSliceSchedule(input, DEFERRED, REVENUE);
    var slices := RecognitionProofs.PlanSlices(input, DEFERRED, REVENUE);
    RecognitionProofs.TargetsMeaning(input.entries, input.effective, REVENUE);
    hide Recognition.PlanAmountChange, RecognitionProofs.Describes, Recognition.Takes, Recognition.ReleaseOf, RecognitionProofs.Targets;
    if slices != [] {
      var t := RecognitionProofs.Targets(input.entries, input.effective)[0];
      assert t in RecognitionProofs.Targets(input.entries, input.effective);
      assert slices == [Recognition.Slice(t.day, plan.remaining)] && slices[1..] == [];
      RecognitionProofs.OneSliceRespread(slices[0], DEFERRED, REVENUE);
    }
  }

  /** A cut's drafts are dated like what they replace. */
  lemma DraftsStaged(input: Recognition.Input, plan: Recognition.Plan)
    requires input.driver == Some(RecognitionProofs.OneSlice) && StillStaged(input.entries)
    requires RecognitionProofs.Describes(input.entries, input.current, DEFERRED, REVENUE)
    requires Recognition.PlanAmountChange(input) == Ok(plan) && plan.remaining >= 0 && plan.catchUpEntry.None?
    ensures StillStaged(Drafts(plan)) && Recognition.Takes(plan.respread)
  {
    hide Recognition.PlanAmountChange, RecognitionProofs.Describes, Recognition.Takes;
    RecognitionProofs.AcceptedPlan(input, DEFERRED, REVENUE);
    RespreadStaged(input, plan);
    RecognitionProofs.TargetsMeaning(input.entries, input.effective, REVENUE);
    OffsetsStaged(plan.targets);
  }

  /** The books once a cut is approved. */
  function CutBooks(books: Books, own: Approved, plan: Recognition.Plan, n: nat): Books {
    Saved(books, own).(amount := 7 - n, entries := books.entries + Numbered(Drafts(plan), 0), rows := [OneRow(10 - 2 * n)])
  }

  lemma CutApplicable(setting: Setting, books: Books, plan: Recognition.Plan, n: nat)
    requires plan.reduction == 1 && plan.catchUp == 0 && Recognition.Takes(plan.respread)
    ensures Applicable(setting, books, Cut(7 - n), CutChecked(plan, n), 1)
  {
  }

  lemma CutStamp(setting: Setting, books: Books, plan: Recognition.Plan, n: nat)
    requires setting.line == LINE
    ensures Stamp(setting, books, CutChecked(plan, n), n, 1) == Approved(n, 1, 1, 2, 0, "")
  {
  }

  lemma CuttingBooks(setting: Setting, books: Books, n: nat)
    requires Cutting(setting, books, n)
    ensures Sound(setting, books) && books.rows == [OneRow(12 - 2 * n)] && Fresh(books.changes, n)
    ensures RecognitionProofs.Holds(TermOf(books), DEFERRED, REVENUE)
  {
  }

  lemma CutApproved(books: Books, n: nat) returns (plan: Recognition.Plan)
    requires n <= 4 && Cutting(SettingWith(RecognitionProofs.OneSlice), books, n)
    ensures StillStaged(Drafts(plan))
    ensures Next(SettingWith(RecognitionProofs.OneSlice), books, n) == Ok(CutBooks(books, Approved(n, 1, 1, 2, 0, ""), plan, n))
  {
    hide CheckOf, Recognition.PlanAmountChange, RecognitionProofs.Holds, Sound, WrittenOf, ApprovedOf, Recognition.Takes, Drafts,
      Numbered, Stamp, Applicable, CutPlan, StillStaged, Cutting, Fresh, RecognitionProofs.OneSlice, CreditMemo.ReadsDecimals,
      Schedules, RecognitionProofs.Describes;
    var setting, request := SettingWith(RecognitionProofs.OneSlice), Cut(7 - n);
    ReaderReads();
    OneSliceSchedules(7 - n);
    CuttingBooks(setting, books, n);
    plan := CheckOfCut(RecognitionProofs.OneSlice, books, n, n);
    CuttingParts(setting, books, n);
    BooksAmount(setting, books, n);
    DraftsStaged(RecognitionInput(setting, books, request), plan);
    CutApplicable(setting, books, plan, n);
    ApprovedExactlyWhen(setting, books, request, n, 1, 0);
    ApprovedIs(setting, books, request, n, 1, 0);
    CutStamp(setting, books, plan, n);
    WrittenCut(setting, Saved(books, Approved(n, 1, 1, 2, 0, "")), plan, Approved(n, 1, 1, 2, 0, ""), n);
  }

  lemma BooksAmount(setting: Setting, books: Books, n: nat)
    requires Cutting(setting, books, n)
    ensures books.amount == 8 - n
  {
  }

  lemma CutOnce(books: Books, n: nat)
    requires n <= 4 && Cutting(SettingWith(RecognitionProofs.OneSlice), books, n)
    ensures Next(SettingWith(RecognitionProofs.OneSlice), books, n).Ok?
    ensures Cutting(SettingWith(RecognitionProofs.OneSlice), Next(SettingWith(RecognitionProofs.OneSlice), books, n).value, n + 1)
  {
    hide CheckOf, RecognitionProofs.Holds, Sound, ApprovedOf, Drafts, Numbered, StillStaged, Fresh, RecognitionProofs.OneSlice,
      CreditMemo.ReadsDecimals;
    var setting, request := SettingWith(RecognitionProofs.OneSlice), Cut(7 - n);
    ReaderReads();
    CuttingBooks(setting, books, n);
    var plan := CutApproved(books, n);
    ApprovalKeepsSound(setting, books, request, n, 1, 0);
    ApprovalKeepsLedger(setting, books, request, n, 1, 0, DEFERRED, REVENUE);
    NumberedStaged(books.entries, Drafts(plan));
    CutChangesSnoc(books.changes, n);
  }

  lemma CutChangesSnoc(changes: seq<Approved>, n: nat)
    requires CutChanges(changes, n)
    ensures CutChanges(changes + [Approved(n, 1, 1, 2, 0, "")], n + 1)
  {
  }

  lemma StartCutting(driver: Recognition.Driver)
    ensures Cutting(SettingWith(driver), START, 0)
  {
    var entry := RecognitionProofs.Staged(1, 10, 8, DEFERRED, REVENUE);
    RecognitionProofs.StagedNet(1, 10, 8, DEFERRED, REVENUE);
    assert [entry][1..] == [];
    assert Recognition.Net([entry], REVENUE) == 8;
    var rows := [OneRow(12)];
    assert LiveAmounts(rows) == [12] && [12][1..] == [];
    assert Live(rows) == 12;
  }

  lemma {:induction false} CutsTax(changes: seq<Approved>)
    requires forall c :: c in changes ==> c.line == 1 && c.reduced == 1 && c.schedule == 2 && c.memo == 0
    ensures CreditMemo.TaxOf(CreditMemo.Of(LineReductions(changes), 1)) == |changes|
  {
    if changes != [] {
      assert changes[0] in changes && forall c :: c in changes[1..] ==> c in changes;
      CutsTax(changes[1..]);
      assert CreditMemo.ScheduleShare(2, 0, 1) == Ok(CreditMemo.Split(2, 1, 1));
      var first, rest := CreditMemo.LineReduction(1, 1, 1), LineReductions(changes[1..]);
      assert LineReductions(changes) == [first] + rest && ([first] + rest)[1..] == rest;
      var mine := CreditMemo.Of(rest, 1);
      assert CreditMemo.Of([first] + rest, 1) == [first] + mine && ([first] + mine)[1..] == mine;
    }
  }

  /** Five approved cuts of 1 from a line of 8 with 4 of tax. Each takes half a cent of tax, rounded up to 1; after the
      fifth 5 was taken of the 4, and the 2 still on the instalment can no longer be invoiced. */
  lemma FiveCutsTakeTooMuchTax() returns (states: seq<Books>)
    ensures var setting := SettingWith(RecognitionProofs.OneSlice);
            && |states| == 6 && states[0] == START && Sound(setting, START)
            && RecognitionProofs.Holds(TermOf(START), DEFERRED, REVENUE)
            && (forall n :: 0 <= n < 5 ==> Next(setting, states[n], n) == Ok(states[n + 1]))
            && Live(states[5].rows) == 2 && Reduced(states[5].changes, 1) == 5 < LINE.net
            && CreditMemo.Lowered(Sliced(LINE), LineReductions(states[5].changes)) == Refused(CreditMemo.LoweredTooFar)
  {
    var setting := SettingWith(RecognitionProofs.OneSlice);
    StartCutting(RecognitionProofs.OneSlice);
    hide ApprovedOf, Sound, RecognitionProofs.Holds, RecognitionProofs.OneSlice;
    states := [START];
    CutAgain(states, 0);
    states := states + [Next(setting, states[0], 0).value];
    CutAgain(states, 1);
    states := states + [Next(setting, states[1], 1).value];
    CutAgain(states, 2);
    states := states + [Next(setting, states[2], 2).value];
    CutAgain(states, 3);
    states := states + [Next(setting, states[3], 3).value];
    CutAgain(states, 4);
    states := states + [Next(setting, states[4], 4).value];
    CutsTax(states[5].changes);
    CutsReduce(states[5].changes);
    assert LiveAmounts([OneRow(2)]) == [2] && [2][1..] == [];
  }

  lemma CutAgain(states: seq<Books>, n: nat)
    requires |states| == n + 1 && n <= 4 && Cutting(SettingWith(RecognitionProofs.OneSlice), states[n], n)
    ensures Next(SettingWith(RecognitionProofs.OneSlice), states[n], n).Ok?
    ensures Cutting(SettingWith(RecognitionProofs.OneSlice), Next(SettingWith(RecognitionProofs.OneSlice), states[n], n).value, n + 1)
  {
    CutOnce(states[n], n);
  }

  // ─── A schedule that starts negative ──────────────────────────────────────

  /** Twelve periods, split as the drivers split. */
  function EvenDriver(amount: int, start: int, end: int, months: int): (slices: seq<Recognition.Slice>)
    ensures |slices| == 12
  {
    seq(12, i requires 0 <= i < 12 => Recognition.Slice(start + i, RecognitionProofs.AllocateEvenly(amount, 12)[i]))
  }

  lemma {:induction false} ScheduledIsSum(slices: seq<Recognition.Slice>, amounts: seq<int>)
    requires |slices| == |amounts| && forall i :: 0 <= i < |slices| ==> slices[i].amount == amounts[i]
    ensures Recognition.Scheduled(slices) == Sum(amounts)
  {
    if slices != [] { ScheduledIsSum(slices[1..], amounts[1..]); }
  }

  lemma EvenSchedules(amount: nat)
    ensures Schedules(EvenDriver, amount)
  {
    RecognitionProofs.EvenSplitExactlyWhen(amount, 12);
    forall start ensures Recognition.Scheduled(EvenDriver(amount, start, 100, 1)) == amount {
      ScheduledIsSum(EvenDriver(amount, start, 100, 1), RecognitionProofs.AllocateEvenly(amount, 12));
    }
  }

  lemma SevenIsNotTaken(input: Recognition.Input, plan: Recognition.Plan)
    requires input.driver == Some(EvenDriver) && RecognitionProofs.Describes(input.entries, input.current, DEFERRED, REVENUE)
    requires Recognition.PlanAmountChange(input) == Ok(plan) && plan.remaining == 7
    ensures !Recognition.Takes(Drafts(plan))
  {
    hide Recognition.PlanAmountChange, Recognition.Takes, RecognitionProofs.Describes, RecognitionProofs.Targets, Recognition.ReleaseOf,
      RecognitionProofs.AllocateEvenly;
    var slices := RecognitionProofs.PlanTakenExactlyWhen(input, DEFERRED, REVENUE);
    RecognitionProofs.NewSchedule(input, DEFERRED, REVENUE);
    assert Recognition.Net(Recognition.Respread([], DEFERRED, REVENUE), REVENUE) == 0;
    assert slices != [];
    RecognitionProofs.EvenSplitCanGoNegative();
    assert slices[0].amount == -4 && slices[0] in slices;
    assert Drafts(plan) == RecognitionProofs.Posted(plan);
  }

  lemma RefusedByLedger(setting: Setting, books: Books, own: Approved, plan: Recognition.Plan, n: nat)
    requires CheckOf(setting, books, Cut(7 - n), own.id) == Ok(CutChecked(plan, n)) && !Recognition.Takes(Drafts(plan))
    requires plan.reduction == own.reduced && plan.catchUp == 0 && own.memo == 0
    ensures ApplyOf(setting, books, Cut(7 - n), own, 0) == Refused(LedgerRefuses)
  {
    hide CheckOf, Recognition.Takes, Drafts, LowerAll, CreditAll;
    assert Drafts(plan) + [] == Drafts(plan);
  }

  /** Cut from 8 to 7, which are to be recognised evenly over twelve periods: the check passes, the new schedule
      starts with minus 4, and accounting refuses the approval. */
  lemma NegativeScheduleIsRefused()
    ensures Sound(SettingWith(EvenDriver), START) && RecognitionProofs.Holds(TermOf(START), DEFERRED, REVENUE)
    ensures CheckOf(SettingWith(EvenDriver), START, Cut(7), 0).Ok?
    ensures ApprovedOf(SettingWith(EvenDriver), START, Cut(7), 0, 1, 0) == Refused(LedgerRefuses)
  {
    hide CheckOf, ApplyOf, Recognition.PlanAmountChange, RecognitionProofs.Holds, Sound, Recognition.Takes, Drafts, Stamp,
      EvenDriver, RecognitionProofs.Describes, Schedules, Cutting;
    var setting := SettingWith(EvenDriver);
    StartCutting(EvenDriver);
    EvenSchedules(7);
    CuttingBooks(setting, START, 0);
    var plan := CheckOfCut(EvenDriver, START, 0, 0);
    CuttingParts(setting, START, 0);
    SevenIsNotTaken(RecognitionInput(setting, START, Cut(7)), plan);
    CutStamp(setting, START, plan, 0);
    var own := Approved(0, 1, 1, 2, 0, "");
    CheckedAgain(setting, START, Cut(7), own);
    RefusedByLedger(setting, Saved(START, own), own, plan, 0);
  }
}
