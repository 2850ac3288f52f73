/** The recognition side of lowering a booked term's amount: net release of staged entries, the catch-up,
    the mirrored offsets and the re-spread (AmountChangePlan.ts, TermExtensionPlan.ts).
    Amounts are cents; days are integers; account and dimension ids are case-folded numbers. */
module Recognition {
  import opened Outcomes
  import opened Rounding
  import opened Sorting

  /** What a line posts to. Dimension order does not matter, so the pinned pairs are a multiset. */
  datatype Side = Side(account: nat, dimensions: multiset<(nat, nat)>)

  datatype Line = Line(side: Side, debit: int, credit: int)

  /** A journal entry, staged or drafted. A draft is Pending, unbatched and not numbered yet. */
  datatype Entry = Entry(number: nat, day: int, pending: bool, batched: bool, lines: seq<Line>)

  function Draft(day: int, lines: seq<Line>): Entry { Entry(0, day, true, false, lines) }

  // ─── Nets ─────────────────────────────────────────────────────────────────

  function LineNet(line: Line): int { line.credit - line.debit }

  /** Credits less debits that `lines` post to `side`. */
  function LinesNet(lines: seq<Line>, side: Side): int {
    if lines == [] then 0
    else (if lines[0].side == side then LineNet(lines[0]) else 0) + LinesNet(lines[1..], side)
  }

  function Net(entries: seq<Entry>, side: Side): int {
    if entries == [] then 0 else LinesNet(entries[0].lines, side) + Net(entries[1..], side)
  }

  function AllLines(entries: seq<Entry>): seq<Line> {
    if entries == [] then [] else entries[0].lines + AllLines(entries[1..])
  }

  lemma {:induction false} LinesNetConcat(a: seq<Line>, b: seq<Line>, side: Side)
    ensures LinesNet(a + b, side) == LinesNet(a, side) + LinesNet(b, side)
  {
    if a == [] {
      assert a + b == b;
    } else {
      LinesNetConcat(a[1..], b, side);
      assert (a + b)[1..] == a[1..] + b;
    }
  }

  lemma {:induction false} NetConcat(a: seq<Entry>, b: seq<Entry>, side: Side)
    ensures Net(a + b, side) == Net(a, side) + Net(b, side)
  {
    if a == [] {
      assert a + b == b;
    } else {
      NetConcat(a[1..], b, side);
      assert (a + b)[1..] == a[1..] + b;
    }
  }

  lemma {:induction false} NetIsOfAllLines(entries: seq<Entry>, side: Side)
    ensures Net(entries, side) == LinesNet(AllLines(entries), side)
  {
    if entries != [] {
      NetIsOfAllLines(entries[1..], side);
      LinesNetConcat(entries[0].lines, AllLines(entries[1..]), side);
    }
  }

  // ─── The net release ──────────────────────────────────────────────────────

  function PostLine(sides: map<Side, int>, line: Line): map<Side, int> {
    sides[line.side := (if line.side in sides then sides[line.side] else 0) + LineNet(line)]
  }

  function PostLines(sides: map<Side, int>, lines: seq<Line>): map<Side, int>
    decreases lines
  {
    if lines == [] then sides else PostLines(PostLine(sides, lines[0]), lines[1..])
  }

  lemma {:induction false} PostLinesConcat(sides: map<Side, int>, a: seq<Line>, b: seq<Line>)
    ensures PostLines(sides, a + b) == PostLines(PostLines(sides, a), b)
    decreases a
  {
    if a == [] {
      assert a + b == b;
    } else {
      PostLinesConcat(PostLine(sides, a[0]), a[1..], b);
      assert (a + b)[1..] == a[1..] + b;
    }
  }

  function NetAt(sides: map<Side, int>, side: Side): int { if side in sides then sides[side] else 0 }

  lemma {:induction false} PostLinesNets(sides: map<Side, int>, lines: seq<Line>, side: Side)
    ensures NetAt(PostLines(sides, lines), side) == NetAt(sides, side) + LinesNet(lines, side)
    decreases lines
  {
    if lines != [] { PostLinesNets(PostLine(sides, lines[0]), lines[1..], side); }
  }

  /** `Unclear` is the source's refusal; `Nothing` is its release of zero, whose sides no caller reads. */
  datatype Release = Nothing | Release(amount: int, debit: Side, credit: Side) | Unclear

  function Amount(release: Release): int { if release.Release? then release.amount else 0 }

  predicate OneOf<T>(s: set<T>)
    ensures OneOf(s) ==> forall x, y :: x in s && y in s ==> x == y
  {
    assert |s| == 1 ==> forall x, y :: x in s && y in s ==> x == y by {
      forall x | |s| == 1 && x in s ensures s == {x} {
        assert |s - {x}| == 0;
        assert s == {x} + (s - {x});
      }
    }
    |s| == 1
  }

  /** The sides whose net has the given sign. */
  function Signed(sides: map<Side, int>, sign: int): set<Side> {
    set s | s in sides && sign * sides[s] > 0
  }

  function ReleaseFrom(sides: map<Side, int>): Release {
    var credits, debits := Signed(sides, 1), Signed(sides, -1);
    if credits == {} && debits == {} then Nothing
    else if !OneOf(credits) || !OneOf(debits) then Unclear
    else
      var credit :| credit in credits;
      var debit :| debit in debits;
      if sides[credit] + sides[debit] != 0 then Unclear else Release(sides[credit], debit, credit)
  }

  function ReleaseOf(entries: seq<Entry>): Release { ReleaseFrom(PostLines(map[], AllLines(entries))) }

  /** Net the staged lines by account and dimensions, then read off the single release they add up to. */
  method NetRelease(targets: seq<Entry>) returns (release: Release)
    ensures release == ReleaseOf(targets)
  {
    var sides: map<Side, int> := map[];
    assert AllLines(targets[..0]) == [];
    for i := 0 to |targets|
      invariant sides == PostLines(map[], AllLines(targets[..i]))
    {
      ghost var before := sides;
      var lines := targets[i].lines;
      for j := 0 to |lines|
        invariant sides == PostLines(before, lines[..j])
      {
        sides := sides[lines[j].side := (if lines[j].side in sides then sides[lines[j].side] else 0) + LineNet(lines[j])];
        PostLinesConcat(before, lines[..j], [lines[j]]);
        assert lines[..j + 1] == lines[..j] + [lines[j]];
      }
      assert lines[..|lines|] == lines;
      PostLinesConcat(map[], AllLines(targets[..i]), lines);
      AllLinesSnoc(targets[..i], targets[i]);
      assert targets[..i + 1] == targets[..i] + [targets[i]];
    }
    assert targets[..|targets|] == targets;
    release := ReleaseFrom(sides);
  }

  lemma {:induction false} AllLinesSnoc(entries: seq<Entry>, last: Entry)
    ensures AllLines(entries + [last]) == AllLines(entries) + last.lines
  {
    if entries == [] {
      assert entries + [last] == [last];
      assert AllLines([last]) == last.lines + AllLines([]);
    } else {
      AllLinesSnoc(entries[1..], last);
      assert (entries + [last])[1..] == entries[1..] + [last];
    }
  }

  lemma NetOfSide(entries: seq<Entry>, side: Side)
    ensures NetAt(PostLines(map[], AllLines(entries)), side) == Net(entries, side)
  {
    PostLinesNets(map[], AllLines(entries), side);
    NetIsOfAllLines(entries, side);
  }

  /** One side net credited by `amount`, one net debited by as much, and nothing else left open. */
  ghost predicate IsRelease(entries: seq<Entry>, amount: int, debit: Side, credit: Side) {
    && amount > 0 && Net(entries, credit) == amount && Net(entries, debit) == -amount
    && forall s :: s != credit && s != debit ==> Net(entries, s) == 0
  }

  ghost predicate Settled(entries: seq<Entry>) { forall s :: Net(entries, s) == 0 }

  lemma SignedNet(entries: seq<Entry>, sign: int, s: Side)
    requires sign != 0
    ensures s in Signed(PostLines(map[], AllLines(entries)), sign) <==> sign * Net(entries, s) > 0
  {
    NetOfSide(entries, s);
  }

  /** `ReleaseOf` names the ledger's release exactly when it holds one. */
  lemma ReleaseMeaning(entries: seq<Entry>, amount: int, debit: Side, credit: Side)
    ensures ReleaseOf(entries) == Release(amount, debit, credit) <==> IsRelease(entries, amount, debit, credit)
  {
    var sides := PostLines(map[], AllLines(entries));
    var credits, debits := Signed(sides, 1), Signed(sides, -1);
    forall s
      ensures s in credits <==> Net(entries, s) > 0
      ensures s in debits <==> Net(entries, s) < 0
      ensures s in sides ==> sides[s] == Net(entries, s)
    {
      SignedNet(entries, 1, s);
      SignedNet(entries, -1, s);
      NetOfSide(entries, s);
    }
    if IsRelease(entries, amount, debit, credit) {
      assert credits == {credit} && debits == {debit};
    }
    var release := ReleaseOf(entries);
    if release.Release? {
      assert release.credit in credits && release.debit in debits;
      forall s | s != release.credit && s != release.debit ensures Net(entries, s) == 0 {
        assert s !in credits && s !in debits;
      }
    }
  }

  /** Nothing is released exactly when every side nets to zero. */
  lemma NothingMeaning(entries: seq<Entry>)
    ensures ReleaseOf(entries) == Nothing <==> Settled(entries)
  {
    var sides := PostLines(map[], AllLines(entries));
    forall s ensures s in Signed(sides, 1) || s in Signed(sides, -1) <==> Net(entries, s) != 0 {
      SignedNet(entries, 1, s);
      SignedNet(entries, -1, s);
    }
    if ReleaseOf(entries) == Nothing {
      forall s ensures Net(entries, s) == 0 { assert s !in Signed(sides, 1) && s !in Signed(sides, -1); }
    } else {
      assert Signed(sides, 1) != {} || Signed(sides, -1) != {};
      var s :| s in Signed(sides, 1) || s in Signed(sides, -1);
      assert Net(entries, s) != 0;
    }
  }

  // ─── What accounting books ────────────────────────────────────────────────

  /** A line carries a positive amount on one side or both; an absent side is zero. */
  predicate Bookable(line: Line) { line.debit >= 0 && line.credit >= 0 && line.debit + line.credit > 0 }

  predicate AllBookable(lines: seq<Line>) { forall l :: l in lines ==> Bookable(l) }

  /** Accounting takes drafts all of whose lines it can book, and refuses them together otherwise. */
  predicate Takes(drafts: seq<Entry>) { forall e :: e in drafts ==> AllBookable(e.lines) }

  // ─── The plan ─────────────────────────────────────────────────────────────

  /** One slice a recognition driver schedules. */
  datatype Slice = Slice(day: int, amount: int)

  /** Amount, start day, end day and period months to slices. Any function: the planner re-checks its sum. */
  type Driver = (int, int, int, int) -> seq<Slice>

  datatype Input = Input(
    entries: seq<Entry>, effective: int, termEnd: int, current: int, next: int,
    driver: Option<Driver>, periodMonths: int)

  datatype Refusal = NotPositive | NotLower | InABatch | UnclearRelease | DoesNotAddUp | NothingDeferred | ScheduleDiffers

  datatype Plan = Plan(
    reduction: int, recognized: int, catchUp: int, targets: seq<Entry>, offsets: seq<Entry>,
    respread: seq<Entry>, replaced: int, remaining: int, catchUpEntry: Option<Entry>)

  function Before(entries: seq<Entry>, day: int): seq<Entry> {
    if entries == [] then []
    else (if entries[0].day < day then [entries[0]] else []) + Before(entries[1..], day)
  }

  function From(entries: seq<Entry>, day: int): seq<Entry> {
    if entries == [] then []
    else (if entries[0].day >= day then [entries[0]] else []) + From(entries[1..], day)
  }

  predicate Precedes(a: Entry, b: Entry) { a.day < b.day || (a.day == b.day && a.number <= b.number) }

  /** In date order, then by entry number. */
  function ByDate(entries: seq<Entry>): seq<Entry> { SortBy(entries, Precedes) }

  /** Debit and credit swapped. Only a positive amount is written, so a negative one is dropped. */
  function Mirror(line: Line): Line { Line(line.side, Max(line.credit, 0), Max(line.debit, 0)) }

  function MirrorLines(lines: seq<Line>): seq<Line> {
    if lines == [] then [] else [Mirror(lines[0])] + MirrorLines(lines[1..])
  }

  function Offsets(targets: seq<Entry>): (offsets: seq<Entry>)
    ensures |offsets| == |targets|
  {
    if targets == [] then [] else [Draft(targets[0].day, MirrorLines(targets[0].lines))] + Offsets(targets[1..])
  }

  /** Deferred revenue released to revenue: one draft per slice that recognises anything. */
  function Respread(slices: seq<Slice>, debit: Side, credit: Side): seq<Entry> {
    if slices == [] then []
    else (if slices[0].amount == 0 then []
          else [Draft(slices[0].day, [Line(debit, slices[0].amount, 0), Line(credit, 0, slices[0].amount)])])
         + Respread(slices[1..], debit, credit)
  }

  function Scheduled(slices: seq<Slice>): int {
    if slices == [] then 0 else slices[0].amount + Scheduled(slices[1..])
  }

  predicate InBatch(targets: seq<Entry>) { exists t :: t in targets && (!t.pending || t.batched) }

  /** What an accepted reduction does to the term's staged entries, or the first check it fails. */
  function PlanAmountChange(input: Input): Result<Plan, Refusal> {
    if input.next <= 0 then Refused(NotPositive)
    else if input.next >= input.current then Refused(NotLower)
    else
      var reduction := input.current - input.next;
      var earned := Before(input.entries, input.effective);
      var targets := ByDate(From(input.entries, input.effective));
      if input.entries == [] then Ok(Plan(reduction, input.current, reduction, [], [], [], 0, 0, None))
      else if InBatch(targets) then Refused(InABatch)
      else PlanFrom(input, reduction, earned, targets, ReleaseOf(earned), ReleaseOf(targets))
  }

  function PlanFrom(input: Input, reduction: int, earned: seq<Entry>, targets: seq<Entry>, before: Release, after: Release)
    : Result<Plan, Refusal>
    requires 0 < input.next < input.current
    requires before == ReleaseOf(earned) && after == ReleaseOf(targets)
  {
    var recognized, replaced := Amount(before), Amount(after);
    if before.Unclear? || after.Unclear? then Refused(UnclearRelease)
    else if recognized + replaced != input.current then Refused(DoesNotAddUp)
    else
      var catchUp := RoundDiv(reduction * recognized, input.current);
      var remaining := replaced - (reduction - catchUp);
      var catchUpEntry :=
        if before.Release? && catchUp > 0
        then Some(Draft(input.effective, [Line(before.credit, catchUp, 0), Line(before.debit, 0, catchUp)]))
        else None;
      var plan := Plan(reduction, recognized, catchUp, targets, Offsets(targets), [], replaced, 0, catchUpEntry);
      if remaining == 0 || !after.Release? then Ok(plan)
      else if input.driver.None? then Refused(NothingDeferred)
      else
        var slices := input.driver.value(remaining, targets[0].day, input.termEnd, input.periodMonths);
        if Scheduled(slices) != remaining then Refused(ScheduleDiffers)
        else Ok(plan.(respread := Respread(slices, after.debit, after.credit), remaining := remaining))
  }
}
