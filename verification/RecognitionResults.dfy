/** What planning an amount change answers, written out: which entries it replaces and by what drafts, on which days
    and accounts, and exactly when it refuses. */
module RecognitionResults {
  import opened Outcomes
  import opened Rounding
  import opened Sorting
  import opened Recognition
  import opened RecognitionProofs

  // ─── The replaced entries ─────────────────────────────────────────────────

  /** Earlier days first, and entries of one day by their numbers. */
  predicate InDateOrder(entries: seq<Entry>) {
    forall i, j :: 0 <= i < j < |entries| ==>
      entries[i].day < entries[j].day || (entries[i].day == entries[j].day && entries[i].number <= entries[j].number)
  }

  function CountOf(entries: seq<Entry>, e: Entry): nat {
    if entries == [] then 0 else (if entries[0] == e then 1 else 0) + CountOf(entries[1..], e)
  }

  lemma {:induction false} CountIs(entries: seq<Entry>, e: Entry)
    ensures multiset(entries)[e] == CountOf(entries, e)
  {
    if entries != [] {
      CountIs(entries[1..], e);
      assert entries == [entries[0]] + entries[1..];
    }
  }

  lemma {:induction false} FromCount(entries: seq<Entry>, day: int, e: Entry)
    ensures CountOf(From(entries, day), e) == if e.day >= day then CountOf(entries, e) else 0
  {
    if entries != [] {
      FromCount(entries[1..], day, e);
      var rest := From(entries[1..], day);
      if entries[0].day >= day {
        assert From(entries, day) == [entries[0]] + rest && ([entries[0]] + rest)[1..] == rest;
      } else {
        assert From(entries, day) == rest;
      }
    }
  }

  lemma PlanTargets(input: Input)
    requires PlanAmountChange(input).Ok? && input.entries != []
    ensures PlanAmountChange(input).value.targets == ByDate(From(input.entries, input.effective))
  {
    hide ReleaseOf, ByDate, From, Before, Offsets, Respread, Scheduled, RoundDiv;
  }

  /** An accepted plan replaces every staged entry of the effective day or later, as often as it is staged, earliest
      first. */
  lemma TargetsAre(input: Input, e: Entry)
    requires PlanAmountChange(input).Ok?
    ensures var targets := PlanAmountChange(input).value.targets;
            && InDateOrder(targets)
            && CountOf(targets, e) == if e.day >= input.effective then CountOf(input.entries, e) else 0
  {
    var p := PlanAmountChange(input).value;
    if input.entries != [] {
      var from := From(input.entries, input.effective);
      PlanTargets(input);
      hide PlanAmountChange;
      SortMembers(from, Precedes);
      SortSorted(from, Precedes);
      CountIs(p.targets, e);
      CountIs(from, e);
      FromCount(input.entries, input.effective, e);
    }
  }

  // ─── The offsets ──────────────────────────────────────────────────────────

  /** `offset` posts the other side of each line of `target`, on its day. */
  predicate Undoes(offset: Entry, target: Entry) {
    && offset.day == target.day && offset.pending && !offset.batched && |offset.lines| == |target.lines|
    && forall k :: 0 <= k < |target.lines| ==>
         && offset.lines[k].side == target.lines[k].side
         && offset.lines[k].debit == Max(target.lines[k].credit, 0) && offset.lines[k].credit == Max(target.lines[k].debit, 0)
  }

  lemma {:induction false} MirrorsEach(lines: seq<Line>)
    ensures |MirrorLines(lines)| == |lines|
    ensures forall k :: 0 <= k < |lines| ==>
              && MirrorLines(lines)[k].side == lines[k].side
              && MirrorLines(lines)[k].debit == Max(lines[k].credit, 0) && MirrorLines(lines)[k].credit == Max(lines[k].debit, 0)
  {
    if lines != [] { MirrorsEach(lines[1..]); }
  }

  lemma {:induction false} OffsetsEach(targets: seq<Entry>, i: nat)
    requires i < |targets|
    ensures Undoes(Offsets(targets)[i], targets[i])
  {
    if i == 0 { MirrorsEach(targets[0].lines); } else { OffsetsEach(targets[1..], i - 1); }
  }

  /** An accepted plan has one offset for each replaced entry, line by line the other way round on its own day. */
  lemma OffsetsAre(input: Input)
    requires PlanAmountChange(input).Ok?
    ensures var p := PlanAmountChange(input).value;
            |p.offsets| == |p.targets| && forall i :: 0 <= i < |p.targets| ==> Undoes(p.offsets[i], p.targets[i])
  {
    var p := PlanAmountChange(input).value;
    assert p.offsets == Offsets(p.targets);
    hide PlanAmountChange;
    forall i | 0 <= i < |p.targets| ensures Undoes(p.offsets[i], p.targets[i]) { OffsetsEach(p.targets, i); }
  }

  // ─── The new schedule ─────────────────────────────────────────────────────

  /** The slices that recognise anything, in order. */
  function Recognizing(slices: seq<Slice>): seq<Slice> {
    if slices == [] then [] else if slices[0].amount == 0 then Recognizing(slices[1..]) else [slices[0]] + Recognizing(slices[1..])
  }

  function SumBefore(slices: seq<Slice>, day: int): int {
    if slices == [] then 0 else (if slices[0].day < day then slices[0].amount else 0) + SumBefore(slices[1..], day)
  }

  function SliceAmounts(slices: seq<Slice>): (amounts: seq<int>)
    ensures |amounts| == |slices|
  {
    seq(|slices|, i requires 0 <= i < |slices| => slices[i].amount)
  }

  /** The drafts release the slices: one each, in order, on its own day, from deferred to revenue. */
  predicate Releases(drafts: seq<Entry>, slices: seq<Slice>, deferred: Side, revenue: Side) {
    && |drafts| == |slices|
    && forall i :: 0 <= i < |slices| ==>
         && drafts[i].day == slices[i].day && drafts[i].pending && !drafts[i].batched
         && drafts[i].lines == [Line(deferred, slices[i].amount, 0), Line(revenue, 0, slices[i].amount)]
  }

  /** What entries dated before a day credit to a side, less what they debit. */
  function NetBefore(entries: seq<Entry>, day: int, side: Side): int {
    if entries == [] then 0 else (if entries[0].day < day then LinesNet(entries[0].lines, side) else 0) + NetBefore(entries[1..], day, side)
  }

  lemma {:induction false} RespreadReleasesEach(slices: seq<Slice>, deferred: Side, revenue: Side)
    ensures Releases(Respread(slices, deferred, revenue), Recognizing(slices), deferred, revenue)
  {
    if slices != [] {
      RespreadReleasesEach(slices[1..], deferred, revenue);
      var rest := Respread(slices[1..], deferred, revenue);
      if slices[0].amount == 0 { assert Respread(slices, deferred, revenue) == rest; }
    }
  }

  lemma {:induction false} ReleasesNet(drafts: seq<Entry>, slices: seq<Slice>, day: int, deferred: Side, revenue: Side)
    requires Releases(drafts, Recognizing(slices), deferred, revenue) && deferred != revenue
    ensures NetBefore(drafts, day, revenue) == SumBefore(slices, day)
    decreases slices
  {
    if slices != [] {
      if slices[0].amount == 0 {
        ReleasesNet(drafts, slices[1..], day, deferred, revenue);
      } else {
        var rest := Recognizing(slices[1..]);
        forall i | 0 <= i < |rest|
          ensures drafts[1..][i].day == rest[i].day && drafts[1..][i].pending && !drafts[1..][i].batched
          ensures drafts[1..][i].lines == [Line(deferred, rest[i].amount, 0), Line(revenue, 0, rest[i].amount)]
        {
          assert Recognizing(slices)[i + 1] == rest[i] && drafts[1..][i] == drafts[i + 1];
        }
        ReleasesNet(drafts[1..], slices[1..], day, deferred, revenue);
        assert Recognizing(slices)[0] == slices[0];
        TwoLines(slices[0].amount, 0, deferred, revenue);
      }
    }
  }

  lemma {:induction false} ScheduledSum(slices: seq<Slice>)
    ensures Scheduled(slices) == Sum(SliceAmounts(slices))
  {
    if slices != [] {
      ScheduledSum(slices[1..]);
      assert SliceAmounts(slices)[1..] == SliceAmounts(slices[1..]);
    }
  }

  /** `first` is the earliest of the days from the effective one on that have an entry staged. */
  predicate EarliestStaged(input: Input, first: int) {
    && (exists e :: e in input.entries && e.day == first) && first >= input.effective
    && forall e :: e in input.entries && e.day >= input.effective ==> first <= e.day
  }

  lemma FirstTarget(input: Input)
    requires Targets(input.entries, input.effective) != []
    ensures EarliestStaged(input, Targets(input.entries, input.effective)[0].day)
  {
    var targets := Targets(input.entries, input.effective);
    TargetsMeaning(input.entries, input.effective, Side(0, multiset{}));
    hide Targets;
    assert targets[0] in targets;
    forall e | e in input.entries && e.day >= input.effective ensures targets[0].day <= e.day {
      assert e in targets;
      var k :| 0 <= k < |targets| && targets[k] == e;
      assert k > 0 ==> Precedes(targets[0], targets[k]);
    }
  }

  /** What is left is recognised as the driver spreads it from the first replaced day to the term's end: a draft for
      each slice that recognises anything, in order and on its own day, so that up to any day the new schedule
      recognises just what the slices dated before it come to. */
  lemma ScheduleIs(input: Input, deferred: Side, revenue: Side) returns (slices: seq<Slice>, first: int)
    requires Describes(input.entries, input.current, deferred, revenue) && PlanAmountChange(input).Ok?
    ensures var p := PlanAmountChange(input).value;
            && Releases(p.respread, Recognizing(slices), deferred, revenue)
            && Sum(SliceAmounts(slices)) == p.remaining
            && (forall day :: NetBefore(p.respread, day, revenue) == SumBefore(slices, day))
            && (p.remaining == 0 ==> slices == [])
            && (p.remaining != 0 ==> EarliestStaged(input, first) && input.driver.Some?
                                     && slices == input.driver.value(p.remaining, first, input.termEnd, input.periodMonths))
  {
    var p := PlanAmountChange(input).value;
    ReplacedRelease(input, deferred, revenue);
    slices := PlanSlices(input, deferred, revenue);
    var targets := Targets(input.entries, input.effective);
    TargetsMeaning(input.entries, input.effective, revenue);
    if targets != [] { FirstTarget(input); }
    hide PlanAmountChange, Targets, ReleaseOf;
    RespreadReleasesEach(slices, deferred, revenue);
    ScheduledSum(slices);
    forall day ensures NetBefore(p.respread, day, revenue) == SumBefore(slices, day) {
      ReleasesNet(p.respread, slices, day, deferred, revenue);
    }
    first := if targets == [] then 0 else targets[0].day;
    assert slices == [] ==> Sum(SliceAmounts(slices)) == 0;
  }

  /** What the plan reads as dated before a day, entry by entry. */
  lemma {:induction false} BeforeNet(entries: seq<Entry>, day: int, side: Side)
    ensures Net(Before(entries, day), side) == NetBefore(entries, day, side)
  {
    if entries != [] {
      BeforeNet(entries[1..], day, side);
      BeforeStep(entries, day, side);
    }
  }

  // ─── Nothing staged ───────────────────────────────────────────────────────

  /** A term recognised in full when it was booked: the whole reduction is taken back, with nothing to take it from. */
  lemma NothingStaged(input: Input)
    requires input.entries == [] && 0 < input.next < input.current
    ensures PlanAmountChange(input).Ok?
    ensures var p := PlanAmountChange(input).value;
            && p.recognized == input.current && p.catchUp == p.reduction == input.current - input.next
            && p.replaced == 0 && p.remaining == 0 && p.catchUpEntry.None? && p.targets == [] && p.offsets == [] && p.respread == []
  {
  }

  // ─── The refusals ─────────────────────────────────────────────────────────

  /** The entries neither cancel out nor come to one release between two sides. */
  ghost predicate NoSingleRelease(entries: seq<Entry>) {
    !Settled(entries) && forall amount, debit, credit :: !IsRelease(entries, amount, debit, credit)
  }

  lemma UnclearMeaning(entries: seq<Entry>)
    ensures ReleaseOf(entries).Unclear? <==> NoSingleRelease(entries)
  {
    NothingMeaning(entries);
    var release := ReleaseOf(entries);
    if release.Release? { ReleaseMeaning(entries, release.amount, release.debit, release.credit); }
    if release.Unclear? {
      forall amount, debit, credit ensures !IsRelease(entries, amount, debit, credit) {
        ReleaseMeaning(entries, amount, debit, credit);
      }
    }
    hide ReleaseOf, IsRelease, Settled;
  }

  predicate InRange(input: Input) { 0 < input.next < input.current }

  /** Something dated the effective day or later is no longer free to change. */
  predicate LockedLater(input: Input) {
    exists e :: e in input.entries && e.day >= input.effective && (!e.pending || e.batched)
  }

  lemma InBatchMeaning(input: Input)
    ensures InBatch(Targets(input.entries, input.effective)) <==> LockedLater(input)
  {
    TargetsMeaning(input.entries, input.effective, Side(0, multiset{}));
    hide Targets;
    var targets := Targets(input.entries, input.effective);
    if e :| e in input.entries && e.day >= input.effective && (!e.pending || e.batched) { assert e in targets; }
  }

  /** The first three refusals: a new amount of nothing or less, one that is not lower, and a later entry in a batch. */
  lemma EarlyRefusals(input: Input)
    ensures PlanAmountChange(input) == Refused(NotPositive) <==> input.next <= 0
    ensures PlanAmountChange(input) == Refused(NotLower) <==> 0 < input.next && input.current <= input.next
    ensures PlanAmountChange(input) == Refused(InABatch) <==> InRange(input) && LockedLater(input)
  {
    InBatchMeaning(input);
    hide ReleaseOf, InBatch;
  }

  /** The fourth: what is dated before the effective day, or what is not, comes to no single release. */
  lemma UnclearExactlyWhen(input: Input)
    ensures PlanAmountChange(input) == Refused(UnclearRelease)
       <==> && InRange(input) && input.entries != [] && !LockedLater(input)
            && (NoSingleRelease(Before(input.entries, input.effective)) || NoSingleRelease(Targets(input.entries, input.effective)))
  {
    InBatchMeaning(input);
    UnclearMeaning(Before(input.entries, input.effective));
    UnclearMeaning(Targets(input.entries, input.effective));
    hide ReleaseOf, InBatch, NoSingleRelease;
  }

  /** The driver's answer to what would be left. */
  predicate DrivenTo(input: Input, remaining: int, first: int) {
    input.driver.Some? && Sum(SliceAmounts(input.driver.value(remaining, first, input.termEnd, input.periodMonths))) == remaining
  }

  /** The last two, on a term's ledger that adds up with `earned` dated before the effective day: with anything left to
      recognise there has to be a driver, and what it schedules has to come to just that. */
  lemma DriverRefusals(input: Input, earned: int, catchUp: int, first: int, deferred: Side, revenue: Side)
    requires Describes(input.entries, input.current, deferred, revenue) && InRange(input) && !LockedLater(input)
    requires earned == Net(Before(input.entries, input.effective), revenue) && 0 <= earned <= input.current
    requires IsRounded(catchUp, (input.current - input.next) * earned, input.current)
    requires input.next - earned + catchUp != 0 ==> EarliestStaged(input, first)
    ensures var remaining := input.next - earned + catchUp;
            && (PlanAmountChange(input) == Refused(NothingDeferred) <==> remaining != 0 && input.driver.None?)
            && (PlanAmountChange(input) == Refused(ScheduleDiffers) <==> remaining != 0 && input.driver.Some? && !DrivenTo(input, remaining, first))
            && (PlanAmountChange(input).Ok? <==> remaining == 0 || DrivenTo(input, remaining, first))
  {
    hide PlanAmountChange, PlanFrom, ReleaseOf, InBatch, Describes, ByDate, From, Before, Targets;
    AddedUp(input, earned, deferred, revenue);
    RoundDivUnique((input.current - input.next) * earned, input.current, catchUp);
    var targets, remaining := Targets(input.entries, input.effective), input.next - earned + catchUp;
    var after := ReleaseOf(targets);
    FinishIs(input, earned, targets, ReleaseOf(Before(input.entries, input.effective)), after);
    if targets != [] {
      FirstTarget(input);
      if input.driver.Some? { ScheduledSum(input.driver.value(remaining, targets[0].day, input.termEnd, input.periodMonths)); }
    }
  }

  /** Past the "adds up" check, the plan is what its releases make of it. */
  lemma AddedUp(input: Input, earned: int, deferred: Side, revenue: Side)
    requires Describes(input.entries, input.current, deferred, revenue) && InRange(input) && !LockedLater(input)
    requires earned == Net(Before(input.entries, input.effective), revenue) && 0 <= earned <= input.current
    ensures var before, targets := Before(input.entries, input.effective), Targets(input.entries, input.effective);
            && !ReleaseOf(before).Unclear? && !ReleaseOf(targets).Unclear?
            && Amount(ReleaseOf(before)) == earned && Amount(ReleaseOf(targets)) == input.current - earned
            && (ReleaseOf(targets).Release? <==> targets != [] && earned < input.current)
            && PlanAmountChange(input) == PlanFrom(input, input.current - input.next, before, targets, ReleaseOf(before), ReleaseOf(targets))
  {
    InBatchMeaning(input);
    SplitReleases(input.entries, input.effective, deferred, revenue);
    TargetsMeaning(input.entries, input.effective, revenue);
    NoTargets(input, revenue);
    PairedRelease(Targets(input.entries, input.effective), deferred, revenue);
    hide ReleaseOf, InBatch, PlanFrom;
  }

  lemma FinishIs(input: Input, earned: int, targets: seq<Entry>, before: Release, after: Release)
    requires InRange(input) && before == ReleaseOf(Before(input.entries, input.effective)) && after == ReleaseOf(targets)
    requires !before.Unclear? && !after.Unclear? && 0 <= earned <= input.current
    requires Amount(before) == earned && Amount(after) == input.current - earned
    requires after.Release? <==> targets != [] && earned < input.current
    ensures var reduction := input.current - input.next;
            var remaining := input.next - earned + RoundDiv(reduction * earned, input.current);
            var result := PlanFrom(input, reduction, Before(input.entries, input.effective), targets, before, after);
            if remaining == 0 || !after.Release? then result.Ok? && remaining == 0
            else if input.driver.None? then result == Refused(NothingDeferred)
            else if Scheduled(input.driver.value(remaining, targets[0].day, input.termEnd, input.periodMonths)) != remaining
              then result == Refused(ScheduleDiffers)
            else result.Ok?
  {
    hide ReleaseOf, RoundDiv, Offsets, Respread, Before;
    if !after.Release? {
      assert earned == input.current;
      assert (input.current - input.next) * input.current == input.current * (input.current - input.next);
      RoundDivExact(input.current - input.next, input.current);
    }
  }

  /** Without targets the whole term was earned, and nothing is left. */
  lemma NoTargets(input: Input, revenue: Side)
    ensures Targets(input.entries, input.effective) == [] ==>
              Net(Before(input.entries, input.effective), revenue) == Net(input.entries, revenue)
  {
    TargetsMeaning(input.entries, input.effective, revenue);
  }
}
