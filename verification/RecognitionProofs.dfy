/** What lowering a term's amount keeps: the ledger's net is the term's amount, on any run of changes. */
module RecognitionProofs {
  import opened Outcomes
  import opened Rounding
  import opened Sorting
  import opened Recognition

  // ─── Offsets ──────────────────────────────────────────────────────────────

  /** A mirrored line cancels the line it mirrors exactly when neither amount, or as much of each, is
      negative: the mirror drops negative amounts. */
  lemma MirrorCancels(line: Line)
    ensures LineNet(Mirror(line)) == -LineNet(line) <==> Min(line.debit, 0) == Min(line.credit, 0)
  {
  }

  lemma {:induction false} MirrorLinesCancel(lines: seq<Line>, side: Side)
    requires AllBookable(lines)
    ensures LinesNet(MirrorLines(lines), side) == -LinesNet(lines, side)
    ensures AllBookable(MirrorLines(lines))
  {
    if lines != [] {
      assert lines[0] in lines && forall l :: l in lines[1..] ==> l in lines;
      MirrorLinesCancel(lines[1..], side);
      MirrorCancels(lines[0]);
      assert MirrorLines(lines) == [Mirror(lines[0])] + MirrorLines(lines[1..]);
    }
  }

  /** Each offset cancels its own target account by account, on the target's own day. */
  lemma {:induction false} OffsetsCancelTargets(targets: seq<Entry>, i: nat, side: Side)
    requires i < |targets| && Takes(targets)
    ensures Offsets(targets)[i].day == targets[i].day
    ensures LinesNet(Offsets(targets)[i].lines, side) == -LinesNet(targets[i].lines, side)
  {
    if i == 0 {
      MirrorLinesCancel(targets[0].lines, side);
    } else {
      OffsetsCancelTargets(targets[1..], i - 1, side);
    }
  }

  lemma BeforeStep(entries: seq<Entry>, day: int, side: Side)
    requires entries != []
    ensures Net(Before(entries, day), side)
         == (if entries[0].day < day then LinesNet(entries[0].lines, side) else 0) + Net(Before(entries[1..], day), side)
  {
    if entries[0].day < day {
      assert ([entries[0]] + Before(entries[1..], day))[1..] == Before(entries[1..], day);
    } else {
      assert [] + Before(entries[1..], day) == Before(entries[1..], day);
    }
  }

  lemma {:induction false} OffsetsNet(targets: seq<Entry>, day: int, side: Side)
    requires Takes(targets)
    ensures Net(Offsets(targets), side) == -Net(targets, side)
    ensures Net(Before(Offsets(targets), day), side) == -Net(Before(targets, day), side)
    ensures Takes(Offsets(targets))
  {
    if targets != [] {
      OffsetsNet(targets[1..], day, side);
      BeforeStep(targets, day, side);
      BeforeStep(Offsets(targets), day, side);
      assert Offsets(targets)[1..] == Offsets(targets[1..]);
      MirrorLinesCancel(targets[0].lines, side);
    }
  }

  // ─── Before, from and by date ─────────────────────────────────────────────

  lemma {:induction false} SplitNet(entries: seq<Entry>, day: int, side: Side)
    ensures Net(Before(entries, day), side) + Net(From(entries, day), side) == Net(entries, side)
  {
    if entries != [] {
      SplitNet(entries[1..], day, side);
      var first := entries[..1];
      NetConcat(if entries[0].day < day then [entries[0]] else [], Before(entries[1..], day), side);
      NetConcat(if entries[0].day >= day then [entries[0]] else [], From(entries[1..], day), side);
      assert Net([entries[0]], side) == LinesNet(entries[0].lines, side) + Net([], side);
    }
  }

  lemma {:induction false} BeforeConcat(a: seq<Entry>, b: seq<Entry>, day: int)
    ensures Before(a + b, day) == Before(a, day) + Before(b, day)
  {
    if a == [] {
      assert a + b == b;
    } else {
      BeforeConcat(a[1..], b, day);
      assert (a + b)[1..] == a[1..] + b && (a + b)[0] == a[0];
      var first := if a[0].day < day then [a[0]] else [];
      var rest, tail := Before(a[1..], day), Before(b, day);
      assert first + (rest + tail) == (first + rest) + tail;
    }
  }

  lemma {:induction false} SplitMembers(entries: seq<Entry>, day: int)
    ensures forall e :: e in Before(entries, day) <==> e in entries && e.day < day
    ensures forall e :: e in From(entries, day) <==> e in entries && e.day >= day
  {
    if entries != [] { SplitMembers(entries[1..], day); }
  }

  lemma {:induction false} InsertNet(entry: Entry, sorted: seq<Entry>, side: Side)
    ensures Net(Insert(entry, sorted, Precedes), side) == LinesNet(entry.lines, side) + Net(sorted, side)
  {
    if sorted != [] && !Precedes(entry, sorted[0]) { InsertNet(entry, sorted[1..], side); }
  }

  lemma {:induction false} ByDateNet(entries: seq<Entry>, side: Side)
    ensures Net(ByDate(entries), side) == Net(entries, side)
  {
    if entries != [] {
      ByDateNet(entries[1..], side);
      InsertNet(entries[0], ByDate(entries[1..]), side);
    }
  }

  function Targets(entries: seq<Entry>, day: int): seq<Entry> { ByDate(From(entries, day)) }

  /** The targets are the staged entries from the effective day on, each once, in date order. */
  lemma TargetsMeaning(entries: seq<Entry>, day: int, side: Side)
    ensures multiset(Targets(entries, day)) == multiset(From(entries, day))
    ensures forall e :: e in Targets(entries, day) <==> e in entries && e.day >= day
    ensures Sorted(Targets(entries, day), Precedes)
    ensures Net(Targets(entries, day), side) == Net(entries, side) - Net(Before(entries, day), side)
  {
    SplitNet(entries, day, side);
    SplitMembers(entries, day);
    SortMembers(From(entries, day), Precedes);
    SortSorted(From(entries, day), Precedes);
    ByDateNet(From(entries, day), side);
  }

  // ─── A ledger between deferred and revenue ────────────────────────────────

  ghost predicate OnPair(lines: seq<Line>, deferred: Side, revenue: Side) {
    && (forall l :: l in lines ==> l.side == deferred || l.side == revenue)
    && LinesNet(lines, deferred) + LinesNet(lines, revenue) == 0
  }

  /** Every entry moves money between the term's deferred and its revenue account and balances. */
  ghost predicate Paired(entries: seq<Entry>, deferred: Side, revenue: Side) {
    deferred != revenue && forall e :: e in entries ==> OnPair(e.lines, deferred, revenue)
  }

  lemma {:induction false} OffPairNet(lines: seq<Line>, side: Side)
    requires forall l :: l in lines ==> l.side != side
    ensures LinesNet(lines, side) == 0
  {
    if lines != [] { OffPairNet(lines[1..], side); }
  }

  lemma {:induction false} PairedNet(entries: seq<Entry>, deferred: Side, revenue: Side, side: Side)
    requires Paired(entries, deferred, revenue)
    ensures Net(entries, deferred) == -Net(entries, revenue)
    ensures side != deferred && side != revenue ==> Net(entries, side) == 0
  {
    if entries != [] {
      PairedNet(entries[1..], deferred, revenue, side);
      assert OnPair(entries[0].lines, deferred, revenue);
      if side != deferred && side != revenue { OffPairNet(entries[0].lines, side); }
    }
  }

  /** The release of a paired ledger is never unclear, and its amount is the size of its net. A net reversal
      is read as a release the other way round: the amount is positive and the accounts are swapped. */
  lemma PairedRelease(entries: seq<Entry>, deferred: Side, revenue: Side)
    requires Paired(entries, deferred, revenue)
    ensures var net := Net(entries, revenue);
            ReleaseOf(entries) == if net == 0 then Nothing
                                  else if net > 0 then Release(net, deferred, revenue)
                                  else Release(-net, revenue, deferred)
  {
    var net := Net(entries, revenue);
    forall s
      ensures s != deferred && s != revenue ==> Net(entries, s) == 0
      ensures Net(entries, deferred) == -net
    {
      PairedNet(entries, deferred, revenue, s);
    }
    NothingMeaning(entries);
    if net > 0 {
      ReleaseMeaning(entries, net, deferred, revenue);
    } else if net < 0 {
      assert IsRelease(entries, -net, revenue, deferred);
      ReleaseMeaning(entries, -net, revenue, deferred);
    } else {
      assert Net(entries, deferred) == 0;
    }
  }

  /** The ledger of a term: paired, of lines accounting books, and netting to the term's amount. */
  ghost predicate Describes(entries: seq<Entry>, amount: int, deferred: Side, revenue: Side) {
    && entries != [] && Paired(entries, deferred, revenue) && Takes(entries)
    && Net(entries, revenue) == amount
  }

  /** The planner's "adds up" check passes exactly when what is dated before the effective day is neither a
      net reversal nor more than the term's amount. */
  lemma AddsUpExactlyWhen(input: Input, deferred: Side, revenue: Side)
    requires Describes(input.entries, input.current, deferred, revenue)
    requires 0 < input.next < input.current
    requires !InBatch(Targets(input.entries, input.effective))
    ensures PlanAmountChange(input) != Refused(UnclearRelease)
    ensures PlanAmountChange(input) == Refused(DoesNotAddUp)
       <==> !(0 <= Net(Before(input.entries, input.effective), revenue) <= input.current)
  {
    SplitReleases(input.entries, input.effective, deferred, revenue);
  }

  lemma SplitReleases(entries: seq<Entry>, day: int, deferred: Side, revenue: Side)
    requires Paired(entries, deferred, revenue)
    ensures Paired(Before(entries, day), deferred, revenue) && Paired(Targets(entries, day), deferred, revenue)
    ensures var earned, later := Before(entries, day), Targets(entries, day);
            && !ReleaseOf(earned).Unclear? && !ReleaseOf(later).Unclear?
            && Amount(ReleaseOf(earned)) == Abs(Net(earned, revenue))
            && Amount(ReleaseOf(later)) == Abs(Net(entries, revenue) - Net(earned, revenue))
  {
    SplitMembers(entries, day);
    TargetsMeaning(entries, day, revenue);
    PairedRelease(Before(entries, day), deferred, revenue);
    PairedRelease(Targets(entries, day), deferred, revenue);
  }

  function Abs(n: int): nat { if n < 0 then -n else n }

  // ─── The amounts of a plan ────────────────────────────────────────────────

  /** Rounding never takes back more than was earned or than is being cut, and leaves no more to recognise
      than the new amount. */
  lemma CatchUpShare(current: int, next: int, recognized: int)
    requires 0 < next < current && 0 <= recognized <= current
    ensures var catchUp := RoundDiv((current - next) * recognized, current);
            0 <= catchUp <= Min(current - next, recognized) && recognized - catchUp <= next
  {
    var reduction := current - next;
    var catchUp := RoundDiv(reduction * recognized, current);
    RoundDivShare(reduction, recognized, current);
    RoundDivShare(recognized, reduction, current);
    assert recognized * reduction == reduction * recognized;
    CatchUpLeaves(current, next, recognized, catchUp);
  }

  lemma CatchUpLeaves(current: int, next: int, recognized: int, catchUp: int)
    requires 0 < next < current && 0 <= recognized <= current
    requires 2 * (current * catchUp) > 2 * ((current - next) * recognized) - current
    ensures recognized - catchUp <= next
  {
    var kept := recognized - catchUp;
    assert current * kept == current * recognized - current * catchUp;
    assert current * recognized == next * recognized + (current - next) * recognized;
    MulMonotone(next, recognized, current);
    assert current * (next + 1) == next * current + current;
    if kept >= next + 1 { MulMonotone(current, next + 1, kept); }
  }

  lemma ReleaseAmount(entries: seq<Entry>)
    ensures Amount(ReleaseOf(entries)) >= 0
  {
    var release := ReleaseOf(entries);
    if release.Release? { ReleaseMeaning(entries, release.amount, release.debit, release.credit); }
  }

  /** On every accepted plan, whatever the staged entries: the catch-up is between nothing and both the
      reduction and what was earned, what is left is between nothing and what it replaces, and together
      they come to the new amount exactly, despite rounding. */
  lemma PlanBounds(input: Input)
    requires PlanAmountChange(input).Ok?
    ensures var p := PlanAmountChange(input).value;
            && p.reduction == input.current - input.next > 0
            && 0 <= p.catchUp <= Min(p.reduction, p.recognized)
            && 0 <= p.remaining <= p.replaced
            && p.recognized - p.catchUp + p.remaining == input.next
            && p.recognized + p.replaced == input.current
  {
    if input.entries != [] {
      var earned, targets := Before(input.entries, input.effective), Targets(input.entries, input.effective);
      ReleaseAmount(earned);
      ReleaseAmount(targets);
      CatchUpShare(input.current, input.next, Amount(ReleaseOf(earned)));
      if !ReleaseOf(targets).Release? {
        RoundDivExact(input.current - input.next, input.current);
      }
    }
  }

  /** The catch-up is the earned share of the reduction, to the nearest cent. */
  lemma CatchUpIsEarnedShare(input: Input)
    requires PlanAmountChange(input).Ok?
    ensures var p := PlanAmountChange(input).value;
            IsRounded(p.catchUp, p.reduction * p.recognized, input.current)
  {
    if input.entries == [] { RoundDivExact(input.current - input.next, input.current); }
  }

  // ─── What a plan posts ────────────────────────────────────────────────────

  /** The drafts the change sends to accounting, in the order it sends them. */
  function Posted(plan: Plan): seq<Entry> {
    ListOf(plan.catchUpEntry) + plan.offsets + plan.respread
  }

  lemma {:induction false} RespreadNet(slices: seq<Slice>, deferred: Side, revenue: Side)
    requires deferred != revenue
    ensures Net(Respread(slices, deferred, revenue), revenue) == Scheduled(slices)
    ensures Paired(Respread(slices, deferred, revenue), deferred, revenue)
  {
    if slices != [] {
      RespreadNet(slices[1..], deferred, revenue);
      var all, rest := Respread(slices, deferred, revenue), Respread(slices[1..], deferred, revenue);
      if slices[0].amount == 0 {
        assert all == rest;
      } else {
        TwoLines(slices[0].amount, 0, deferred, revenue);
        assert all == [all[0]] + rest && all[1..] == rest;
      }
    }
  }

  /** An entry that debits one side and credits the other, less what it takes back. */
  lemma TwoLines(amount: int, back: int, deferred: Side, revenue: Side)
    requires deferred != revenue
    ensures var release := [Line(deferred, amount, 0), Line(revenue, 0, amount)];
            OnPair(release, deferred, revenue) && LinesNet(release, revenue) == amount
    ensures var reversal := [Line(revenue, back, 0), Line(deferred, 0, back)];
            OnPair(reversal, deferred, revenue) && LinesNet(reversal, revenue) == -back
  {
    var release, reversal := [Line(deferred, amount, 0), Line(revenue, 0, amount)], [Line(revenue, back, 0), Line(deferred, 0, back)];
    assert release[1..] == [Line(revenue, 0, amount)] && reversal[1..] == [Line(deferred, 0, back)];
    assert LinesNet([Line(revenue, 0, amount)], revenue) == amount;
    assert LinesNet([Line(deferred, 0, back)], deferred) == back;
  }

  lemma {:induction false} MirrorSides(lines: seq<Line>)
    ensures forall l :: l in MirrorLines(lines) ==> exists o :: o in lines && o.side == l.side
  {
    if lines != [] {
      MirrorSides(lines[1..]);
      forall l | l in MirrorLines(lines) ensures exists o :: o in lines && o.side == l.side {
        if l in MirrorLines(lines[1..]) {
          var o :| o in lines[1..] && o.side == l.side;
          assert o in lines;
        } else {
          assert lines[0] in lines;
        }
      }
    }
  }

  lemma {:induction false} OffsetsPaired(targets: seq<Entry>, deferred: Side, revenue: Side)
    requires Paired(targets, deferred, revenue) && Takes(targets)
    ensures Paired(Offsets(targets), deferred, revenue)
  {
    if targets != [] {
      OffsetsPaired(targets[1..], deferred, revenue);
      assert OnPair(targets[0].lines, deferred, revenue);
      MirrorSides(targets[0].lines);
      MirrorLinesCancel(targets[0].lines, deferred);
      MirrorLinesCancel(targets[0].lines, revenue);
    }
  }

  /** What accounting booked for the drafts: their days and lines, under whatever number and batch. */
  ghost predicate SameBooks(booked: seq<Entry>, drafts: seq<Entry>) {
    && |booked| == |drafts|
    && forall i :: 0 <= i < |drafts| ==> booked[i].day == drafts[i].day && booked[i].lines == drafts[i].lines
  }

  lemma {:induction false} SameBooksNet(booked: seq<Entry>, drafts: seq<Entry>, day: int, side: Side)
    requires SameBooks(booked, drafts)
    ensures Net(booked, side) == Net(drafts, side)
    ensures Net(Before(booked, day), side) == Net(Before(drafts, day), side)
  {
    if booked != [] {
      SameBooksNet(booked[1..], drafts[1..], day, side);
      BeforeStep(booked, day, side);
      BeforeStep(drafts, day, side);
    }
  }

  lemma SameBooksShape(booked: seq<Entry>, drafts: seq<Entry>, deferred: Side, revenue: Side)
    requires SameBooks(booked, drafts) && Paired(drafts, deferred, revenue) && Takes(drafts)
    ensures Paired(booked, deferred, revenue) && Takes(booked)
  {
    forall e | e in booked ensures OnPair(e.lines, deferred, revenue) && AllBookable(e.lines) {
      var i :| 0 <= i < |booked| && booked[i] == e;
      assert drafts[i] in drafts;
    }
  }

  /** What takes back `catchUp` of what was recognised; nothing when that is nothing. */
  function CatchUpDraft(day: int, catchUp: int, deferred: Side, revenue: Side): Option<Entry> {
    if catchUp > 0 then Some(Draft(day, [Line(revenue, catchUp, 0), Line(deferred, 0, catchUp)])) else None
  }

  /** An accepted plan over a paired ledger: which release it reads, and what it posts. */
  lemma AcceptedPlan(input: Input, deferred: Side, revenue: Side)
    requires Describes(input.entries, input.current, deferred, revenue)
    requires PlanAmountChange(input).Ok?
    ensures var p, earned := PlanAmountChange(input).value, Net(Before(input.entries, input.effective), revenue);
            && p.recognized == earned && p.replaced == input.current - earned
            && p.targets == Targets(input.entries, input.effective)
            && p.offsets == Offsets(p.targets)
            && p.catchUpEntry == CatchUpDraft(input.effective, p.catchUp, deferred, revenue)
  {
    PlanBounds(input);
    var earned, later := Before(input.entries, input.effective), Targets(input.entries, input.effective);
    SplitReleases(input.entries, input.effective, deferred, revenue);
    PairedRelease(earned, deferred, revenue);
    PairedRelease(later, deferred, revenue);
    TargetsMeaning(input.entries, input.effective, revenue);
    var p := PlanAmountChange(input).value;
  }

  /** The new schedule releases exactly what is left, between the term's own two accounts. */
  lemma NewSchedule(input: Input, deferred: Side, revenue: Side)
    requires Describes(input.entries, input.current, deferred, revenue)
    requires PlanAmountChange(input).Ok?
    ensures var p := PlanAmountChange(input).value;
            Net(p.respread, revenue) == p.remaining && Paired(p.respread, deferred, revenue)
  {
    ReplacedRelease(input, deferred, revenue);
    var slices := PlanSlices(input, deferred, revenue);
    RespreadNet(slices, deferred, revenue);
  }

  /** What an accepted plan replaces is released from the term's deferred account to its revenue account. */
  lemma ReplacedRelease(input: Input, deferred: Side, revenue: Side)
    requires Describes(input.entries, input.current, deferred, revenue)
    requires PlanAmountChange(input).Ok?
    ensures var release := ReleaseOf(Targets(input.entries, input.effective));
            release.Release? ==> release.debit == deferred && release.credit == revenue
  {
    SplitReleases(input.entries, input.effective, deferred, revenue);
    TargetsMeaning(input.entries, input.effective, revenue);
    PairedRelease(Targets(input.entries, input.effective), deferred, revenue);
  }

  /** What the term's driver schedules from the first replaced day to the term's end. */
  function Driven(input: Input, remaining: int): seq<Slice>
    requires input.driver.Some? && Targets(input.entries, input.effective) != []
  {
    input.driver.value(remaining, Targets(input.entries, input.effective)[0].day, input.termEnd, input.periodMonths)
  }

  /** The driver's slices behind a plan's new schedule; none when nothing is left to recognise. */
  lemma PlanSlices(input: Input, deferred: Side, revenue: Side) returns (slices: seq<Slice>)
    requires PlanAmountChange(input).Ok?
    requires var release := ReleaseOf(Targets(input.entries, input.effective));
             release.Release? ==> release.debit == deferred && release.credit == revenue
    ensures var p := PlanAmountChange(input).value;
            p.respread == Respread(slices, deferred, revenue) && Scheduled(slices) == p.remaining
    ensures slices != [] ==> input.driver.Some? && Targets(input.entries, input.effective) != []
    ensures slices != [] ==> slices == Driven(input, PlanAmountChange(input).value.remaining)
    ensures PlanAmountChange(input).value.remaining == 0 ==> slices == []
  {
    var p := PlanAmountChange(input).value;
    slices := [];
    if p.remaining != 0 {
      var later := Targets(input.entries, input.effective);
      slices := input.driver.value(p.remaining, later[0].day, input.termEnd, input.periodMonths);
    }
  }

  lemma NetOfThree(a: seq<Entry>, b: seq<Entry>, c: seq<Entry>, day: int, side: Side)
    ensures Net(a + b + c, side) == Net(a, side) + Net(b, side) + Net(c, side)
    ensures Net(Before(a + b + c, day), side)
         == Net(Before(a, day), side) + Net(Before(b, day), side) + Net(Before(c, day), side)
  {
    NetConcat(a, b, side);
    NetConcat(a + b, c, side);
    BeforeConcat(a, b, day);
    BeforeConcat(a + b, c, day);
    NetConcat(Before(a, day), Before(b, day), side);
    NetConcat(Before(a, day) + Before(b, day), Before(c, day), side);
  }

  function ListOf(entry: Option<Entry>): seq<Entry> { if entry.Some? then [entry.value] else [] }

  lemma CatchUpNet(effective: int, catchUp: int, day: int, deferred: Side, revenue: Side)
    requires deferred != revenue && catchUp >= 0
    ensures var c := ListOf(CatchUpDraft(effective, catchUp, deferred, revenue));
            && Paired(c, deferred, revenue) && Takes(c)
            && Net(c, revenue) == -catchUp
            && Net(Before(c, day), revenue) == if effective < day then -catchUp else 0
  {
    TwoLines(0, catchUp, deferred, revenue);
    var c := ListOf(CatchUpDraft(effective, catchUp, deferred, revenue));
    if c != [] {
      BeforeStep(c, day, revenue);
      assert c[1..] == [] && Before(c[1..], day) == [];
    }
  }

  /** Everything a plan posts moves money between the term's own two accounts and balances, and accounting takes
      it exactly when it takes the new schedule. */
  lemma PostedPaired(input: Input, deferred: Side, revenue: Side)
    requires Describes(input.entries, input.current, deferred, revenue)
    requires PlanAmountChange(input).Ok?
    ensures var p := PlanAmountChange(input).value;
            Paired(Posted(p), deferred, revenue) && (Takes(Posted(p)) <==> Takes(p.respread))
  {
    AcceptedPlan(input, deferred, revenue);
    NewSchedule(input, deferred, revenue);
    PlanBounds(input);
    var p := PlanAmountChange(input).value;
    TargetsMeaning(input.entries, input.effective, revenue);
    OffsetsNet(p.targets, 0, revenue);
    OffsetsPaired(p.targets, deferred, revenue);
    CatchUpNet(input.effective, p.catchUp, 0, deferred, revenue);
    assert forall e :: e in p.respread ==> e in Posted(p);
  }

  /** What a plan posts nets, in all and up to any day, to the new schedule less the catch-up and less what
      is replaced. */
  lemma PostedNet(input: Input, day: int, deferred: Side, revenue: Side)
    requires Describes(input.entries, input.current, deferred, revenue)
    requires PlanAmountChange(input).Ok?
    ensures var p := PlanAmountChange(input).value;
            && Net(Posted(p), revenue) == p.remaining - p.catchUp - p.replaced
            && Net(Before(Posted(p), day), revenue)
               == Net(Before(p.respread, day), revenue) - (if input.effective < day then p.catchUp else 0)
                  - Net(Before(p.targets, day), revenue)
  {
    AcceptedPlan(input, deferred, revenue);
    NewSchedule(input, deferred, revenue);
    PlanBounds(input);
    var p := PlanAmountChange(input).value;
    TargetsMeaning(input.entries, input.effective, revenue);
    OffsetsNet(p.targets, day, revenue);
    CatchUpNet(input.effective, p.catchUp, day, deferred, revenue);
    NetOfThree(ListOf(p.catchUpEntry), p.offsets, p.respread, day, revenue);
  }

  // ─── Runs ─────────────────────────────────────────────────────────────────

  /** A term as the ledger and the subscription hold it. */
  datatype Term = Term(entries: seq<Entry>, amount: int)

  /** One approved change: its day, the new amount, and the driver that cuts the new schedule. */
  datatype Change = Change(effective: int, next: int, termEnd: int, driver: Option<Driver>, periodMonths: int)

  function InputOf(term: Term, change: Change): Input {
    Input(term.entries, change.effective, change.termEnd, term.amount, change.next, change.driver, change.periodMonths)
  }

  /** The change is accepted, accounting takes its drafts and books exactly them, and the term takes the new
      amount. Earlier entries may have been batched meanwhile. */
  ghost predicate Applied(before: Term, change: Change, after: Term) {
    var result := PlanAmountChange(InputOf(before, change));
    && result.Ok? && Takes(Posted(result.value))
    && after.amount == change.next
    && SameBooks(after.entries, before.entries + Posted(result.value))
  }

  ghost predicate Holds(term: Term, deferred: Side, revenue: Side) {
    term.amount > 0 && Describes(term.entries, term.amount, deferred, revenue)
  }

  /** Any accepted change, on any effective day, leaves a ledger whose net is the term's new amount. */
  lemma ChangeKeepsNet(before: Term, change: Change, after: Term, deferred: Side, revenue: Side)
    requires Holds(before, deferred, revenue) && Applied(before, change, after)
    ensures Holds(after, deferred, revenue)
  {
    var input := InputOf(before, change);
    var p := PlanAmountChange(input).value;
    PlanBounds(input);
    AcceptedPlan(input, deferred, revenue);
    PostedPaired(input, deferred, revenue);
    PostedNet(input, 0, deferred, revenue);
    NetConcat(before.entries, Posted(p), revenue);
    SameBooksNet(after.entries, before.entries + Posted(p), 0, revenue);
    SameBooksShape(after.entries, before.entries + Posted(p), deferred, revenue);
  }

  ghost predicate Run(terms: seq<Term>, changes: seq<Change>) {
    && |terms| == |changes| + 1
    && forall i :: 0 <= i < |changes| ==> Applied(terms[i], changes[i], terms[i + 1])
  }

  /** Over every sequence of applied changes, on any effective days, the net of all the term's recognition
      entries is its current amount throughout. */
  lemma {:induction false} RunKeepsNet(terms: seq<Term>, changes: seq<Change>, i: nat, deferred: Side, revenue: Side)
    requires Run(terms, changes) && i < |terms|
    requires Holds(terms[0], deferred, revenue)
    ensures Holds(terms[i], deferred, revenue)
  {
    if i > 0 {
      RunKeepsNet(terms, changes, i - 1, deferred, revenue);
      ChangeKeepsNet(terms[i - 1], changes[i - 1], terms[i], deferred, revenue);
    }
  }

  lemma {:induction false} NetGrows(entries: seq<Entry>, day: int, deferred: Side, revenue: Side)
    requires forall e :: e in entries ==> LinesNet(e.lines, revenue) >= 0
    ensures 0 <= Net(Before(entries, day), revenue) <= Net(entries, revenue)
    ensures (forall e :: e in entries ==> e.day >= day) ==> Net(Before(entries, day), revenue) == 0
  {
    if entries != [] {
      NetGrows(entries[1..], day, deferred, revenue);
      BeforeStep(entries, day, revenue);
      assert entries[0] in entries;
    }
  }

  lemma {:induction false} RespreadReleases(slices: seq<Slice>, deferred: Side, revenue: Side)
    requires deferred != revenue && Takes(Respread(slices, deferred, revenue))
    ensures forall e :: e in Respread(slices, deferred, revenue) ==> LinesNet(e.lines, revenue) >= 0
  {
    if slices != [] {
      var all, rest := Respread(slices, deferred, revenue), Respread(slices[1..], deferred, revenue);
      if slices[0].amount == 0 {
        assert all == rest;
      } else {
        assert all[0] in all && all[0].lines[0] in all[0].lines;
        TwoLines(slices[0].amount, 0, deferred, revenue);
        assert all == [all[0]] + rest;
      }
      assert forall e :: e in rest ==> e in all;
      RespreadReleases(slices[1..], deferred, revenue);
    }
  }

  lemma RespreadOfPlan(input: Input, deferred: Side, revenue: Side)
    requires Describes(input.entries, input.current, deferred, revenue)
    requires PlanAmountChange(input).Ok? && Takes(PlanAmountChange(input).value.respread)
    ensures forall e :: e in PlanAmountChange(input).value.respread ==> LinesNet(e.lines, revenue) >= 0
  {
    ReplacedRelease(input, deferred, revenue);
    var slices := PlanSlices(input, deferred, revenue);
    RespreadReleases(slices, deferred, revenue);
  }

  /** What the next change's "adds up" check reads, when the new schedule starts no earlier than the day the
      last one took effect. On any later day it passes. On that day or an earlier one it passes exactly when
      what was dated before it is neither a net reversal nor more than the new amount. */
  lemma NextChangeAddsUp(before: Term, change: Change, after: Term, next: Change, deferred: Side, revenue: Side)
    requires Holds(before, deferred, revenue) && Applied(before, change, after)
    requires forall e :: e in PlanAmountChange(InputOf(before, change)).value.respread ==> e.day >= change.effective
    requires 0 < next.next < after.amount
    requires !InBatch(Targets(after.entries, next.effective))
    ensures PlanAmountChange(InputOf(after, next)) != Refused(UnclearRelease)
    ensures PlanAmountChange(InputOf(after, next)) == Refused(DoesNotAddUp)
       <==> && next.effective <= change.effective
            && !(0 <= Net(Before(before.entries, next.effective), revenue) <= after.amount)
  {
    var input, day := InputOf(before, change), next.effective;
    var p := PlanAmountChange(input).value;
    ChangeKeepsNet(before, change, after, deferred, revenue);
    AddsUpExactlyWhen(InputOf(after, next), deferred, revenue);
    AcceptedPlan(input, deferred, revenue);
    PlanBounds(input);
    PostedNet(input, day, deferred, revenue);
    SameBooksNet(after.entries, before.entries + Posted(p), day, revenue);
    BeforeConcat(before.entries, Posted(p), day);
    NetConcat(Before(before.entries, day), Before(Posted(p), day), revenue);
    NewSchedule(input, deferred, revenue);
    RespreadOfPlan(input, deferred, revenue);
    NetGrows(p.respread, day, deferred, revenue);
    TargetsBefore(before.entries, change.effective, day, revenue);
  }

  /** Of the entries dated before `day`, the targets are those dated from the effective day on. */
  lemma TargetsBefore(entries: seq<Entry>, effective: int, day: int, side: Side)
    ensures Net(Before(Targets(entries, effective), day), side)
         == if day <= effective then 0 else Net(Before(entries, day), side) - Net(Before(entries, effective), side)
  {
    BeforeByDate(From(entries, effective), day, side);
    BeforeFrom(entries, effective, day, side);
  }

  lemma {:induction false} BeforeInsert(entry: Entry, sorted: seq<Entry>, day: int, side: Side)
    ensures Net(Before(Insert(entry, sorted, Precedes), day), side) == Net(Before([entry] + sorted, day), side)
  {
    if sorted != [] && !Precedes(entry, sorted[0]) {
      BeforeInsert(entry, sorted[1..], day, side);
      BeforeStep(Insert(entry, sorted, Precedes), day, side);
      assert Insert(entry, sorted, Precedes)[1..] == Insert(entry, sorted[1..], Precedes);
      BeforeStep([entry] + sorted[1..], day, side);
      assert ([entry] + sorted[1..])[1..] == sorted[1..];
      BeforeStep([entry] + sorted, day, side);
      assert ([entry] + sorted)[1..] == sorted;
      BeforeStep(sorted, day, side);
    }
  }

  lemma {:induction false} BeforeByDate(entries: seq<Entry>, day: int, side: Side)
    ensures Net(Before(ByDate(entries), day), side) == Net(Before(entries, day), side)
  {
    if entries != [] {
      BeforeByDate(entries[1..], day, side);
      BeforeInsert(entries[0], ByDate(entries[1..]), day, side);
      BeforeStep([entries[0]] + ByDate(entries[1..]), day, side);
      assert ([entries[0]] + ByDate(entries[1..]))[1..] == ByDate(entries[1..]);
      BeforeStep(entries, day, side);
    }
  }

  lemma {:induction false} BeforeFrom(entries: seq<Entry>, effective: int, day: int, side: Side)
    ensures Net(Before(From(entries, effective), day), side)
         == if day <= effective then 0 else Net(Before(entries, day), side) - Net(Before(entries, effective), side)
  {
    if entries != [] {
      BeforeFrom(entries[1..], effective, day, side);
      BeforeStep(entries, day, side);
      BeforeStep(entries, effective, side);
      var rest := From(entries[1..], effective);
      if entries[0].day >= effective {
        BeforeStep([entries[0]] + rest, day, side);
        assert ([entries[0]] + rest)[1..] == rest;
        assert From(entries, effective) == [entries[0]] + rest;
      } else {
        assert From(entries, effective) == rest;
      }
    }
  }

  /** Two changes on one day: the second one's check fails exactly when more was earned before that day than
      the first one's new amount, because the catch-up then outweighs the new schedule it is read with. */
  lemma SameDayAddsUpExactlyWhen(before: Term, change: Change, after: Term, next: Change, deferred: Side, revenue: Side)
    requires Holds(before, deferred, revenue) && Applied(before, change, after)
    requires forall e :: e in PlanAmountChange(InputOf(before, change)).value.respread ==> e.day >= change.effective
    requires 0 < next.next < after.amount && next.effective == change.effective
    requires !InBatch(Targets(after.entries, next.effective))
    ensures PlanAmountChange(InputOf(after, next)) == Refused(DoesNotAddUp)
       <==> PlanAmountChange(InputOf(before, change)).value.recognized > change.next
  {
    NextChangeAddsUp(before, change, after, next, deferred, revenue);
    AcceptedPlan(InputOf(before, change), deferred, revenue);
    PlanBounds(InputOf(before, change));
  }

  function Staged(number: nat, day: int, amount: int, deferred: Side, revenue: Side): Entry {
    Entry(number, day, true, false, [Line(deferred, amount, 0), Line(revenue, 0, amount)])
  }

  lemma StagedNet(number: nat, day: int, amount: int, deferred: Side, revenue: Side)
    requires deferred != revenue
    ensures var e := Staged(number, day, amount, deferred, revenue);
            OnPair(e.lines, deferred, revenue) && LinesNet(e.lines, revenue) == amount
  {
    TwoLines(amount, 0, deferred, revenue);
  }

  lemma StagedHolds(deferred: Side, revenue: Side)
    requires deferred != revenue
    ensures var term := TwoStaged(deferred, revenue);
            Holds(term, deferred, revenue) && Net(Before(term.entries, 10), revenue) == 90
  {
    var a, b := Staged(1, 1, 90, deferred, revenue), Staged(2, 10, 10, deferred, revenue);
    var entries := TwoStaged(deferred, revenue).entries;
    StagedNet(1, 1, 90, deferred, revenue);
    StagedNet(2, 10, 10, deferred, revenue);
    assert entries[1..] == [b] && [b][1..] == [];
    BeforeStep(entries, 10, revenue);
    BeforeStep([b], 10, revenue);
  }

  /** The whole remainder on the first replaced day. */
  function OneSlice(amount: int, start: int, end: int, months: int): seq<Slice> { [Slice(start, amount)] }

  const CUT_TO_TEN := Change(10, 10, 20, Some(OneSlice), 1)

  function TwoStaged(deferred: Side, revenue: Side): Term {
    Term([Staged(1, 1, 90, deferred, revenue), Staged(2, 10, 10, deferred, revenue)], 100)
  }

  lemma FirstCutAccepted(deferred: Side, revenue: Side)
    requires deferred != revenue
    ensures PlanAmountChange(InputOf(TwoStaged(deferred, revenue), CUT_TO_TEN)).Ok?
  {
    var input := InputOf(TwoStaged(deferred, revenue), CUT_TO_TEN);
    StagedHolds(deferred, revenue);
    TargetsMeaning(input.entries, 10, revenue);
    AddsUpExactlyWhen(input, deferred, revenue);
    forall amount, start ensures Scheduled(OneSlice(amount, start, 20, 1)) == amount {
      assert [Slice(start, amount)][1..] == [];
    }
  }

  lemma FirstCutSchedule(deferred: Side, revenue: Side)
    requires deferred != revenue
    ensures var input := InputOf(TwoStaged(deferred, revenue), CUT_TO_TEN);
            && PlanAmountChange(input).Ok?
            && Takes(PlanAmountChange(input).value.respread)
            && forall e :: e in PlanAmountChange(input).value.respread ==> e.day >= 10 && e.pending && !e.batched
  {
    var input := InputOf(TwoStaged(deferred, revenue), CUT_TO_TEN);
    FirstCutAccepted(deferred, revenue);
    StagedHolds(deferred, revenue);
    ReplacedRelease(input, deferred, revenue);
    PlanBounds(input);
    OneSliceSchedule(input, deferred, revenue);
  }

  lemma OneSliceSchedule(input: Input, deferred: Side, revenue: Side)
    requires PlanAmountChange(input).Ok? && input.driver == Some(OneSlice)
    requires PlanAmountChange(input).value.remaining >= 0
    requires var release := ReleaseOf(Targets(input.entries, input.effective));
             release.Release? ==> release.debit == deferred && release.credit == revenue
    ensures var respread := PlanAmountChange(input).value.respread;
            Takes(respread) && forall e :: e in respread ==> e.day >= input.effective && e.pending && !e.batched
  {
    TargetsMeaning(input.entries, input.effective, revenue);
    var slices := PlanSlices(input, deferred, revenue);
    if slices != [] {
      var t, remaining := Targets(input.entries, input.effective)[0], PlanAmountChange(input).value.remaining;
      assert t in Targets(input.entries, input.effective);
      assert slices == [Slice(t.day, remaining)] && slices[1..] == [];
      OneSliceRespread(slices[0], deferred, revenue);
    }
  }

  lemma OneSliceRespread(slice: Slice, deferred: Side, revenue: Side)
    requires slice.amount >= 0
    ensures var release := Draft(slice.day, [Line(deferred, slice.amount, 0), Line(revenue, 0, slice.amount)]);
            Respread([slice], deferred, revenue) == (if slice.amount == 0 then [] else [release])
            && (slice.amount > 0 ==> Takes([release]))
  {
    assert [slice][1..] == [];
  }

  /** Whenever more was earned than an accepted change leaves, a second change that day is refused. */
  lemma SecondChangeRefused(before: Term, change: Change, deferred: Side, revenue: Side) returns (after: Term, next: Change)
    requires Holds(before, deferred, revenue) && PlanAmountChange(InputOf(before, change)).Ok?
    requires var p := PlanAmountChange(InputOf(before, change)).value;
             && Takes(p.respread) && p.recognized > change.next > 1
             && forall e :: e in p.respread ==> e.day >= change.effective && e.pending && !e.batched
    requires forall e :: e in before.entries ==> e.pending && !e.batched
    ensures Applied(before, change, after) && Holds(after, deferred, revenue)
    ensures next.effective == change.effective && 0 < next.next < after.amount
    ensures PlanAmountChange(InputOf(after, next)) == Refused(DoesNotAddUp)
  {
    var p := PlanAmountChange(InputOf(before, change)).value;
    AcceptedPlan(InputOf(before, change), deferred, revenue);
    PostedPaired(InputOf(before, change), deferred, revenue);
    after := Term(before.entries + Posted(p), change.next);
    next := Change(change.effective, 1, 0, None, 1);
    assert SameBooks(after.entries, before.entries + Posted(p));
    PostedPending(p);
    hide PlanAmountChange, Takes, Posted;
    ChangeKeepsNet(before, change, after, deferred, revenue);
    TargetsMeaning(after.entries, change.effective, revenue);
    SameDayAddsUpExactlyWhen(before, change, after, next, deferred, revenue);
  }

  /** A term of 100 with 90 earned, cut to 10 and then to 1 on the same day: the first change is applied and
      the second is refused, although the ledger nets to the term's amount of 10. */
  lemma SecondChangeOnOneDayRefused(deferred: Side, revenue: Side) returns (after: Term, next: Change)
    requires deferred != revenue
    ensures Holds(TwoStaged(deferred, revenue), deferred, revenue)
    ensures Applied(TwoStaged(deferred, revenue), CUT_TO_TEN, after)
    ensures Holds(after, deferred, revenue)
    ensures next.effective == CUT_TO_TEN.effective && 0 < next.next < after.amount
    ensures PlanAmountChange(InputOf(after, next)) == Refused(DoesNotAddUp)
  {
    StagedHolds(deferred, revenue);
    FirstCutSchedule(deferred, revenue);
    AcceptedPlan(InputOf(TwoStaged(deferred, revenue), CUT_TO_TEN), deferred, revenue);
    after, next := SecondChangeRefused(TwoStaged(deferred, revenue), CUT_TO_TEN, deferred, revenue);
  }

  lemma {:induction false} DraftsPending(targets: seq<Entry>)
    ensures forall e :: e in Offsets(targets) ==> e.pending && !e.batched
  {
    if targets != [] { DraftsPending(targets[1..]); }
  }

  lemma PostedPending(p: Plan)
    requires forall e :: e in p.respread ==> e.pending && !e.batched
    requires p.catchUpEntry.Some? ==> p.catchUpEntry.value.pending && !p.catchUpEntry.value.batched
    requires p.offsets == Offsets(p.targets)
    ensures forall e :: e in Posted(p) ==> e.pending && !e.batched
  {
    DraftsPending(p.targets);
  }

  // ─── The drivers' even split ──────────────────────────────────────────────

  /** The drivers' split of an amount over periods, the rounding remainder carried by the first. */
  function AllocateEvenly(amount: int, periods: int): (slices: seq<int>)
    ensures |slices| == if periods <= 0 then 0 else periods
  {
    if periods <= 0 then []
    else
      var base := RoundDiv(amount, periods);
      seq(periods, i => if i == 0 then amount - base * (periods - 1) else base)
  }

  /** The slices sum to the amount exactly, and none is negative unless the first one is: that happens
      exactly when the even slice rounds up and the remainder cannot cover what the others gained. */
  lemma EvenSplitExactlyWhen(amount: nat, periods: int)
    requires periods > 0
    ensures Sum(AllocateEvenly(amount, periods)) == amount
    ensures forall i :: 1 <= i < periods ==> AllocateEvenly(amount, periods)[i] >= 0
    ensures AllocateEvenly(amount, periods)[0] >= 0
       <==> 2 * (amount % periods) < periods || amount / periods + amount % periods + 1 >= periods
  {
    var base := RoundDiv(amount, periods);
    var slices := AllocateEvenly(amount, periods);
    EvenSlice(amount, amount / periods, amount % periods, periods);
    EvenSum(slices, base);
  }

  lemma EvenSum(slices: seq<int>, base: int)
    requires |slices| > 0 && forall i :: 1 <= i < |slices| ==> slices[i] == base
    ensures Sum(slices) == slices[0] + base * (|slices| - 1)
  {
    SumConstant(slices[1..], base);
  }

  lemma EvenSlice(amount: nat, q: nat, s: nat, periods: int)
    requires amount == periods * q + s && s < periods
    ensures RoundDiv(amount, periods) == if 2 * s < periods then q else q + 1
    ensures amount - RoundDiv(amount, periods) * (periods - 1) == if 2 * s < periods then q + s else q + s + 1 - periods
  {
    var base := if 2 * s < periods then q else q + 1;
    assert periods * (q + 1) == periods * q + periods;
    RoundDivUnique(amount, periods, base);
    assert (q + 1) * (periods - 1) == periods * q + periods - q - 1;
    assert q * (periods - 1) == periods * q - q;
  }

  lemma {:induction false} SumConstant(s: seq<int>, x: int)
    requires forall i :: 0 <= i < |s| ==> s[i] == x
    ensures Sum(s) == x * |s|
  {
    if s != [] {
      SumConstant(s[1..], x);
      assert x * |s| == x + x * (|s| - 1);
    }
  }

  /** Seven cents over twelve periods: the first slice is four cents negative. */
  lemma EvenSplitCanGoNegative()
    ensures AllocateEvenly(7, 12)[0] == -4
  {
    RoundDivUnique(7, 12, 1);
  }

  lemma {:induction false} OffsetsTaken(targets: seq<Entry>)
    requires Takes(targets)
    ensures Takes(Offsets(targets))
  {
    if targets != [] {
      assert targets[0] in targets && forall t :: t in targets[1..] ==> t in targets;
      OffsetsTaken(targets[1..]);
      MirrorLinesCancel(targets[0].lines, Side(0, multiset{}));
    }
  }

  lemma ThreeTaken(a: seq<Entry>, b: seq<Entry>, c: seq<Entry>)
    requires Takes(a) && Takes(b)
    ensures Takes(a + b + c) <==> Takes(c)
  {
    assert forall e :: e in c ==> e in a + b + c;
  }

  /** Of entries accounting booked, whatever they are, a plan's drafts are taken exactly when its schedule is. */
  lemma PostedTakenExactlyWhen(input: Input)
    requires PlanAmountChange(input).Ok? && Takes(input.entries)
    ensures var p := PlanAmountChange(input).value; Takes(Posted(p)) <==> Takes(p.respread)
  {
    var p := PlanAmountChange(input).value;
    var targets := Targets(input.entries, input.effective);
    TargetsMeaning(input.entries, input.effective, Side(0, multiset{}));
    assert Takes(targets);
    OffsetsTaken(targets);
    hide AllBookable;
    PlanDrafts(input);
    hide PlanAmountChange;
    ThreeTaken(ListOf(p.catchUpEntry), p.offsets, p.respread);
  }

  lemma PlanDrafts(input: Input)
    requires PlanAmountChange(input).Ok?
    ensures var p := PlanAmountChange(input).value;
            && (p.offsets == Offsets(Targets(input.entries, input.effective)) || p.offsets == [])
            && Takes(ListOf(p.catchUpEntry))
  {
    hide ReleaseOf, Takes, ByDate;
    var p := PlanAmountChange(input).value;
    if p.catchUpEntry.Some? {
      CatchUpTaken(p.catchUpEntry.value, p.catchUp);
    } else {
      NoneTaken();
    }
  }

  lemma NoneTaken()
    ensures Takes([])
  {
  }

  lemma CatchUpTaken(entry: Entry, catchUp: int)
    requires catchUp > 0 && |entry.lines| == 2
    requires entry.lines[0].debit == catchUp == entry.lines[1].credit && entry.lines[0].credit == 0 == entry.lines[1].debit
    ensures Takes([entry])
  {
  }

  // ─── Schedules accounting refuses ─────────────────────────────────────────

  /** Accounting takes a new schedule exactly when no slice of it is negative. */
  lemma {:induction false} RespreadTakenExactlyWhen(slices: seq<Slice>, debit: Side, credit: Side)
    ensures Takes(Respread(slices, debit, credit)) <==> forall s :: s in slices ==> s.amount >= 0
  {
    if slices != [] {
      var s, rest := slices[0], Respread(slices[1..], debit, credit);
      RespreadTakenExactlyWhen(slices[1..], debit, credit);
      assert slices == [s] + slices[1..];
      if s.amount == 0 {
        assert Respread(slices, debit, credit) == rest;
      } else {
        var first := Draft(s.day, [Line(debit, s.amount, 0), Line(credit, 0, s.amount)]);
        assert Respread(slices, debit, credit) == [first] + rest;
        assert first.lines[0] in first.lines && first in [first] + rest;
        assert forall e :: e in rest ==> e in [first] + rest;
      }
    }
  }

  /** An accepted plan over a paired ledger is refused by accounting exactly when its driver schedules a negative
      slice. */
  lemma PlanTakenExactlyWhen(input: Input, deferred: Side, revenue: Side) returns (slices: seq<Slice>)
    requires Describes(input.entries, input.current, deferred, revenue)
    requires PlanAmountChange(input).Ok?
    ensures var p := PlanAmountChange(input).value;
            && p.respread == Respread(slices, deferred, revenue)
            && (slices != [] ==> input.driver.Some? && Targets(input.entries, input.effective) != [] && slices == Driven(input, p.remaining))
            && (Takes(Posted(p)) <==> forall s :: s in slices ==> s.amount >= 0)
  {
    hide PlanAmountChange, Takes, Describes;
    PostedPaired(input, deferred, revenue);
    ReplacedRelease(input, deferred, revenue);
    slices := PlanSlices(input, deferred, revenue);
    RespreadTakenExactlyWhen(slices, deferred, revenue);
  }

  /** A schedule split evenly over its periods is taken exactly when the even slice rounds down, or the remainder
      covers what rounding it up adds to the other periods. */
  lemma EvenScheduleTakenExactlyWhen(slices: seq<Slice>, amount: nat, debit: Side, credit: Side)
    requires slices != [] && forall i :: 0 <= i < |slices| ==> slices[i].amount == AllocateEvenly(amount, |slices|)[i]
    ensures Takes(Respread(slices, debit, credit))
       <==> var n := |slices|; 2 * (amount % n) < n || amount / n + amount % n + 1 >= n
  {
    EvenSplitExactlyWhen(amount, |slices|);
    RespreadTakenExactlyWhen(slices, debit, credit);
    var even := AllocateEvenly(amount, |slices|);
    if even[0] >= 0 {
      forall s | s in slices ensures s.amount >= 0 {
        var i :| 0 <= i < |slices| && slices[i] == s;
        assert i > 0 ==> even[i] >= 0;
      }
    } else {
      assert slices[0] in slices;
    }
  }
}
