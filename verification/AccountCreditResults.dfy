/** What a spend of credit answers, written out: when it is declined, and what one left to itself moves and reports. */
module AccountCreditResults {
  import opened Outcomes
  import opened Rounding
  import opened AccountCredit

  /** The credit order and the order owing, and what may be spent between them. */
  function Available(orders: seq<Order>, call: Call): int
    requires call.source < |orders|
  {
    -orders[call.source].balance
  }

  /** How much a call asks for: as said, or all it can. */
  function Requested(source: Order, target: Order, call: Call): int {
    if call.amount.Some? then call.amount.value else Min(-source.balance, target.balance)
  }

  /** A call spends: both orders are confirmed and one customer's, one holds credit and the other owes, and what is asked
      for is something and no more than either. */
  predicate Spends(source: Order, target: Order, call: Call) {
    && CustomerOf(source) == CustomerOf(target) != Nobody && source.confirmed && target.confirmed
    && source.balance < 0 && target.balance > 0
    && 0 < Requested(source, target, call) <= -source.balance && Requested(source, target, call) <= target.balance
  }

  lemma DecideIs(call: Call, source: Order, target: Order)
    ensures var requested := Requested(source, target, call);
            Decide(call, source, target)
              == if !Spends(source, target, call) then Done(Declined)
                 else if call.preview then Done(Previewed(requested, -source.balance - requested, target.balance - requested))
                 else Checked(requested)
  {
    SameCustomerMeaning(source, target);
  }

  /** Read again under the locks: written just when both are still confirmed and neither balance has fallen short. */
  lemma DecideLockedIs(requested: int, source: Order, target: Order)
    ensures DecideLocked(requested, source, target)
         == if source.confirmed && target.confirmed && requested <= -source.balance && requested <= target.balance
            then Written(requested, -source.balance - requested, target.balance - requested) else Done(Declined)
  {
  }

  lemma RunSnoc(s: State, moves: seq<Move>, move: Move)
    requires |s.phases| == |s.calls| && RunOf(s, moves).Some?
    ensures RunOf(s, moves + [move]) == DoMove(RunOf(s, moves).value, move)
  {
    assert (moves + [move])[..|moves|] == moves;
  }

  function Steps(n: nat): (moves: seq<Move>)
    ensures |moves| == n
  {
    seq(n, _ => Act(0))
  }

  lemma OneMore(s: State, n: nat)
    requires |s.phases| == |s.calls| && RunOf(s, Steps(n)).Some?
    ensures RunOf(s, Steps(n + 1)) == DoMove(RunOf(s, Steps(n)).value, Act(0))
  {
    RunSnoc(s, Steps(n), Act(0));
    assert Steps(n) + [Act(0)] == Steps(n + 1);
  }

  lemma Advance(s: State, n: nat, at: State, next: State)
    requires |s.phases| == |s.calls| && RunOf(s, Steps(n)) == Some(at) && |at.phases| == |at.calls| && DoMove(at, Act(0)) == Some(next)
    ensures RunOf(s, Steps(n + 1)) == Some(next)
  {
    OneMore(s, n);
  }

  /** The orders once a call spent between its two. */
  function AfterSpend(orders: seq<Order>, call: Call, amount: int): (after: seq<Order>)
    ensures |after| == |orders|
  {
    seq(|orders|, id requires 0 <= id < |orders| =>
      if id == call.source then orders[id].(balance := orders[id].balance + amount)
      else if id == call.target then orders[id].(balance := orders[id].balance - amount)
      else orders[id])
  }

  predicate TwoOrders(orders: seq<Order>, call: Call) { call.source < |orders| && call.target < |orders| && call.source != call.target }

  lemma FirstSteps(orders: seq<Order>, call: Call) returns (n: nat, end: State)
    ensures RunOf(Start(orders, [call]), Steps(n)) == Some(end) && n <= 2
    ensures !TwoOrders(orders, call) ==> end == Start(orders, [call]).(phases := [Done(Declined)])
    ensures TwoOrders(orders, call) ==>
              n == 2 && end == Start(orders, [call]).(phases := [Decide(call, orders[call.source], orders[call.target])])
  {
    var s := Start(orders, [call]);
    assert Steps(0) == [];
    OneMore(s, 0);
    n, end := 1, DoMove(s, Act(0)).value;
    if call.source != call.target && call.source < |orders| {
      OneMore(s, 1);
      n, end := 2, DoMove(end, Act(0)).value;
    }
  }

  /** Alone from its checks on, a call locks both rows, reads them again as they were, writes and commits. */
  lemma LastSteps(orders: seq<Order>, call: Call, s: State, requested: int) returns (end: State)
    requires TwoOrders(orders, call) && RunOf(Start(orders, [call]), Steps(2)) == Some(s)
    requires s == Start(orders, [call]).(phases := [Checked(requested)]) && Spends(orders[call.source], orders[call.target], call)
    requires requested == Requested(orders[call.source], orders[call.target], call)
    ensures RunOf(Start(orders, [call]), Steps(8)) == Some(end)
    ensures end.orders == AfterSpend(orders, call, requested)
    ensures end.phases == [Done(Applied(requested, -orders[call.source].balance - requested, orders[call.target].balance - requested))]
  {
    var start := Start(orders, [call]);
    var one, both := LockBoth(orders, call, s, requested);
    var a, b, c;
    a, b, c, end := Finish(orders, call, both, requested);
    hide DoMove, Start, Spends, RunOf, Steps;
    Advance(start, 2, s, one);
    Advance(start, 3, one, both);
    Advance(start, 4, both, a);
    Advance(start, 5, a, b);
    Advance(start, 6, b, c);
    Advance(start, 7, c, end);
  }

  lemma LockBoth(orders: seq<Order>, call: Call, s: State, requested: int) returns (one: State, both: State)
    requires TwoOrders(orders, call) && s == Start(orders, [call]).(phases := [Checked(requested)])
    ensures DoMove(s, Act(0)) == Some(one) && |one.phases| == |one.calls| && DoMove(one, Act(0)) == Some(both)
    ensures both.orders == orders && both.calls == [call] && both.phases == [BothLocked(requested)]
  {
    one := DoMove(s, Act(0)).value;
    assert one == s.(phases := [OneLocked(requested)], locks := s.locks[FirstLock(call) := Some(0)]);
    both := DoMove(one, Act(0)).value;
    assert both == one.(phases := [BothLocked(requested)], locks := one.locks[SecondLock(call) := Some(0)]);
  }

  lemma Finish(orders: seq<Order>, call: Call, both: State, requested: int) returns (a: State, b: State, c: State, end: State)
    requires TwoOrders(orders, call) && both.orders == orders && both.calls == [call] && both.phases == [BothLocked(requested)]
    requires Spends(orders[call.source], orders[call.target], call) && requested == Requested(orders[call.source], orders[call.target], call)
    ensures DoMove(both, Act(0)) == Some(a) && |a.phases| == |a.calls| && DoMove(a, Act(0)) == Some(b)
    ensures |b.phases| == |b.calls| && DoMove(b, Act(0)) == Some(c) && |c.phases| == |c.calls| && DoMove(c, Act(0)) == Some(end)
    ensures end.orders == AfterSpend(orders, call, requested)
    ensures end.phases == [Done(Applied(requested, -orders[call.source].balance - requested, orders[call.target].balance - requested))]
  {
    var source, target := orders[call.source], orders[call.target];
    a := DoMove(both, Act(0)).value;
    assert a == both.(phases := [SourceReread(requested, source)]);
    b := DoMove(a, Act(0)).value;
    assert b == both.(phases := [BothReread(requested, source, target)]);
    DecideLockedIs(requested, source, target);
    hide DecideLocked;
    c := DoMove(b, Act(0)).value;
    assert c == both.(phases := [Written(requested, -source.balance - requested, target.balance - requested)]);
    end := DoMove(c, Act(0)).value;
    assert end.orders == AfterSpend(orders, call, requested);
  }

  /** A call left to itself: declined, previewed or applied exactly as the two orders stand, and only an applied one
      moves anything, just what it answers from the one to the other. */
  lemma AloneAnswers(orders: seq<Order>, call: Call) returns (n: nat, end: State)
    ensures RunOf(Start(orders, [call]), Steps(n)) == Some(end) && |end.phases| == 1 && end.phases[0].Done?
    ensures var spends := TwoOrders(orders, call) && Spends(orders[call.source], orders[call.target], call);
            && (!spends ==> end.phases[0].answer == Declined && end.orders == orders)
            && (spends ==>
                  var source, target := orders[call.source], orders[call.target];
                  var requested := Requested(source, target, call);
                  var left, owed := -source.balance - requested, target.balance - requested;
                  if call.preview then end.phases[0].answer == Previewed(requested, left, owed) && end.orders == orders
                  else end.phases[0].answer == Applied(requested, left, owed) && end.orders == AfterSpend(orders, call, requested))
  {
    n, end := FirstSteps(orders, call);
    if TwoOrders(orders, call) {
      var source, target := orders[call.source], orders[call.target];
      DecideIs(call, source, target);
      hide Decide;
      if Spends(source, target, call) && !call.preview {
        var requested := Requested(source, target, call);
        end := LastSteps(orders, call, end, requested);
        n := 8;
      }
    }
  }

  // ─── What else can happen ─────────────────────────────────────────────────

  predicate Freed(before: seq<Option<nat>>, after: seq<Option<nat>>, p: nat) {
    |after| == |before| && forall i :: 0 <= i < |before| ==> after[i] == if before[i] == Some(p) then None else before[i]
  }

  /** A call can fail wherever it is: it has moved nothing, and its locks are given back. */
  lemma FailureIs(s: State, p: nat)
    requires |s.phases| == |s.calls| && p < |s.phases| && !s.phases[p].Done?
    ensures DoMove(s, Crash(p)).Some?
    ensures var t := DoMove(s, Crash(p)).value;
            t.orders == s.orders && t.log == s.log && t.phases == s.phases[p := Done(Failed)] && Freed(s.locks, t.locks, p)
  {
  }

  /** A written call commits, and hears so or not: its two orders move by what it wrote, and its locks are given back. */
  lemma CommitsAre(s: State, p: nat)
    requires |s.phases| == |s.calls| && p < |s.phases| && s.phases[p].Written?
    requires TwoOrders(s.orders, s.calls[p])
    ensures var phase, heard, lost := s.phases[p], DoMove(s, Act(p)), DoMove(s, Lose(p));
            && heard.Some? && lost.Some?
            && heard.value.orders == lost.value.orders == AfterSpend(s.orders, s.calls[p], phase.requested)
            && heard.value.phases == s.phases[p := Done(Applied(phase.requested, phase.remaining, phase.after))]
            && lost.value.phases == s.phases[p := Done(Unconfirmed)]
            && Freed(s.locks, heard.value.locks, p) && Freed(s.locks, lost.value.locks, p)
  {
  }

  /** Another writer changes any row nobody has locked, and leaves it its customer's. */
  lemma WriteIs(s: State, id: nat, order: Order)
    requires |s.phases| == |s.calls| && |s.locks| == |s.orders|
    ensures DoMove(s, Write(id, order)).Some?
       <==> id < |s.orders| && s.locks[id] == None && CustomerOf(order) == CustomerOf(s.orders[id])
    ensures DoMove(s, Write(id, order)).Some? ==>
              var t := DoMove(s, Write(id, order)).value; t.orders == s.orders[id := order] && t.phases == s.phases && t.locks == s.locks
  {
  }

  predicate Takes(s: State, p: nat, id: int)
    requires |s.phases| == |s.calls| && 0 <= id < |s.locks|
  {
    if s.locks[id] == None then DoMove(s, Act(p)).Some? && DoMove(s, Act(p)).value.locks == s.locks[id := Some(p)]
    else DoMove(s, Act(p)) == None
  }

  /** A call waits for a row just as long as someone else has it locked, the one of its two with the lower id first. */
  lemma LocksAre(s: State, p: nat)
    requires |s.phases| == |s.calls| && p < |s.phases| && |s.locks| == |s.orders| && TwoOrders(s.orders, s.calls[p])
    ensures var call, phase := s.calls[p], s.phases[p];
            var low, high := Min(call.source, call.target), Max(call.source, call.target);
            && (phase.Checked? ==> Takes(s, p, low)) && (phase.OneLocked? ==> Takes(s, p, high))
  {
  }
}
