/** Spending an order's credit on another order, many calls at once (ApplyAccountCreditOperation.ts): read,
    check, begin, lock both rows in one order, read again, refuse or write, commit. Balances are cents, an
    order's id is its place in the list, and customers are case-folded ids. */
module AccountCredit {
  import opened Outcomes
  import opened Rounding

  datatype Order = Order(confirmed: bool, balance: int, organization: Option<nat>, person: Option<nat>)

  /** Whose credit it is: the organization an order is billed to, or else the person, or nobody. */
  datatype Customer = Organization(id: nat) | Person(id: nat) | Nobody

  function CustomerOf(order: Order): Customer {
    if order.organization.Some? then Organization(order.organization.value)
    else if order.person.Some? then Person(order.person.value)
    else Nobody
  }

  /** A credit settles only its own customer's orders. */
  predicate SameCustomer(source: Order, target: Order) {
    if source.organization.Some? then source.organization == target.organization
    else if source.person.Some? then target.organization.None? && source.person == target.person
    else false
  }

  /** The rule is that both orders are billed to one customer, and that there is one. */
  lemma SameCustomerMeaning(source: Order, target: Order)
    ensures SameCustomer(source, target) <==> CustomerOf(source) == CustomerOf(target) != Nobody
  {
  }

  datatype Call = Call(source: nat, target: nat, amount: Option<int>, preview: bool)

  /** What a call answers; the amounts are what was applied, the credit left and what the target then owes.
      `Unconfirmed` is a failure too: the commit landed and its confirmation was lost. */
  datatype Answer =
    | Declined | Previewed(applied: int, remaining: int, after: int) | Applied(applied: int, remaining: int, after: int)
    | Failed | Unconfirmed

  /** The call's spend was committed. */
  predicate Spent(phase: Phase) { phase.Done? && (phase.answer.Applied? || phase.answer.Unconfirmed?) }

  datatype Phase =
    | Starting
    | SourceRead(source: Order)
    | Checked(requested: int)
    | OneLocked(requested: int)
    | BothLocked(requested: int)
    | SourceReread(requested: int, source: Order)
    | BothReread(requested: int, source: Order, target: Order)
    | Written(requested: int, remaining: int, after: int)
    | Done(answer: Answer)

  /** What changed the orders: a committed spend, or another writer on a row nobody had locked. */
  datatype Event = Moved(source: nat, target: nat, amount: int, call: nat) | Outside(id: nat, order: Order)

  datatype State = State(
    orders: seq<Order>, locks: seq<Option<nat>>, calls: seq<Call>, phases: seq<Phase>, log: seq<Event>)

  /** One step of a run: a call acts, fails, or commits without hearing so, or another writer commits. */
  datatype Move = Act(call: nat) | Crash(call: nat) | Lose(call: nat) | Write(id: nat, order: Order)

  // ─── One call ─────────────────────────────────────────────────────────────

  /** The checks before anything is locked. */
  function Decide(call: Call, source: Order, target: Order): Phase {
    if !SameCustomer(source, target) then Done(Declined)
    else if !source.confirmed || !target.confirmed then Done(Declined)
    else
      var available, owing := -source.balance, target.balance;
      if available <= 0 || owing <= 0 then Done(Declined)
      else
        var requested := if call.amount.None? then Min(available, owing) else call.amount.value;
        if requested <= 0 || requested > available || requested > owing then Done(Declined)
        else if call.preview then Done(Previewed(requested, available - requested, owing - requested))
        else Checked(requested)
  }

  /** The checks on the rows read again under their locks. */
  function DecideLocked(requested: int, source: Order, target: Order): Phase {
    if !source.confirmed || !target.confirmed then Done(Declined)
    else if requested > -source.balance || requested > target.balance then Done(Declined)
    else Written(requested, -source.balance - requested, target.balance - requested)
  }

  /** Rows are locked in the order of their ids. */
  function FirstLock(call: Call): nat { if call.source < call.target then call.source else call.target }

  function SecondLock(call: Call): nat { if call.source < call.target then call.target else call.source }

  function Release(locks: seq<Option<nat>>, call: nat): (free: seq<Option<nat>>)
    ensures |free| == |locks|
  {
    seq(|locks|, i requires 0 <= i < |locks| => if locks[i] == Some(call) then None else locks[i])
  }

  function Move1(orders: seq<Order>, source: nat, target: nat, amount: int): (after: seq<Order>)
    requires source < |orders| && target < |orders|
    ensures |after| == |orders|
  {
    var debited := orders[source := orders[source].(balance := orders[source].balance + amount)];
    debited[target := debited[target].(balance := debited[target].balance - amount)]
  }

  function SetPhase(s: State, p: nat, phase: Phase): State
    requires p < |s.phases|
  {
    s.(phases := s.phases[p := phase])
  }

  /** A call that ends inside its transaction gives its locks back. */
  function End(s: State, p: nat, answer: Answer): State
    requires p < |s.phases|
  {
    s.(phases := s.phases[p := Done(answer)], locks := Release(s.locks, p))
  }

  function TakeLock(s: State, p: nat, id: nat, phase: Phase): Option<State>
    requires p < |s.phases|
  {
    if id < |s.locks| && s.locks[id].None? then Some(s.(locks := s.locks[id := Some(p)], phases := s.phases[p := phase])) else None
  }

  /** Both rows written, the transaction committed and the locks given back. */
  function Commit(s: State, p: nat, answer: Answer): Option<State>
    requires p < |s.phases| == |s.calls| && s.phases[p].Written?
  {
    var call, requested := s.calls[p], s.phases[p].requested;
    if call.source >= |s.orders| || call.target >= |s.orders| then None
    else Some(End(s, p, answer).(
                orders := Move1(s.orders, call.source, call.target, requested),
                log := s.log + [Moved(call.source, call.target, requested, p)]))
  }

  /** The next step of a call; none when it waits for a lock or has answered. */
  function ActOf(s: State, p: nat): Option<State>
    requires p < |s.phases| == |s.calls|
  {
    var call := s.calls[p];
    match s.phases[p]
    case Starting =>
      if call.source == call.target || call.source >= |s.orders| then Some(SetPhase(s, p, Done(Declined)))
      else Some(SetPhase(s, p, SourceRead(s.orders[call.source])))
    case SourceRead(source) =>
      if call.target >= |s.orders| then Some(SetPhase(s, p, Done(Declined)))
      else Some(SetPhase(s, p, Decide(call, source, s.orders[call.target])))
    case Checked(requested) => TakeLock(s, p, FirstLock(call), OneLocked(requested))
    case OneLocked(requested) => TakeLock(s, p, SecondLock(call), BothLocked(requested))
    case BothLocked(requested) =>
      if call.source >= |s.orders| then None else Some(SetPhase(s, p, SourceReread(requested, s.orders[call.source])))
    case SourceReread(requested, source) =>
      if call.target >= |s.orders| then None else Some(SetPhase(s, p, BothReread(requested, source, s.orders[call.target])))
    case BothReread(requested, source, target) =>
      var next := DecideLocked(requested, source, target);
      if next.Done? then Some(End(s, p, Declined)) else Some(SetPhase(s, p, next))
    case Written(requested, remaining, after) => Commit(s, p, Applied(requested, remaining, after))
    case Done(_) => None
  }

  /** A step, when it is possible. Another writer waits for a row's lock and leaves its customer alone. */
  function DoMove(s: State, move: Move): (next: Option<State>)
    requires |s.phases| == |s.calls|
    ensures next.Some? ==> |next.value.phases| == |next.value.calls|
  {
    match move
    case Act(p) => if p < |s.phases| then ActOf(s, p) else None
    case Crash(p) => if p < |s.phases| && !s.phases[p].Done? then Some(End(s, p, Failed)) else None
    case Lose(p) => if p < |s.phases| && s.phases[p].Written? then Commit(s, p, Unconfirmed) else None
    case Write(id, order) =>
      if id < |s.orders| && id < |s.locks| && s.locks[id].None? && CustomerOf(order) == CustomerOf(s.orders[id])
      then Some(s.(orders := s.orders[id := order], log := s.log + [Outside(id, order)]))
      else None
  }

  function Start(orders: seq<Order>, calls: seq<Call>): State {
    State(orders, seq(|orders|, _ => None), calls, seq(|calls|, _ => Starting), [])
  }

  /** Where a run of moves gets to; none when some move was not possible. */
  function RunOf(s: State, moves: seq<Move>): (end: Option<State>)
    requires |s.phases| == |s.calls|
    ensures end.Some? ==> |end.value.phases| == |end.value.calls|
    decreases moves
  {
    if moves == [] then Some(s)
    else
      var before := RunOf(s, moves[..|moves| - 1]);
      if before.None? then None else DoMove(before.value, moves[|moves| - 1])
  }

  // ─── The atomic transfer it refines ───────────────────────────────────────

  /** A spend in one step: within one customer, out of a credit, against a debt, and no more than either. */
  predicate Transferable(orders: seq<Order>, source: nat, target: nat, amount: int) {
    && source < |orders| && target < |orders| && source != target
    && SameCustomer(orders[source], orders[target])
    && orders[source].confirmed && orders[target].confirmed
    && 0 < amount <= -orders[source].balance && amount <= orders[target].balance
  }

  predicate Allowed(orders: seq<Order>, event: Event) {
    match event
    case Moved(source, target, amount, _) => Transferable(orders, source, target, amount)
    case Outside(id, order) => id < |orders| && CustomerOf(order) == CustomerOf(orders[id])
  }

  function Happen(orders: seq<Order>, event: Event): (after: seq<Order>)
    requires Allowed(orders, event)
    ensures |after| == |orders|
  {
    match event
    case Moved(source, target, amount, _) => Move1(orders, source, target, amount)
    case Outside(id, order) => orders[id := order]
  }

  /** The orders once a history of atomic events has happened to them, when each was allowed in its turn. */
  function History(start: seq<Order>, log: seq<Event>): (end: Option<seq<Order>>)
    ensures end.Some? ==> |end.value| == |start|
    decreases log
  {
    if log == [] then Some(start)
    else
      var before := History(start, log[..|log| - 1]);
      if before.Some? && Allowed(before.value, log[|log| - 1]) then Some(Happen(before.value, log[|log| - 1])) else None
  }

  // ─── What every step keeps ────────────────────────────────────────────────

  /** The rows a call has locked. */
  predicate HasLocked(call: Call, phase: Phase, id: nat) {
    match phase
    case Starting => false
    case SourceRead(_) => false
    case Checked(_) => false
    case OneLocked(_) => id == FirstLock(call)
    case Done(_) => false
    case _ => id == call.source || id == call.target
  }

  /** What a call knows: it passed its checks, and what it read under its locks is what the rows hold. */
  predicate Knows(orders: seq<Order>, call: Call, phase: Phase) {
    match phase
    case Starting => true
    case SourceRead(source) => call.source < |orders| && call.source != call.target && CustomerOf(source) == CustomerOf(orders[call.source])
    case Checked(requested) => Passed(orders, call, requested)
    case OneLocked(requested) => Passed(orders, call, requested)
    case BothLocked(requested) => Passed(orders, call, requested)
    case SourceReread(requested, source) => Passed(orders, call, requested) && source == orders[call.source]
    case BothReread(requested, source, target) =>
      Passed(orders, call, requested) && source == orders[call.source] && target == orders[call.target]
    case Written(requested, remaining, after) =>
      && Passed(orders, call, requested) && Transferable(orders, call.source, call.target, requested)
      && remaining == -orders[call.source].balance - requested && after == orders[call.target].balance - requested
    case Done(_) => true
  }

  predicate Passed(orders: seq<Order>, call: Call, requested: int) {
    && call.source < |orders| && call.target < |orders| && call.source != call.target && requested > 0
    && CustomerOf(orders[call.source]) == CustomerOf(orders[call.target]) != Nobody
  }

  /** The locks are just what the calls have locked, and each call knows what it should. */
  ghost predicate Consistent(s: State) {
    && |s.locks| == |s.orders| && |s.phases| == |s.calls|
    && (forall p :: 0 <= p < |s.calls| ==> Knows(s.orders, s.calls[p], s.phases[p]))
    && (forall p, id :: 0 <= p < |s.calls| && 0 <= id < |s.locks| ==>
          (HasLocked(s.calls[p], s.phases[p], id) <==> s.locks[id] == Some(p)))
    && forall id :: 0 <= id < |s.locks| && s.locks[id].Some? ==> s.locks[id].value < |s.calls|
  }

  /** Customers never change, and only unlocked rows or the committing call's own rows do. */
  lemma OthersKnow(s: State, after: seq<Order>, q: nat)
    requires Consistent(s) && q < |s.calls| && |after| == |s.orders|
    requires forall id :: 0 <= id < |after| ==> CustomerOf(after[id]) == CustomerOf(s.orders[id])
    requires forall id :: 0 <= id < |after| && HasLocked(s.calls[q], s.phases[q], id) ==> after[id] == s.orders[id]
    ensures Knows(after, s.calls[q], s.phases[q])
  {
    var call := s.calls[q];
    if s.phases[q].Written? {
      SameCustomerMeaning(after[call.source], after[call.target]);
    }
  }

  lemma DecideKnows(orders: seq<Order>, call: Call, source: Order)
    requires Knows(orders, call, SourceRead(source)) && call.target < |orders|
    ensures Knows(orders, call, Decide(call, source, orders[call.target]))
  {
    SameCustomerMeaning(source, orders[call.target]);
  }

  lemma DecideLockedKnows(orders: seq<Order>, call: Call, requested: int)
    requires Passed(orders, call, requested)
    ensures Knows(orders, call, DecideLocked(requested, orders[call.source], orders[call.target]))
  {
    SameCustomerMeaning(orders[call.source], orders[call.target]);
  }

  lemma SetPhaseConsistent(s: State, p: nat, phase: Phase)
    requires Consistent(s) && p < |s.phases| && Knows(s.orders, s.calls[p], phase)
    requires forall id :: HasLocked(s.calls[p], phase, id) <==> HasLocked(s.calls[p], s.phases[p], id)
    ensures Consistent(SetPhase(s, p, phase))
  {
    hide Knows;
  }

  lemma TakeLockConsistent(s: State, p: nat, id: nat, phase: Phase)
    requires Consistent(s) && p < |s.phases| && Knows(s.orders, s.calls[p], phase) && TakeLock(s, p, id, phase).Some?
    requires forall i :: HasLocked(s.calls[p], phase, i) <==> i == id || HasLocked(s.calls[p], s.phases[p], i)
    ensures Consistent(TakeLock(s, p, id, phase).value)
  {
    hide Knows;
  }

  lemma DoneKnows(orders: seq<Order>, call: Call, answer: Answer)
    ensures Knows(orders, call, Done(answer))
  {
  }

  lemma EndKnows(s: State, p: nat, answer: Answer, orders: seq<Order>)
    requires Consistent(s) && p < |s.phases| && |orders| == |s.orders|
    requires forall id :: 0 <= id < |orders| ==> CustomerOf(orders[id]) == CustomerOf(s.orders[id])
    requires forall id :: 0 <= id < |orders| ==> orders[id] == s.orders[id] || s.locks[id] == Some(p)
    ensures forall q :: 0 <= q < |s.calls| ==> Knows(orders, s.calls[q], End(s, p, answer).phases[q])
  {
    hide Knows, HasLocked, CustomerOf;
    forall q | 0 <= q < |s.calls| ensures Knows(orders, s.calls[q], End(s, p, answer).phases[q]) {
      if q == p { DoneKnows(orders, s.calls[p], answer); } else { OthersKnow(s, orders, q); }
    }
  }

  lemma EndConsistent(s: State, p: nat, answer: Answer, orders: seq<Order>, log: seq<Event>)
    requires Consistent(s) && p < |s.phases| && |orders| == |s.orders|
    requires forall id :: 0 <= id < |orders| ==> CustomerOf(orders[id]) == CustomerOf(s.orders[id])
    requires forall id :: 0 <= id < |orders| ==> orders[id] == s.orders[id] || s.locks[id] == Some(p)
    ensures Consistent(End(s, p, answer).(orders := orders, log := log))
  {
    hide Knows;
    EndKnows(s, p, answer, orders);
  }

  lemma CommitConsistent(s: State, p: nat, answer: Answer)
    requires Consistent(s) && p < |s.phases| && s.phases[p].Written?
    ensures Commit(s, p, answer).Some? && Consistent(Commit(s, p, answer).value)
  {
    var call, phase := s.calls[p], s.phases[p];
    assert Knows(s.orders, call, phase);
    assert HasLocked(call, phase, call.source) && HasLocked(call, phase, call.target);
    var orders := Move1(s.orders, call.source, call.target, phase.requested);
    EndConsistent(s, p, answer, orders, s.log + [Moved(call.source, call.target, phase.requested, p)]);
  }

  lemma ActConsistent(s: State, p: nat)
    requires Consistent(s) && p < |s.phases| && ActOf(s, p).Some?
    ensures Consistent(ActOf(s, p).value)
  {
    var call := s.calls[p];
    assert Knows(s.orders, call, s.phases[p]);
    hide Consistent;
    match s.phases[p]
    case Starting => SetPhaseConsistent(s, p, ActOf(s, p).value.phases[p]);
    case SourceRead(source) =>
      if call.target < |s.orders| { DecideKnows(s.orders, call, source); }
      SetPhaseConsistent(s, p, ActOf(s, p).value.phases[p]);
    case Checked(requested) => TakeLockConsistent(s, p, FirstLock(call), OneLocked(requested));
    case OneLocked(requested) => TakeLockConsistent(s, p, SecondLock(call), BothLocked(requested));
    case BothLocked(requested) => SetPhaseConsistent(s, p, SourceReread(requested, s.orders[call.source]));
    case SourceReread(requested, source) => SetPhaseConsistent(s, p, BothReread(requested, source, s.orders[call.target]));
    case BothReread(requested, source, target) =>
      DecideLockedKnows(s.orders, call, requested);
      var next := DecideLocked(requested, source, target);
      if next.Done? { EndConsistent(s, p, Declined, s.orders, s.log); } else { SetPhaseConsistent(s, p, next); }
    case Written(requested, remaining, after) => CommitConsistent(s, p, Applied(requested, remaining, after));
  }

  lemma MoveConsistent(s: State, move: Move)
    requires Consistent(s) && DoMove(s, move).Some?
    ensures Consistent(DoMove(s, move).value)
  {
    match move
    case Act(p) => ActConsistent(s, p);
    case Crash(p) => EndConsistent(s, p, Failed, s.orders, s.log);
    case Lose(p) => CommitConsistent(s, p, Unconfirmed);
    case Write(id, order) => WriteConsistent(s, id, order);
  }

  lemma WriteConsistent(s: State, id: nat, order: Order)
    requires Consistent(s) && DoMove(s, Write(id, order)).Some?
    ensures Consistent(DoMove(s, Write(id, order)).value)
  {
    var t := DoMove(s, Write(id, order)).value;
    forall q | 0 <= q < |t.calls| ensures Knows(t.orders, t.calls[q], t.phases[q]) {
      OthersKnow(s, t.orders, q);
    }
    hide Knows;
  }

  // ─── Refinement ───────────────────────────────────────────────────────────

  lemma {:induction false} HistorySnoc(start: seq<Order>, log: seq<Event>, event: Event)
    requires History(start, log).Some? && Allowed(History(start, log).value, event)
    ensures History(start, log + [event]) == Some(Happen(History(start, log).value, event))
  {
    assert (log + [event])[..|log|] == log;
  }

  /** The answer of a call that applied a credit is what its own event left, in the history as it was then. */
  ghost predicate AnswerIsCommitted(start: seq<Order>, log: seq<Event>, p: nat, call: Call, answer: Answer, i: nat) {
    && i < |log| && answer.Applied? && log[i] == Moved(call.source, call.target, answer.applied, p)
    && var left := History(start, log[..i + 1]);
    && left.Some? && call.source < |start| && call.target < |start|
    && left.value[call.source].balance == -answer.remaining <= 0
    && left.value[call.target].balance == answer.after >= 0
  }

  /** The orders are what the history of atomic events makes of them; a call is in it, once, just when it committed,
      and when it heard so it answered with what its event left. */
  ghost predicate Refines(start: seq<Order>, s: State) {
    && |s.phases| == |s.calls|
    && History(start, s.log) == Some(s.orders)
    && (forall i :: 0 <= i < |s.log| && s.log[i].Moved? ==>
          s.log[i].call < |s.phases| && Spent(s.phases[s.log[i].call]))
    && (forall i, j :: 0 <= i < j < |s.log| && s.log[i].Moved? && s.log[j].Moved? ==> s.log[i].call != s.log[j].call)
    && (forall p :: 0 <= p < |s.phases| && Spent(s.phases[p]) ==> IsIn(s.log, p))
    && forall p :: 0 <= p < |s.phases| && s.phases[p].Done? && s.phases[p].answer.Applied? ==>
         exists i :: AnswerIsCommitted(start, s.log, p, s.calls[p], s.phases[p].answer, i)
  }

  predicate IsIn(log: seq<Event>, call: nat) { exists i :: 0 <= i < |log| && log[i].Moved? && log[i].call == call }

  lemma AnswerKept(start: seq<Order>, log: seq<Event>, event: Event, p: nat, call: Call, answer: Answer, i: nat)
    requires AnswerIsCommitted(start, log, p, call, answer, i)
    ensures AnswerIsCommitted(start, log + [event], p, call, answer, i)
  {
    assert (log + [event])[..i + 1] == log[..i + 1];
  }

  /** A step that leaves the orders and the log alone, and ends no call as committed. */
  lemma QuietRefines(start: seq<Order>, s: State, t: State, p: nat)
    requires Refines(start, s) && p < |s.phases| && !s.phases[p].Done?
    requires t.orders == s.orders && t.log == s.log && t.calls == s.calls
    requires |t.phases| == |s.phases| && forall q :: 0 <= q < |s.phases| && q != p ==> t.phases[q] == s.phases[q]
    requires !Spent(t.phases[p])
    ensures Refines(start, t)
  {
  }

  lemma EventRefines(start: seq<Order>, s: State, event: Event)
    requires Refines(start, s) && Allowed(s.orders, event)
    ensures History(start, s.log + [event]) == Some(Happen(s.orders, event))
    ensures forall p :: 0 <= p < |s.phases| && s.phases[p].Done? && s.phases[p].answer.Applied? ==>
              exists i :: AnswerIsCommitted(start, s.log + [event], p, s.calls[p], s.phases[p].answer, i)
  {
    HistorySnoc(start, s.log, event);
    forall p | 0 <= p < |s.phases| && s.phases[p].Done? && s.phases[p].answer.Applied?
      ensures exists i :: AnswerIsCommitted(start, s.log + [event], p, s.calls[p], s.phases[p].answer, i)
    {
      var i :| AnswerIsCommitted(start, s.log, p, s.calls[p], s.phases[p].answer, i);
      AnswerKept(start, s.log, event, p, s.calls[p], s.phases[p].answer, i);
    }
  }

  lemma StillIn(log: seq<Event>, event: Event)
    ensures forall p: nat :: IsIn(log, p) ==> IsIn(log + [event], p)
    ensures event.Moved? ==> IsIn(log + [event], event.call)
  {
    forall p: nat | IsIn(log, p) ensures IsIn(log + [event], p) {
      var i :| 0 <= i < |log| && log[i].Moved? && log[i].call == p;
      assert (log + [event])[i] == log[i];
    }
    if event.Moved? { assert (log + [event])[|log|] == event; }
  }

  /** What a commit leaves is what its spend makes of the orders, with the balances it answers. */
  lemma CommitIsSpend(s: State, p: nat, answer: Answer)
    requires Consistent(s) && p < |s.phases| && s.phases[p].Written?
    ensures var call, phase := s.calls[p], s.phases[p];
            var event := Moved(call.source, call.target, phase.requested, p);
            && Commit(s, p, answer).Some? && Allowed(s.orders, event)
            && var t, after := Commit(s, p, answer).value, Happen(s.orders, event);
               && t.orders == after && t.log == s.log + [event] && t.calls == s.calls && t.phases == s.phases[p := Done(answer)]
               && call.source < |after| && call.target < |after|
               && after[call.source].balance == -phase.remaining <= 0 && after[call.target].balance == phase.after >= 0
  {
    assert Knows(s.orders, s.calls[p], s.phases[p]);
  }

  /** A commit, heard of or not, is one atomic spend. */
  lemma CommitRefines(start: seq<Order>, s: State, p: nat, answer: Answer)
    requires Consistent(s) && Refines(start, s) && p < |s.phases| && s.phases[p].Written?
    requires answer == Unconfirmed || answer == Applied(s.phases[p].requested, s.phases[p].remaining, s.phases[p].after)
    ensures Commit(s, p, answer).Some? && Refines(start, Commit(s, p, answer).value)
  {
    hide Consistent, Commit, Allowed, Happen, History;
    var call, phase := s.calls[p], s.phases[p];
    var event := Moved(call.source, call.target, phase.requested, p);
    CommitIsSpend(s, p, answer);
    var t := Commit(s, p, answer).value;
    EventRefines(start, s, event);
    StillIn(s.log, event);
    assert t.log[..|s.log| + 1] == t.log;
    if answer.Applied? { assert AnswerIsCommitted(start, t.log, p, call, t.phases[p].answer, |s.log|); }
  }

  lemma WriteRefines(start: seq<Order>, s: State, id: nat, order: Order)
    requires Refines(start, s) && DoMove(s, Write(id, order)).Some?
    ensures Refines(start, DoMove(s, Write(id, order)).value)
  {
    EventRefines(start, s, Outside(id, order));
    StillIn(s.log, Outside(id, order));
  }

  lemma ActRefines(start: seq<Order>, s: State, p: nat)
    requires Consistent(s) && Refines(start, s) && p < |s.phases| && ActOf(s, p).Some?
    ensures Refines(start, ActOf(s, p).value)
  {
    if s.phases[p].Written? {
      CommitRefines(start, s, p, Applied(s.phases[p].requested, s.phases[p].remaining, s.phases[p].after));
    } else {
      ActQuiet(s, p);
      hide ActOf;
      QuietRefines(start, s, ActOf(s, p).value, p);
    }
  }

  /** Before its commit a call touches no order. */
  lemma ActQuiet(s: State, p: nat)
    requires p < |s.phases| == |s.calls| && ActOf(s, p).Some? && !s.phases[p].Written?
    ensures var t := ActOf(s, p).value;
            && !s.phases[p].Done? && t.orders == s.orders && t.log == s.log && t.calls == s.calls
            && |t.phases| == |s.phases| && (forall q :: 0 <= q < |s.phases| && q != p ==> t.phases[q] == s.phases[q])
            && !Spent(t.phases[p])
  {
    hide Release;
  }

  lemma MoveRefines(start: seq<Order>, s: State, move: Move)
    requires Consistent(s) && Refines(start, s) && DoMove(s, move).Some?
    ensures Refines(start, DoMove(s, move).value)
  {
    hide Refines, Consistent, ActOf, Commit;
    match move
    case Act(p) => ActRefines(start, s, p);
    case Lose(p) => CommitRefines(start, s, p, Unconfirmed);
    case Crash(p) => QuietRefines(start, s, End(s, p, Failed), p);
    case Write(id, order) => WriteRefines(start, s, id, order);
  }

  /** In every interleaving of any number of calls, other writers and failures: the orders are what an atomic
      history makes of them, each committed call is in it once, heard of or not, and every credit applied is
      answered with the balances its commit left. */
  lemma {:induction false} RunRefines(orders: seq<Order>, calls: seq<Call>, moves: seq<Move>)
    requires RunOf(Start(orders, calls), moves).Some?
    ensures Refines(orders, RunOf(Start(orders, calls), moves).value)
    ensures Consistent(RunOf(Start(orders, calls), moves).value)
    decreases moves
  {
    if moves != [] {
      RunRefines(orders, calls, moves[..|moves| - 1]);
      var before := RunOf(Start(orders, calls), moves[..|moves| - 1]).value;
      MoveConsistent(before, moves[|moves| - 1]);
      MoveRefines(orders, before, moves[|moves| - 1]);
    }
  }

  // ─── Conservation ─────────────────────────────────────────────────────────

  function OwedBy(orders: seq<Order>, customer: Customer): (owed: seq<int>)
    ensures |owed| == |orders|
  {
    seq(|orders|, i requires 0 <= i < |orders| => if CustomerOf(orders[i]) == customer then orders[i].balance else 0)
  }

  /** What a customer owes over all their orders, less what is held for them. */
  function Owed(orders: seq<Order>, customer: Customer): int { Sum(OwedBy(orders, customer)) }

  /** No order holding credit went above zero and none owing went below, and no customer owes more or less. */
  ghost predicate Conserves(before: seq<Order>, after: seq<Order>) {
    && |after| == |before|
    && (forall c :: Owed(after, c) == Owed(before, c))
    && (forall i :: 0 <= i < |before| ==> CustomerOf(after[i]) == CustomerOf(before[i]))
    && forall i :: 0 <= i < |before| ==>
         && (before[i].balance <= 0 ==> before[i].balance <= after[i].balance <= 0)
         && (before[i].balance >= 0 ==> 0 <= after[i].balance <= before[i].balance)
  }

  /** A spend moves money between two orders of one customer. */
  lemma TransferConserves(orders: seq<Order>, source: nat, target: nat, amount: int)
    requires Transferable(orders, source, target, amount)
    ensures Conserves(orders, Move1(orders, source, target, amount))
  {
    var after := Move1(orders, source, target, amount);
    SameCustomerMeaning(orders[source], orders[target]);
    var owner := CustomerOf(orders[source]);
    forall c ensures Owed(after, c) == Owed(orders, c) {
      if c == owner {
        var debited := OwedBy(orders, c)[source := orders[source].balance + amount];
        SumUpdate(OwedBy(orders, c), source, orders[source].balance + amount);
        SumUpdate(debited, target, orders[target].balance - amount);
        assert OwedBy(after, c) == debited[target := orders[target].balance - amount];
      } else {
        assert OwedBy(after, c) == OwedBy(orders, c);
      }
    }
  }

  /** No move in the run is another writer's. */
  predicate Undisturbed(moves: seq<Move>) { forall i :: 0 <= i < |moves| ==> !moves[i].Write? }

  lemma MoveConserves(s: State, move: Move)
    requires Consistent(s) && DoMove(s, move).Some? && !move.Write?
    ensures Conserves(s.orders, DoMove(s, move).value.orders)
  {
    if (move.Act? || move.Lose?) && s.phases[move.call].Written? {
      var call, phase := s.calls[move.call], s.phases[move.call];
      assert Knows(s.orders, call, phase);
      TransferConserves(s.orders, call.source, call.target, phase.requested);
    } else {
      assert DoMove(s, move).value.orders == s.orders;
    }
  }

  /** Whatever the interleaving and the failures, each customer's total is as it was, an order holding credit
      never rises above zero and an order owing never falls below it. */
  lemma {:induction false} RunConserves(orders: seq<Order>, calls: seq<Call>, moves: seq<Move>)
    requires RunOf(Start(orders, calls), moves).Some? && Undisturbed(moves)
    ensures Conserves(orders, RunOf(Start(orders, calls), moves).value.orders)
    decreases moves
  {
    if moves != [] {
      var rest := moves[..|moves| - 1];
      RunConserves(orders, calls, rest);
      RunRefines(orders, calls, rest);
      MoveConserves(RunOf(Start(orders, calls), rest).value, moves[|moves| - 1]);
    }
  }

  // ─── Every call answers ───────────────────────────────────────────────────

  /** The row a call waits for, when it is about to lock one. */
  function WaitsFor(call: Call, phase: Phase): Option<nat> {
    match phase
    case Checked(_) => Some(FirstLock(call))
    case OneLocked(_) => Some(SecondLock(call))
    case _ => None
  }

  /** A call that cannot act waits for a row another call has locked, further on than any row it has itself. */
  lemma BlockedBy(s: State, p: nat) returns (holder: nat, id: nat)
    requires Consistent(s) && p < |s.phases| && !s.phases[p].Done? && ActOf(s, p).None?
    ensures WaitsFor(s.calls[p], s.phases[p]) == Some(id) && id < |s.orders|
    ensures holder < |s.phases| && HasLocked(s.calls[holder], s.phases[holder], id)
    ensures forall i: nat :: HasLocked(s.calls[p], s.phases[p], i) ==> i < id
  {
    assert Knows(s.orders, s.calls[p], s.phases[p]);
    id := WaitsFor(s.calls[p], s.phases[p]).value;
    holder := s.locks[id].value;
  }

  /** However many calls wait for each other, one of them can always act: they never wait in a circle. */
  lemma {:induction false} SomeoneCanAct(s: State, p: nat) returns (q: nat)
    requires Consistent(s) && p < |s.phases| && !s.phases[p].Done?
    ensures q < |s.phases| && !s.phases[q].Done? && ActOf(s, q).Some?
    decreases |s.orders| - if ActOf(s, p).None? && WaitsFor(s.calls[p], s.phases[p]).Some?
                           then WaitsFor(s.calls[p], s.phases[p]).value else 0
  {
    if ActOf(s, p).Some? {
      q := p;
    } else {
      var holder, id := BlockedBy(s, p);
      if ActOf(s, holder).Some? {
        q := holder;
      } else {
        var next, further := BlockedBy(s, holder);
        q := SomeoneCanAct(s, holder);
      }
    }
  }

  /** How many steps a call has left. */
  function StepsLeft(phase: Phase): nat {
    match phase
    case Starting => 8
    case SourceRead(_) => 7
    case Checked(_) => 6
    case OneLocked(_) => 5
    case BothLocked(_) => 4
    case SourceReread(_, _) => 3
    case BothReread(_, _, _) => 2
    case Written(_, _, _) => 1
    case Done(_) => 0
  }

  function AllLeft(phases: seq<Phase>): (left: seq<int>)
    ensures |left| == |phases|
  {
    seq(|phases|, i requires 0 <= i < |phases| => StepsLeft(phases[i]))
  }

  function OwnMoves(moves: seq<Move>): nat {
    if moves == [] then 0 else (if moves[|moves| - 1].Write? then 0 else 1) + OwnMoves(moves[..|moves| - 1])
  }

  lemma PhaseSteps(s: State, move: Move)
    requires |s.phases| == |s.calls| && DoMove(s, move).Some? && !move.Write?
    ensures var phases := DoMove(s, move).value.phases;
            && move.call < |s.phases| && phases == s.phases[move.call := phases[move.call]]
            && StepsLeft(phases[move.call]) < StepsLeft(s.phases[move.call])
  {
    hide Release, Move1;
  }

  lemma MoveSpends(s: State, move: Move)
    requires |s.phases| == |s.calls| && DoMove(s, move).Some?
    ensures Sum(AllLeft(DoMove(s, move).value.phases)) + (if move.Write? then 0 else 1) <= Sum(AllLeft(s.phases))
  {
    if !move.Write? {
      PhaseSteps(s, move);
      hide DoMove, StepsLeft;
      var t, p := DoMove(s, move).value, move.call;
      SumUpdate(AllLeft(s.phases), p, StepsLeft(t.phases[p]));
      assert AllLeft(t.phases) == AllLeft(s.phases)[p := StepsLeft(t.phases[p])];
    }
  }

  lemma {:induction false} AllStart(n: nat)
    ensures Sum(AllLeft(seq(n, _ => Starting))) == 8 * n
  {
    if n > 0 {
      AllStart(n - 1);
      assert AllLeft(seq(n, _ => Starting))[1..] == AllLeft(seq(n - 1, _ => Starting));
    }
  }

  /** A run has at most eight steps for each call, whatever other writers do meanwhile: with `SomeoneCanAct`,
      every call answers. */
  lemma {:induction false} RunsEnd(orders: seq<Order>, calls: seq<Call>, moves: seq<Move>)
    requires RunOf(Start(orders, calls), moves).Some?
    ensures OwnMoves(moves) + Sum(AllLeft(RunOf(Start(orders, calls), moves).value.phases)) <= 8 * |calls|
    decreases moves
  {
    if moves == [] {
      AllStart(|calls|);
      assert Start(orders, calls).phases == seq(|calls|, _ => Starting);
    } else {
      RunsEnd(orders, calls, moves[..|moves| - 1]);
      MoveSpends(RunOf(Start(orders, calls), moves[..|moves| - 1]).value, moves[|moves| - 1]);
    }
  }
}
