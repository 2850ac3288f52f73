/** The account step after a checkout (CheckoutAccountStep.ts): a session's calls queue behind each other, and the
    session's stored state decides what reaches the host. Times are in milliseconds. */
module AccountStep {
  import opened Outcomes

  // ─── One at a time ────────────────────────────────────────────────────────

  /** A call waits for the one before it, works, settles, and then leaves the queue. */
  datatype Stage = Waiting | Working | Settled | Left

  datatype QueuedCall = QueuedCall(session: nat, previous: Option<nat>, stage: Stage)

  /** The calls in the order they came, and each session's last one while it is kept. */
  datatype Queues = Queues(calls: seq<QueuedCall>, tails: map<nat, nat>)

  datatype QueueMove = Enter(session: nat) | Begin(call: nat) | Settle(call: nat) | Leave(call: nat)

  predicate HasSettled(call: QueuedCall) { call.stage.Settled? || call.stage.Left? }

  /** A step of the queues, when it is possible. A call begins once the one before it has settled, whether that
      one succeeded or threw; leaving, it drops the session's entry only when that is still its own. */
  function QueueStep(q: Queues, move: QueueMove): Option<Queues> {
    match move
    case Enter(session) =>
      var previous := if session in q.tails then Some(q.tails[session]) else None;
      Some(Queues(q.calls + [QueuedCall(session, previous, Waiting)], q.tails[session := |q.calls|]))
    case Begin(c) =>
      if c < |q.calls| && q.calls[c].stage.Waiting?
         && (q.calls[c].previous.None? || (q.calls[c].previous.value < |q.calls| && HasSettled(q.calls[q.calls[c].previous.value])))
      then Some(q.(calls := q.calls[c := q.calls[c].(stage := Working)]))
      else None
    case Settle(c) =>
      if c < |q.calls| && q.calls[c].stage.Working? then Some(q.(calls := q.calls[c := q.calls[c].(stage := Settled)])) else None
    case Leave(c) =>
      if c < |q.calls| && q.calls[c].stage.Settled?
      then
        var session := q.calls[c].session;
        var tails := if session in q.tails && q.tails[session] == c then q.tails - {session} else q.tails;
        Some(Queues(q.calls[c := q.calls[c].(stage := Left)], tails))
      else None
  }

  function QueueRun(moves: seq<QueueMove>): Option<Queues>
    decreases moves
  {
    if moves == [] then Some(Queues([], map[]))
    else
      var before := QueueRun(moves[..|moves| - 1]);
      if before.None? then None else QueueStep(before.value, moves[|moves| - 1])
  }

  /** Every earlier call of `session` has settled. */
  predicate AllSettled(calls: seq<QueuedCall>, session: nat, before: nat) {
    forall i :: 0 <= i < |calls| && i < before && calls[i].session == session ==> HasSettled(calls[i])
  }

  /** `last` is the latest call of `session` before the `n`th. */
  predicate IsLast(calls: seq<QueuedCall>, session: nat, n: nat, last: nat) {
    && last < n <= |calls| && calls[last].session == session
    && forall i :: last < i < n ==> calls[i].session != session
  }

  /** Each call waits for the latest of its session, or for none when they had all settled; so a call that has
      begun came after they settled. A session without an entry has nothing unsettled. */
  ghost predicate Chained(q: Queues) {
    && (forall c :: 0 <= c < |q.calls| ==>
          match q.calls[c].previous
          case Some(last) => IsLast(q.calls, q.calls[c].session, c, last)
          case None => AllSettled(q.calls, q.calls[c].session, c))
    && (forall c :: 0 <= c < |q.calls| && !q.calls[c].stage.Waiting? ==> AllSettled(q.calls, q.calls[c].session, c))
    && (forall s :: s in q.tails ==> IsLast(q.calls, s, |q.calls|, q.tails[s]))
    && forall s :: s !in q.tails ==> AllSettled(q.calls, s, |q.calls|)
  }

  /** A call further on only ever moves on from what it was. */
  predicate MovesOn(a: Stage, b: Stage) {
    a == b || (a.Waiting? && b.Working?) || (a.Working? && b.Settled?) || (a.Settled? && b.Left?)
  }

  /** A call that moves on leaves what had settled settled, and each session's last call what it was. */
  lemma StageKept(calls: seq<QueuedCall>, c: nat, stage: Stage, session: nat, n: nat)
    requires c < |calls| && MovesOn(calls[c].stage, stage)
    ensures AllSettled(calls, session, n) ==> AllSettled(calls[c := calls[c].(stage := stage)], session, n)
  {
  }

  lemma LastKept(calls: seq<QueuedCall>, c: nat, stage: Stage, session: nat, n: nat, last: nat)
    requires c < |calls| && IsLast(calls, session, n, last)
    ensures IsLast(calls[c := calls[c].(stage := stage)], session, n, last)
  {
  }

  /** What a call has that has begun: whichever it waited for has settled, and so has everything before that. */
  lemma BeganAfterAll(q: Queues, c: nat)
    requires Chained(q) && c < |q.calls|
    requires match q.calls[c].previous case Some(last) => last < |q.calls| && HasSettled(q.calls[last]) case None => true
    ensures AllSettled(q.calls, q.calls[c].session, c)
  {
    if q.calls[c].previous.Some? {
      var last := q.calls[c].previous.value;
      assert IsLast(q.calls, q.calls[c].session, c, last);
      assert AllSettled(q.calls, q.calls[last].session, last);
    }
  }

  lemma EnterChained(q: Queues, session: nat)
    requires Chained(q)
    ensures Chained(QueueStep(q, Enter(session)).value)
  {
    var t, n := QueueStep(q, Enter(session)).value, |q.calls|;
    assert t.calls[..n] == q.calls && t.calls[n].session == session;
    forall s: nat, m: nat | m <= n ensures AllSettled(q.calls, s, m) ==> AllSettled(t.calls, s, m) {}
    forall s: nat, m: nat, last: nat | IsLast(q.calls, s, m, last) ensures IsLast(t.calls, s, m, last) {}
    forall s: nat | s != session ensures AllSettled(q.calls, s, n) ==> AllSettled(t.calls, s, n + 1) {}
    forall s: nat, last: nat | s != session && IsLast(q.calls, s, n, last) ensures IsLast(t.calls, s, n + 1, last) {}
    assert IsLast(t.calls, session, n + 1, n);
    hide AllSettled, IsLast;
  }

  lemma StageChained(q: Queues, c: nat, stage: Stage)
    requires Chained(q) && c < |q.calls| && MovesOn(q.calls[c].stage, stage)
    requires !stage.Waiting? ==> AllSettled(q.calls, q.calls[c].session, c)
    ensures Chained(q.(calls := q.calls[c := q.calls[c].(stage := stage)]))
  {
    var t := q.(calls := q.calls[c := q.calls[c].(stage := stage)]);
    forall session: nat, n: nat ensures AllSettled(q.calls, session, n) ==> AllSettled(t.calls, session, n) {
      StageKept(q.calls, c, stage, session, n);
    }
    forall session: nat, n: nat, last: nat | IsLast(q.calls, session, n, last) ensures IsLast(t.calls, session, n, last) {
      LastKept(q.calls, c, stage, session, n, last);
    }
    hide AllSettled, IsLast;
  }

  lemma LeaveChained(q: Queues, c: nat)
    requires Chained(q) && c < |q.calls| && q.calls[c].stage.Settled?
    ensures QueueStep(q, Leave(c)).Some? && Chained(QueueStep(q, Leave(c)).value)
  {
    StageChained(q, c, Left);
    var t, session := QueueStep(q, Leave(c)).value, q.calls[c].session;
    if session in q.tails && q.tails[session] == c {
      assert IsLast(q.calls, session, |q.calls|, c);
      assert AllSettled(q.calls, session, c);
      assert AllSettled(t.calls, session, |t.calls|);
    }
  }

  lemma QueueStepChained(q: Queues, move: QueueMove)
    requires Chained(q) && QueueStep(q, move).Some?
    ensures Chained(QueueStep(q, move).value)
  {
    match move
    case Enter(session) => EnterChained(q, session);
    case Begin(c) =>
      BeganAfterAll(q, c);
      StageChained(q, c, Working);
    case Settle(c) => StageChained(q, c, Settled);
    case Leave(c) => LeaveChained(q, c);
  }

  lemma {:induction false} QueueRunChained(moves: seq<QueueMove>)
    requires QueueRun(moves).Some?
    ensures Chained(QueueRun(moves).value)
    decreases moves
  {
    if moves != [] {
      QueueRunChained(moves[..|moves| - 1]);
      QueueStepChained(QueueRun(moves[..|moves| - 1]).value, moves[|moves| - 1]);
    }
  }

  /** However calls come and go, two calls on one session never overlap, and they work in the order they came. */
  lemma NeverOverlap(moves: seq<QueueMove>, a: nat, b: nat)
    requires QueueRun(moves).Some?
    requires var calls := QueueRun(moves).value.calls;
             a < b < |calls| && calls[a].session == calls[b].session && !calls[b].stage.Waiting?
    ensures HasSettled(QueueRun(moves).value.calls[a])
  {
    QueueRunChained(moves);
  }

  /** A waiting call can begin as soon as every earlier call of its session has settled, even by throwing. */
  lemma NextCanBegin(moves: seq<QueueMove>, c: nat)
    requires QueueRun(moves).Some?
    requires var calls := QueueRun(moves).value.calls;
             c < |calls| && calls[c].stage.Waiting? && AllSettled(calls, calls[c].session, c)
    ensures QueueStep(QueueRun(moves).value, Begin(c)).Some?
  {
    QueueRunChained(moves);
  }

  /** A session's entry is its last call, and that one has not left. */
  predicate Tidy(q: Queues) {
    forall s :: s in q.tails ==> q.tails[s] < |q.calls| && q.calls[q.tails[s]].session == s && !q.calls[q.tails[s]].stage.Left?
  }

  lemma StepTidy(q: Queues, move: QueueMove)
    requires Tidy(q) && QueueStep(q, move).Some?
    ensures Tidy(QueueStep(q, move).value)
  {
  }

  /** Once every call of a session has left, the queue keeps nothing of it. */
  lemma {:induction false} QueueIsDropped(moves: seq<QueueMove>, session: nat)
    requires QueueRun(moves).Some?
    ensures Tidy(QueueRun(moves).value)
    ensures (forall c :: c in QueueRun(moves).value.calls && c.session == session ==> c.stage.Left?)
              ==> session !in QueueRun(moves).value.tails
    decreases moves
  {
    hide QueueStep;
    if moves != [] {
      QueueIsDropped(moves[..|moves| - 1], session);
      StepTidy(QueueRun(moves[..|moves| - 1]).value, moves[|moves| - 1]);
    }
  }

  // ─── The stored step ──────────────────────────────────────────────────────

  const MAX_ATTEMPTS := 5
  const MAX_LENGTH := 256

  datatype HostOutcome = Created | Exists | HostFailed | NotApplicable

  /** What the session remembers. `pending` is set before a password is passed on and cleared with its answer. */
  datatype Account = Account(outcome: HostOutcome, decidedAt: int, passwordSet: bool, attempts: nat, pending: bool)

  /** How the host answered a password: it may also have thrown, or not answered in time, or its answer was lost
      with the process; or the password never reached it. */
  datatype Fate = NeverReached | Accepted | Declined | Threw | TimedOut | Lost

  /** The session as stored, and the passwords the host was given, in order. */
  datatype Session = Session(stored: Option<Account>, given: seq<Fate>)

  /** What the host answers a request to ensure an account, when it answers. */
  datatype Ensured = Answered(outcome: HostOutcome) | Unrecognised | EnsureThrew | EnsureTimedOut

  /** What the buyer is shown of the step. */
  datatype Status = Status(outcome: HostOutcome, canSetPassword: bool)

  datatype Response = Response(success: bool, account: Option<Status>)

  /** One request, with everything outside it that decides how it goes: the clock, the host, the saves. */
  datatype Request =
    | Ensure(now: int, hasEmail: bool, host: Ensured, saved: bool)
    | SetPassword(now: int, length: nat, firstSaved: bool, fate: Fate, secondSaved: bool)

  predicate WithinWindow(account: Account, window: int, now: int) {
    window > 0 && now <= account.decidedAt + window
  }

  predicate CanSetPassword(account: Account, window: int, now: int) {
    && account.outcome.Created? && !account.passwordSet && !account.pending
    && account.attempts < MAX_ATTEMPTS && WithinWindow(account, window, now)
  }

  function StatusOf(account: Account, window: int, now: int): Status {
    Status(account.outcome, CanSetPassword(account, window, now))
  }

  /** What of the stored account the buyer sees: nothing once the step turned out not to apply. */
  function BuyerFacing(stored: Option<Account>): Option<Account> {
    if stored.Some? && !stored.value.outcome.NotApplicable? then stored else None
  }

  function Decided(hasEmail: bool, host: Ensured): HostOutcome {
    if hasEmail && host.Answered? then host.outcome else HostFailed
  }

  function EnsureOf(s: Session, window: int, r: Request): (Session, Response)
    requires r.Ensure?
  {
    var shown := BuyerFacing(s.stored);
    if s.stored.Some? && s.stored.value.outcome.NotApplicable? then (s, Response(true, None))
    else if shown.Some? && !shown.value.outcome.HostFailed? then (s, Response(true, Some(StatusOf(shown.value, window, r.now))))
    else
      var account := Account(Decided(r.hasEmail, r.host), r.now, false, 0, false);
      (if r.saved then s.(stored := Some(account)) else s,
       Response(true, if account.outcome.NotApplicable? then None else Some(StatusOf(account, window, r.now))))
  }

  /** The host was given the password unless something failed before it. */
  function Given(s: Session, fate: Fate): Session {
    if fate.NeverReached? then s else s.(given := s.given + [fate])
  }

  function SetOf(s: Session, window: int, r: Request): (Session, Response)
    requires r.SetPassword?
  {
    var shown := BuyerFacing(s.stored);
    var status := if shown.Some? then Some(StatusOf(shown.value, window, r.now)) else None;
    if shown.None? || !CanSetPassword(shown.value, window, r.now) then (s, Response(false, status))
    else if r.length == 0 || r.length > MAX_LENGTH then (s, Response(false, status))
    else if !r.firstSaved then (s, Response(false, status))
    else
      var pending := shown.value.(attempts := shown.value.attempts + 1, pending := true);
      var passed := Given(s.(stored := Some(pending)), r.fate);
      if r.fate.TimedOut? || r.fate.Lost? then (passed, Response(false, Some(StatusOf(pending, window, r.now))))
      else
        var next := pending.(pending := false, passwordSet := r.fate.Accepted?);
        (if r.secondSaved then passed.(stored := Some(next)) else passed,
         Response(r.fate.Accepted?, Some(StatusOf(next, window, r.now))))
  }

  function RequestOf(s: Session, window: int, r: Request): (Session, Response) {
    if r.Ensure? then EnsureOf(s, window, r) else SetOf(s, window, r)
  }

  /** One session's account step, its stored state rewritten call by call. */
  class StoredStep {
    const window: int
    var stored: Option<Account>
    ghost var given: seq<Fate>

    ghost function State(): Session
      reads this
    {
      Session(stored, given)
    }

    constructor (window: int)
      ensures State() == Session(None, []) && this.window == window
    {
      this.window := window;
      stored := None;
      given := [];
    }

    /** Run the step, or return the outcome it already reached. */
    method EnsureAccount(now: int, hasEmail: bool, host: Ensured, saved: bool) returns (response: Response)
      modifies this
      ensures (State(), response) == EnsureOf(old(State()), window, Ensure(now, hasEmail, host, saved))
    {
      if stored.Some? && stored.value.outcome.NotApplicable? { return Response(true, None); }
      var shown := BuyerFacing(stored);
      if shown.Some? && !shown.value.outcome.HostFailed? {
        return Response(true, Some(StatusOf(shown.value, window, now)));
      }
      var outcome := HostFailed;
      if hasEmail && host.Answered? { outcome := host.outcome; }
      var account := Account(outcome, now, false, 0, false);
      if saved { stored := Some(account); }
      if outcome.NotApplicable? { return Response(true, None); }
      response := Response(true, Some(StatusOf(account, window, now)));
    }

    /** Pass a password on, recording the attempt before and the answer after. */
    method SetAccountPassword(now: int, length: nat, firstSaved: bool, fate: Fate, secondSaved: bool) returns (response: Response)
      modifies this
      ensures (State(), response) == SetOf(old(State()), window, SetPassword(now, length, firstSaved, fate, secondSaved))
    {
      var shown := BuyerFacing(stored);
      if shown.None? { return Response(false, None); }
      var state := shown.value;
      var status := Some(StatusOf(state, window, now));
      if !CanSetPassword(state, window, now) { return Response(false, status); }
      if length == 0 || length > MAX_LENGTH { return Response(false, status); }
      var pending := state.(attempts := state.attempts + 1, pending := true);
      if !firstSaved { return Response(false, status); }
      stored := Some(pending);
      if !fate.NeverReached? { given := given + [fate]; }
      if fate.TimedOut? || fate.Lost? { return Response(false, Some(StatusOf(pending, window, now))); }
      var next := pending.(pending := false, passwordSet := fate.Accepted?);
      if secondSaved { stored := Some(next); }
      response := Response(fate.Accepted?, Some(StatusOf(next, window, now)));
    }
  }

  // ─── Runs ─────────────────────────────────────────────────────────────────

  /** A password that may be set at the host: no other may follow it. */
  predicate MaySet(fate: Fate) { fate.Accepted? || fate.TimedOut? || fate.Lost? }

  /** What the stored state says of the passwords given: each was counted, only a created account was given any,
      and one that may be set closed the form. */
  ghost predicate Guarded(s: Session) {
    && |s.given| <= MAX_ATTEMPTS
    && (forall i :: 0 <= i < |s.given| - 1 ==> !MaySet(s.given[i]))
    && (s.given != [] ==> && s.stored.Some? && s.stored.value.outcome.Created? && |s.given| <= s.stored.value.attempts
                          && (MaySet(s.given[|s.given| - 1]) ==> s.stored.value.passwordSet || s.stored.value.pending))
    && (s.stored.Some? ==> |s.given| <= s.stored.value.attempts <= MAX_ATTEMPTS)
  }

  function SessionAfter(window: int, requests: seq<Request>): Session
    decreases requests
  {
    if requests == [] then Session(None, [])
    else RequestOf(SessionAfter(window, requests[..|requests| - 1]), window, requests[|requests| - 1]).0
  }

  lemma RequestGuarded(s: Session, window: int, r: Request)
    requires Guarded(s)
    ensures Guarded(RequestOf(s, window, r).0)
  {
  }

  /** Over every run of calls, with refusals, throws, lost answers and failed saves in any order: at most five
      passwords reach the host, and none after one that succeeded, timed out or was lost. */
  lemma {:induction false} RunGuarded(window: int, requests: seq<Request>)
    ensures Guarded(SessionAfter(window, requests))
    decreases requests
  {
    if requests != [] {
      RunGuarded(window, requests[..|requests| - 1]);
      RequestGuarded(SessionAfter(window, requests[..|requests| - 1]), window, requests[|requests| - 1]);
    }
  }

  predicate Final(outcome: HostOutcome) { !outcome.HostFailed? }

  /** A recorded outcome other than a failure never changes again, nor does the moment it was decided. */
  lemma {:induction false} RecordedIsFinal(window: int, requests: seq<Request>, more: seq<Request>)
    requires SessionAfter(window, requests).stored.Some? && Final(SessionAfter(window, requests).stored.value.outcome)
    ensures var before, after := SessionAfter(window, requests).stored.value, SessionAfter(window, requests + more).stored;
            && after.Some? && after.value.outcome == before.outcome && after.value.decidedAt == before.decidedAt
            && before.attempts <= after.value.attempts && (before.passwordSet ==> after.value.passwordSet)
    decreases more
  {
    if more == [] {
      assert requests + more == requests;
    } else {
      RecordedIsFinal(window, requests, more[..|more| - 1]);
      assert (requests + more)[..|requests + more| - 1] == requests + more[..|more| - 1];
    }
  }

  /** A password reaches the host only within the window after an account was created, with the form open. */
  lemma ReachedOnlyWhileOpen(s: Session, window: int, r: Request)
    ensures var after := RequestOf(s, window, r).0;
            |after.given| == |s.given| || (
              && r.SetPassword? && after.given == s.given + [r.fate] && r.firstSaved && 0 < r.length <= MAX_LENGTH
              && s.stored.Some? && CanSetPassword(s.stored.value, window, r.now)
              && after.stored.Some? && after.stored.value.attempts == s.stored.value.attempts + 1)
  {
  }

  /** The buyer is told a password was set only when the host accepted it, and no other password follows it,
      whether or not its answer could be recorded. */
  lemma AcceptedClosesForGood(window: int, requests: seq<Request>, r: Request, more: seq<Request>)
    requires r.SetPassword? && RequestOf(SessionAfter(window, requests), window, r).1.success
    ensures r.fate.Accepted?
    ensures SessionAfter(window, requests + [r] + more).given == SessionAfter(window, requests + [r]).given
  {
    assert (requests + [r])[..|requests|] == requests;
    RunGuarded(window, requests + [r]);
    ClosedStays(window, requests + [r], more);
  }

  /** Once a password may have been set, no later call gives the host another. */
  lemma {:induction false} ClosedStays(window: int, requests: seq<Request>, more: seq<Request>)
    requires var given := SessionAfter(window, requests).given; given != [] && MaySet(given[|given| - 1])
    ensures SessionAfter(window, requests + more).given == SessionAfter(window, requests).given
    decreases more
  {
    if more == [] {
      assert requests + more == requests;
    } else {
      ClosedStays(window, requests, more[..|more| - 1]);
      RunGuarded(window, requests + more[..|more| - 1]);
      assert (requests + more)[..|requests + more| - 1] == requests + more[..|more| - 1];
      ReachedOnlyWhileOpen(SessionAfter(window, requests + more[..|more| - 1]), window, more[|more| - 1]);
    }
  }
}
