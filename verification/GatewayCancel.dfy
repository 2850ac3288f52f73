/** The gateway-first half of a cancel (StripePaymentProvider.ts, ProviderSubscriptionCancel.ts and the commit in
    CancelSubscriptionOperation.ts): read the gateway, plan, write, check the answer, and only then lock, read again
    and record. Other calls' writes and the gateway's own charges fall between any two of these. */
module GatewayCancel {
  import opened Outcomes

  // ─── The gateway's subscription ───────────────────────────────────────────

  /** Ended or not, whether its status is one that renews, how it is set to end, and when its period does. */
  datatype Gateway = Gateway(ended: bool, renewing: bool, atPeriodEnd: bool, cancelAt: Option<int>, periodEnd: Option<int>)

  datatype StripePlan = Nothing(endsAt: int) | CancelNow | AtPeriodEnd(endsAt: int) | CancelAt(endsAt: int)

  /** When it is set to end, if it is. */
  function EndingAt(g: Gateway): Option<int> { if g.atPeriodEnd then g.periodEnd else g.cancelAt }

  /** How to stop billing after `ends` (now when there is none, or it has passed). */
  function PlanStripeCancel(g: Gateway, ends: Option<int>, now: int): StripePlan {
    if g.ended then Nothing(now)
    else
      var wanted := if ends.Some? && ends.value > now then ends else None;
      if wanted.None? || !g.renewing then CancelNow
      else if EndingAt(g).Some? && EndingAt(g).value <= wanted.value then Nothing(EndingAt(g).value)
      else if g.periodEnd.Some? && g.periodEnd.value <= wanted.value then AtPeriodEnd(g.periodEnd.value)
      else CancelAt(wanted.value)
  }

  /** What the gateway makes of a write, whatever it has come to meanwhile; one way to end replaces the other. */
  function Applied(g: Gateway, plan: StripePlan): Gateway {
    match plan
    case Nothing(_) => g
    case CancelNow => g.(ended := true)
    case AtPeriodEnd(_) => g.(atPeriodEnd := true, cancelAt := None)
    case CancelAt(at) => g.(atPeriodEnd := false, cancelAt := Some(at))
  }

  /** It has ended, or is set to end by `instant`. */
  predicate EndsBy(g: Gateway, instant: int) { g.ended || (EndingAt(g).Some? && EndingAt(g).value <= instant) }

  /** It charges a renewal when its period ends, unless it ends by then. */
  predicate Charges(g: Gateway) {
    !g.ended && g.periodEnd.Some? && (EndingAt(g).None? || g.periodEnd.value < EndingAt(g).value)
  }

  function Renewed(g: Gateway, next: int): Gateway { g.(periodEnd := Some(next)) }

  // ─── What it will still charge ────────────────────────────────────────────

  /** It can charge again and again, its period ending at each of `ends` in turn. */
  predicate CanCharge(g: Gateway, ends: seq<int>)
    decreases ends
  {
    ends == [] || (Charges(g) && ends[0] > g.periodEnd.value && CanCharge(Renewed(g, ends[0]), ends[1..]))
  }

  /** When the last of those charges is made: at the end of the period before. */
  function LastCharge(g: Gateway, ends: seq<int>): int
    requires CanCharge(g, ends) && ends != []
  {
    if |ends| == 1 then g.periodEnd.value else ends[|ends| - 2]
  }

  /** It charges nothing at or after `instant`, however long it is left alone. */
  predicate QuietFrom(g: Gateway, instant: int) {
    || g.ended || g.periodEnd.None?
    || (EndingAt(g).Some? && (EndingAt(g).value <= instant || EndingAt(g).value <= g.periodEnd.value))
  }

  lemma {:induction false} QuietChargesBefore(g: Gateway, ends: seq<int>, instant: int)
    requires QuietFrom(g, instant) && CanCharge(g, ends) && ends != []
    ensures LastCharge(g, ends) < instant
    decreases ends
  {
    if |ends| > 1 {
      var next := Renewed(g, ends[0]);
      QuietChargesBefore(next, ends[1..], instant);
      assert LastCharge(g, ends) == LastCharge(next, ends[1..]);
    }
  }

  /** No charge it can still make falls at or after `instant` exactly when it is set up so: ended, or to end by then
      or by the end of its current period. */
  lemma QuietExactlyWhen(g: Gateway, instant: int)
    ensures QuietFrom(g, instant) <==> forall ends :: CanCharge(g, ends) && ends != [] ==> LastCharge(g, ends) < instant
  {
    if QuietFrom(g, instant) {
      forall ends | CanCharge(g, ends) && ends != [] ensures LastCharge(g, ends) < instant { QuietChargesBefore(g, ends, instant); }
    } else if g.periodEnd.value >= instant {
      var once := [g.periodEnd.value + 1];
      assert once[1..] == [];
      assert CanCharge(g, once);
      assert LastCharge(g, once) == g.periodEnd.value;
    } else {
      var twice := [instant, instant + 1];
      assert twice[1..] == [instant + 1] && twice[1..][1..] == [];
      assert CanCharge(Renewed(g, instant), twice[1..]);
      assert CanCharge(g, twice) && LastCharge(g, twice) == instant;
    }
  }

  /** The gateway only ever comes to charge less. */
  ghost predicate Quieter(before: Gateway, after: Gateway) {
    forall instant: int :: QuietFrom(before, instant) ==> QuietFrom(after, instant)
  }

  /** A write still underway: one that sets an instant was planned inside the period, which can only have grown. */
  predicate Timely(g: Gateway, plan: StripePlan) {
    plan.CancelAt? && g.periodEnd.Some? ==> plan.endsAt < g.periodEnd.value
  }

  lemma PlanIsTimely(g: Gateway, ends: Option<int>, now: int)
    ensures Timely(g, PlanStripeCancel(g, ends, now))
  {
  }

  /** A write that is carried out, however late, silences the gateway for good. */
  lemma WriteSilences(g: Gateway, plan: StripePlan, instant: int)
    requires Timely(g, plan) && !plan.Nothing?
    ensures QuietFrom(Applied(g, plan), instant)
  {
  }

  /** An answer that needs nothing more was set to end by the coverage asked for; and a plan carried out at once is
      always answered so. */
  lemma SettledAnswers(g: Gateway, ends: Option<int>, now: int)
    ensures PlanStripeCancel(g, ends, now).Nothing? ==> g.ended || (ends.Some? && EndsBy(g, ends.value))
    ensures PlanStripeCancel(Applied(g, PlanStripeCancel(g, ends, now)), ends, now).Nothing?
  {
  }

  lemma EndsByIsQuiet(g: Gateway, instant: int)
    requires EndsBy(g, instant)
    ensures QuietFrom(g, instant)
  {
  }

  // ─── The protocol ─────────────────────────────────────────────────────────

  datatype SubscriptionStatus = Active | Suspended | Canceled

  /** A cancel: the instant its coverage ends, whether billing is to stop at once, and whether anything is reversed. */
  datatype Call = Call(ends: int, atOnce: bool, reverses: bool)

  /** What a call comes to. `Unconfirmed` was recorded, but its commit's answer was lost. */
  datatype Answer = Declined | CancelledIt | NotRecorded | Unconfirmed

  /** `seen` is the gateway's answer the stop was confirmed on; there is none when no gateway bills. */
  datatype Phase =
    | Beginning
    | Checked(status: SubscriptionStatus)
    | Sending(status: SubscriptionStatus)
    | Answered(status: SubscriptionStatus, after: Gateway)
    | Doubtful(status: SubscriptionStatus)
    | Stopped(status: SubscriptionStatus, seen: Option<Gateway>)
    | Locked(status: SubscriptionStatus, seen: Option<Gateway>)
    | Written(seen: Option<Gateway>)
    | Done(answer: Answer)

  /** `past` is every state the gateway has been in, and `wires` the write of each call still on its way. */
  datatype State = State(
    status: SubscriptionStatus, coverage: Option<int>, confirmed: Option<Gateway>, reversals: nat, lock: Option<nat>,
    billed: bool, gateway: Gateway, past: seq<Gateway>, now: int,
    calls: seq<Call>, phases: seq<Phase>, wires: seq<Option<StripePlan>>)

  /** A step of a run. A call acts; its write lands or is refused, when the call may long have given up on it; the
      call fails wherever it is, or commits and does not hear so. Meanwhile time passes, the gateway charges or
      ends, and others change what they may. */
  datatype Move =
    | Act(call: nat) | Land(call: nat) | Refuse(call: nat) | GiveUp(call: nat) | Fail(call: nat) | Lose(call: nat)
    | Pass(time: nat) | Charge(next: int) | EndAtGateway | SetRenewing(renewing: bool) | SetStatus(status: SubscriptionStatus)

  predicate Shaped(s: State) { |s.phases| == |s.calls| == |s.wires| }

  function SetPhase(s: State, p: nat, phase: Phase): State
    requires p < |s.phases|
  {
    s.(phases := s.phases[p := phase])
  }

  function Turn(s: State, g: Gateway): State { s.(gateway := g, past := s.past + [g]) }

  /** The instant after which a call asks the gateway to charge nothing; none for at once. */
  function Asked(call: Call): Option<int> { if call.atOnce then None else Some(call.ends) }

  /** The subscription as the gateway answered it needs nothing more. */
  predicate Confirms(s: State, p: nat, g: Gateway)
    requires p < |s.calls|
  {
    PlanStripeCancel(g, Asked(s.calls[p]), s.now).Nothing?
  }

  /** The read before the write, and the plan made of it. */
  function ReadAndPlan(s: State, p: nat, status: SubscriptionStatus): State
    requires Shaped(s) && p < |s.phases|
  {
    if !s.billed then SetPhase(s, p, Stopped(status, None))
    else if Confirms(s, p, s.gateway) then SetPhase(s, p, Stopped(status, Some(s.gateway)))
    else SetPhase(s, p, Sending(status)).(wires := s.wires[p := Some(PlanStripeCancel(s.gateway, Asked(s.calls[p]), s.now))])
  }

  function Commit(s: State, p: nat, answer: Answer): State
    requires Shaped(s) && p < |s.phases| && s.phases[p].Written?
  {
    SetPhase(s, p, Done(answer)).(
      lock := None, status := Canceled, coverage := Some(s.calls[p].ends), confirmed := s.phases[p].seen,
      reversals := s.reversals + if s.calls[p].reverses then 1 else 0)
  }

  function ActOf(s: State, p: nat): Option<State>
    requires Shaped(s) && p < |s.phases|
  {
    match s.phases[p]
    case Beginning => Some(SetPhase(s, p, if s.status.Canceled? then Done(Declined) else Checked(s.status)))
    case Checked(status) => Some(ReadAndPlan(s, p, status))
    case Sending(_) => None
    case Answered(status, after) => Some(SetPhase(s, p, if Confirms(s, p, after) then Stopped(status, Some(after)) else Done(Declined)))
    case Doubtful(status) =>
      Some(SetPhase(s, p, if Confirms(s, p, s.gateway) then Stopped(status, Some(s.gateway)) else Done(Declined)))
    case Stopped(status, seen) => if s.lock.None? then Some(SetPhase(s.(lock := Some(p)), p, Locked(status, seen))) else None
    case Locked(status, seen) =>
      if s.status != status then Some(SetPhase(s.(lock := None), p, Done(Declined))) else Some(SetPhase(s, p, Written(seen)))
    case Written(_) => Some(Commit(s, p, CancelledIt))
    case Done(_) => None
  }

  /** The gateway carries out a write. A call still waiting is answered with the subscription as it then is. */
  function LandOf(s: State, p: nat): Option<State>
    requires Shaped(s) && p < |s.phases|
  {
    if s.wires[p].None? then None
    else
      var g := Applied(s.gateway, s.wires[p].value);
      var landed := Turn(s, g).(wires := s.wires[p := None]);
      Some(if s.phases[p].Sending? then SetPhase(landed, p, Answered(s.phases[p].status, g)) else landed)
  }

  function RefuseOf(s: State, p: nat): Option<State>
    requires Shaped(s) && p < |s.phases|
  {
    if s.wires[p].None? then None
    else
      var refused := s.(wires := s.wires[p := None]);
      Some(if s.phases[p].Sending? then SetPhase(refused, p, Doubtful(s.phases[p].status)) else refused)
  }

  /** A call fails, its transaction with it. What it sent the gateway may still land. */
  function FailOf(s: State, p: nat): Option<State>
    requires Shaped(s) && p < |s.phases|
  {
    if s.phases[p].Done? then None
    else Some(SetPhase(if s.lock == Some(p) then s.(lock := None) else s, p, Done(if HasStopped(s.phases[p]) then NotRecorded else Declined)))
  }

  function CallMove(s: State, move: Move, p: nat): Option<State>
    requires Shaped(s) && p < |s.phases|
  {
    match move
    case Act(_) => ActOf(s, p)
    case Land(_) => LandOf(s, p)
    case Refuse(_) => RefuseOf(s, p)
    case GiveUp(_) =>
      if s.phases[p].Sending? || s.phases[p].Answered? then Some(SetPhase(s, p, Doubtful(s.phases[p].status))) else None
    case Fail(_) => FailOf(s, p)
    case Lose(_) => if s.phases[p].Written? then Some(Commit(s, p, Unconfirmed)) else None
    case _ => None
  }

  predicate OfCall(move: Move) { move.Act? || move.Land? || move.Refuse? || move.GiveUp? || move.Fail? || move.Lose? }

  function DoMove(s: State, move: Move): (next: Option<State>)
    requires Shaped(s)
    ensures next.Some? ==> Shaped(next.value) && next.value.calls == s.calls && next.value.billed == s.billed
  {
    if OfCall(move) then (if move.call < |s.phases| then CallMove(s, move, move.call) else None)
    else
      match move
      case Pass(time) => Some(s.(now := s.now + time))
      case Charge(next) =>
        if Charges(s.gateway) && next > s.gateway.periodEnd.value && s.gateway.periodEnd.value <= s.now
        then Some(Turn(s, Renewed(s.gateway, next))) else None
      case EndAtGateway => Some(Turn(s, s.gateway.(ended := true)))
      case SetRenewing(renewing) => Some(Turn(s, s.gateway.(renewing := renewing)))
      case SetStatus(status) =>
        if s.lock.None? && !s.status.Canceled? && !status.Canceled? then Some(s.(status := status)) else None
  }

  function RunOf(s: State, moves: seq<Move>): (end: Option<State>)
    requires Shaped(s)
    ensures end.Some? ==> Shaped(end.value) && end.value.calls == s.calls && end.value.billed == s.billed
    decreases moves
  {
    if moves == [] then Some(s)
    else
      var before := RunOf(s, moves[..|moves| - 1]);
      if before.None? then None else DoMove(before.value, moves[|moves| - 1])
  }

  // ─── What every step keeps ────────────────────────────────────────────────

  /** The gateway has confirmed this call's stop. */
  predicate HasStopped(phase: Phase) { phase.Stopped? || phase.Locked? || phase.Written? }

  /** The call's cancel was committed. */
  predicate Recorded(phase: Phase) { phase == Done(CancelledIt) || phase == Done(Unconfirmed) }

  predicate Holds(phase: Phase) { phase.Locked? || phase.Written? }

  /** The gateway was once set to end by the coverage, and charges nothing past it any more. */
  ghost predicate Secured(s: State, seen: Option<Gateway>, ends: int) {
    s.billed ==> seen.Some? && seen.value in s.past && EndsBy(seen.value, ends) && QuietFrom(s.gateway, ends)
  }

  ghost predicate CallSafe(s: State, p: nat)
    requires Shaped(s) && p < |s.phases|
  {
    var phase := s.phases[p];
    && (HasStopped(phase) ==> Secured(s, phase.seen, s.calls[p].ends))
    && (phase.Sending? || phase.Answered? || phase.Doubtful? ==> s.billed)
    && (phase.Answered? ==> phase.after in s.past)
    && (s.wires[p].Some? ==> !s.wires[p].value.Nothing? && Timely(s.gateway, s.wires[p].value))
    && (Holds(phase) <==> s.lock == Some(p))
    && (phase.Written? ==> !s.status.Canceled?)
    && (!phase.Done? && !phase.Beginning? && !phase.Written? ==> !phase.status.Canceled?)
  }

  ghost predicate GatewaySafe(s: State) {
    s.gateway in s.past && forall g :: g in s.past ==> Quieter(g, s.gateway)
  }

  /** A subscription recorded as canceled was canceled by one call, with at most one reversal, on an answer of the
      gateway that showed it set to end by the coverage; and the gateway charges nothing past that coverage. */
  ghost predicate RecordSafe(s: State) {
    && (s.status.Canceled? <==> exists p :: 0 <= p < |s.phases| && Recorded(s.phases[p]))
    && (forall p, q :: 0 <= p < q < |s.phases| && Recorded(s.phases[p]) ==> !Recorded(s.phases[q]))
    && (if s.status.Canceled? then s.coverage.Some? && s.reversals <= 1 && Secured(s, s.confirmed, s.coverage.value)
        else s.coverage.None? && s.reversals == 0)
  }

  ghost predicate Safe(s: State) {
    && Shaped(s) && GatewaySafe(s) && RecordSafe(s)
    && (s.lock.Some? ==> s.lock.value < |s.phases|)
    && forall p :: 0 <= p < |s.phases| ==> CallSafe(s, p)
  }

  /** The world turns: the gateway, the clock, or a status that is not and does not become canceled. */
  lemma WorldSafe(s: State, t: State)
    requires Safe(s) && Shaped(t) && t.calls == s.calls && t.phases == s.phases && t.lock == s.lock && t.billed == s.billed
    requires t.coverage == s.coverage && t.confirmed == s.confirmed && t.reversals == s.reversals
    requires t.status == s.status || (!s.status.Canceled? && !t.status.Canceled?)
    requires (t.past == s.past && t.gateway == s.gateway) || t == Turn(s, t.gateway).(wires := t.wires)
    requires Quieter(s.gateway, t.gateway)
    requires forall p :: 0 <= p < |s.wires| && t.wires[p].Some? ==>
               !t.wires[p].value.Nothing? && Timely(t.gateway, t.wires[p].value)
    ensures Safe(t)
  {
    hide QuietFrom, EndsBy, Timely;
    forall g | g in t.past ensures Quieter(g, t.gateway) {
      if g in s.past { assert Quieter(g, s.gateway); }
    }
    forall p | 0 <= p < |t.phases| ensures CallSafe(t, p) { assert CallSafe(s, p); }
  }

  /** One call moves on, short of a commit. */
  lemma PhaseSafe(s: State, t: State, p: nat)
    requires Safe(s) && p < |s.phases| == |t.phases| && Shaped(t)
    requires t == SetPhase(s, p, t.phases[p]).(lock := t.lock, wires := s.wires[p := t.wires[p]])
    requires !Recorded(s.phases[p]) && !Recorded(t.phases[p]) && CallSafe(t, p)
    requires if Holds(t.phases[p]) then s.lock.None? || s.lock == Some(p) else t.lock == if s.lock == Some(p) then None else s.lock
    ensures Safe(t)
  {
    hide QuietFrom, EndsBy, Timely, Quieter;
    forall q | 0 <= q < |t.phases| ensures CallSafe(t, q) {
      assert CallSafe(s, q);
      assert q != p ==> t.phases[q] == s.phases[q] && t.wires[q] == s.wires[q];
    }
    if s.status.Canceled? {
      var q :| 0 <= q < |s.phases| && Recorded(s.phases[q]);
      assert Recorded(t.phases[q]);
    }
    assert CallSafe(s, p);
  }

  lemma CommitSafe(s: State, p: nat, answer: Answer)
    requires Safe(s) && p < |s.phases| && s.phases[p].Written? && (answer == CancelledIt || answer == Unconfirmed)
    ensures Safe(Commit(s, p, answer))
  {
    hide QuietFrom, EndsBy, Timely, Quieter;
    var t := Commit(s, p, answer);
    assert CallSafe(s, p) && s.lock == Some(p);
    assert Recorded(t.phases[p]);
    forall q | 0 <= q < |t.phases| ensures CallSafe(t, q) {
      assert CallSafe(s, q);
      assert q != p ==> t.phases[q] == s.phases[q];
    }
  }

  /** A gateway state it has been in that needs nothing more secures the call. */
  lemma ConfirmSecures(s: State, p: nat, g: Gateway)
    requires Safe(s) && p < |s.phases| && g in s.past && Confirms(s, p, g)
    ensures Secured(s, Some(g), s.calls[p].ends)
  {
    SettledAnswers(g, Asked(s.calls[p]), s.now);
    EndsByIsQuiet(g, s.calls[p].ends);
    assert Quieter(g, s.gateway);
  }

  /** A call that has read, or been answered, `g` settles on it. */
  lemma SettleSafe(s: State, p: nat, status: SubscriptionStatus, g: Gateway)
    requires Safe(s) && p < |s.phases| && g in s.past && s.billed
    requires s.phases[p] == Checked(status) || s.phases[p] == Answered(status, g) || s.phases[p] == Doubtful(status)
    ensures Confirms(s, p, g) ==> Safe(SetPhase(s, p, Stopped(status, Some(g))))
    ensures Safe(SetPhase(s, p, Done(Declined)))
  {
    hide QuietFrom, EndsBy, Quieter, Confirms, Timely;
    assert CallSafe(s, p);
    PhaseSafe(s, SetPhase(s, p, Done(Declined)), p);
    if Confirms(s, p, g) {
      ConfirmSecures(s, p, g);
      PhaseSafe(s, SetPhase(s, p, Stopped(status, Some(g))), p);
    }
  }

  lemma ReadSafe(s: State, p: nat, status: SubscriptionStatus)
    requires Safe(s) && p < |s.phases| && s.phases[p] == Checked(status)
    ensures Safe(ReadAndPlan(s, p, status))
  {
    hide QuietFrom, EndsBy, Quieter, Timely;
    assert CallSafe(s, p);
    if s.billed { SettleSafe(s, p, status, s.gateway); }
    hide PlanStripeCancel;
    var t := ReadAndPlan(s, p, status);
    PlanIsTimely(s.gateway, Asked(s.calls[p]), s.now);
    if t.phases[p].Sending? || !s.billed { PhaseSafe(s, t, p); }
  }

  lemma ActSafe(s: State, p: nat)
    requires Safe(s) && p < |s.phases| && ActOf(s, p).Some?
    ensures Safe(ActOf(s, p).value)
  {
    hide QuietFrom, EndsBy, Quieter, Confirms, ReadAndPlan, Timely;
    assert CallSafe(s, p);
    match s.phases[p]
    case Beginning => PhaseSafe(s, ActOf(s, p).value, p);
    case Checked(status) => ReadSafe(s, p, status);
    case Answered(status, after) => SettleSafe(s, p, status, after);
    case Doubtful(status) => SettleSafe(s, p, status, s.gateway);
    case Stopped(status, seen) => PhaseSafe(s, ActOf(s, p).value, p);
    case Locked(status, seen) => PhaseSafe(s, ActOf(s, p).value, p);
    case Written(_) => CommitSafe(s, p, CancelledIt);
  }

  lemma WriteQuiets(s: State, p: nat)
    requires Safe(s) && p < |s.phases| && s.wires[p].Some?
    ensures Quieter(s.gateway, Applied(s.gateway, s.wires[p].value))
    ensures forall q :: 0 <= q < |s.wires| && q != p && s.wires[q].Some? ==> Timely(Applied(s.gateway, s.wires[p].value), s.wires[q].value)
  {
    var plan := s.wires[p].value;
    assert CallSafe(s, p);
    forall instant: int ensures QuietFrom(Applied(s.gateway, plan), instant) { WriteSilences(s.gateway, plan, instant); }
    forall q | 0 <= q < |s.wires| && q != p && s.wires[q].Some? ensures Timely(Applied(s.gateway, plan), s.wires[q].value) {
      assert CallSafe(s, q);
    }
  }

  lemma LandSafe(s: State, p: nat)
    requires Safe(s) && p < |s.phases| && LandOf(s, p).Some?
    ensures Safe(LandOf(s, p).value)
  {
    hide QuietFrom, EndsBy, Quieter, Applied, Timely;
    var g := Applied(s.gateway, s.wires[p].value);
    var landed := Turn(s, g).(wires := s.wires[p := None]);
    WriteQuiets(s, p);
    forall q | 0 <= q < |landed.wires| && landed.wires[q].Some?
      ensures !landed.wires[q].value.Nothing? && Timely(landed.gateway, landed.wires[q].value)
    {
      assert CallSafe(s, q);
    }
    WorldSafe(s, landed);
    if s.phases[p].Sending? {
      assert CallSafe(landed, p);
      PhaseSafe(landed, LandOf(s, p).value, p);
    }
  }

  lemma RefuseSafe(s: State, p: nat)
    requires Safe(s) && p < |s.phases| && RefuseOf(s, p).Some?
    ensures Safe(RefuseOf(s, p).value)
  {
    hide QuietFrom, EndsBy, Quieter, Timely;
    assert CallSafe(s, p);
    if s.phases[p].Sending? {
      PhaseSafe(s, RefuseOf(s, p).value, p);
    } else {
      var refused := RefuseOf(s, p).value;
      forall q | 0 <= q < |s.wires| && refused.wires[q].Some?
        ensures !refused.wires[q].value.Nothing? && Timely(refused.gateway, refused.wires[q].value)
      {
        assert CallSafe(s, q);
      }
      WorldSafe(s, refused);
    }
  }

  lemma CallMoveSafe(s: State, move: Move, p: nat)
    requires Safe(s) && p < |s.phases| && CallMove(s, move, p).Some?
    ensures Safe(CallMove(s, move, p).value)
  {
    hide QuietFrom, EndsBy, Quieter, Timely, ActOf, LandOf, RefuseOf;
    assert CallSafe(s, p);
    match move
    case Act(_) => ActSafe(s, p);
    case Land(_) => LandSafe(s, p);
    case Refuse(_) => RefuseSafe(s, p);
    case GiveUp(_) => PhaseSafe(s, CallMove(s, move, p).value, p);
    case Fail(_) => PhaseSafe(s, CallMove(s, move, p).value, p);
    case Lose(_) => CommitSafe(s, p, Unconfirmed);
  }

  lemma GatewayTurns(s: State, g: Gateway)
    requires Safe(s) && Quieter(s.gateway, g) && (s.gateway.periodEnd.None? ==> g.periodEnd.None?)
    requires s.gateway.periodEnd.Some? ==> g.periodEnd.Some? && g.periodEnd.value >= s.gateway.periodEnd.value
    ensures Safe(Turn(s, g))
  {
    hide QuietFrom, EndsBy, Quieter;
    forall p | 0 <= p < |s.wires| && s.wires[p].Some? ensures !s.wires[p].value.Nothing? && Timely(g, s.wires[p].value) {
      assert CallSafe(s, p);
    }
    WorldSafe(s, Turn(s, g));
  }

  lemma MoveSafe(s: State, move: Move)
    requires Safe(s) && DoMove(s, move).Some?
    ensures Safe(DoMove(s, move).value)
  {
    if OfCall(move) {
      hide CallMove;
      CallMoveSafe(s, move, move.call);
    } else {
      forall p | 0 <= p < |s.wires| && s.wires[p].Some? ensures !s.wires[p].value.Nothing? && Timely(s.gateway, s.wires[p].value) {
        assert CallSafe(s, p);
      }
      hide Safe;
      match move
      case Charge(next) => GatewayTurns(s, Renewed(s.gateway, next));
      case EndAtGateway => GatewayTurns(s, s.gateway.(ended := true));
      case SetRenewing(renewing) => GatewayTurns(s, s.gateway.(renewing := renewing));
      case Pass(_) => WorldSafe(s, DoMove(s, move).value);
      case SetStatus(_) => WorldSafe(s, DoMove(s, move).value);
    }
  }

  /** A subscription not canceled, with the calls that will try to cancel it. */
  predicate Fresh(s: State) {
    && Shaped(s) && s.lock.None? && !s.status.Canceled? && s.coverage.None? && s.reversals == 0 && s.past == [s.gateway]
    && forall p :: 0 <= p < |s.phases| ==> s.phases[p] == Beginning && s.wires[p].None?
  }

  /** In every interleaving of cancels, of their reads, writes and answers, of failures, and of what the gateway does
      meanwhile: Orders records the cancel only on an answer that showed the gateway set to end by its coverage, and
      the gateway never charges past that coverage again; one call records it, with at most one reversal. */
  lemma {:induction false} RunIsSafe(start: State, moves: seq<Move>)
    requires Fresh(start) && RunOf(start, moves).Some?
    ensures Safe(RunOf(start, moves).value)
    decreases moves
  {
    if moves != [] {
      RunIsSafe(start, moves[..|moves| - 1]);
      MoveSafe(RunOf(start, moves[..|moves| - 1]).value, moves[|moves| - 1]);
    }
  }

  /** Once Orders has recorded the cancel, whatever the gateway still charges falls before its coverage ends. */
  lemma ChargesAreCovered(start: State, moves: seq<Move>, next: int)
    requires Fresh(start) && RunOf(start, moves).Some? && RunOf(start, moves).value.billed
    requires RunOf(start, moves).value.status.Canceled? && DoMove(RunOf(start, moves).value, Charge(next)).Some?
    ensures RunOf(start, moves).value.coverage.Some?
    ensures RunOf(start, moves).value.gateway.periodEnd.value < RunOf(start, moves).value.coverage.value
  {
    RunIsSafe(start, moves);
  }

  // ─── Running a cancel again ───────────────────────────────────────────────

  lemma RunSnoc(s: State, moves: seq<Move>, move: Move)
    requires Shaped(s) && RunOf(s, moves).Some?
    ensures RunOf(s, moves + [move]) == DoMove(RunOf(s, moves).value, move)
  {
    assert (moves + [move])[..|moves|] == moves;
  }

  lemma Twice(s: State, a: Move, b: Move) returns (end: State)
    requires Shaped(s) && DoMove(s, a).Some? && DoMove(DoMove(s, a).value, b).Some?
    ensures RunOf(s, [a, b]) == Some(end) && end == DoMove(DoMove(s, a).value, b).value
  {
    end := DoMove(DoMove(s, a).value, b).value;
    RunSnoc(s, [], a);
    RunSnoc(s, [a], b);
    assert [] + [a] == [a] && [a] + [b] == [a, b];
  }

  /** Only this call moves, its write landing when it is sent. */
  predicate Alone(moves: seq<Move>, p: nat) { forall m :: m in moves ==> m == Act(p) || m == Land(p) }

  /** From its check a call left alone stops the gateway, or finds it stopped already. */
  lemma StopsAlone(s: State, p: nat) returns (moves: seq<Move>, end: State)
    requires Shaped(s) && p < |s.phases| && s.phases[p].Checked? && s.lock.None?
    ensures RunOf(s, moves) == Some(end) && Alone(moves, p)
    ensures p < |end.phases| && end.phases[p].Stopped? && end.phases[p].status == s.phases[p].status
    ensures end.lock.None? && end.status == s.status && end.reversals == s.reversals
  {
    hide PlanStripeCancel, Applied;
    var read := DoMove(s, Act(p)).value;
    RunSnoc(s, [], Act(p));
    assert [] + [Act(p)] == [Act(p)];
    if read.phases[p].Stopped? {
      moves, end := [Act(p)], read;
    } else {
      var landed := DoMove(read, Land(p)).value;
      SettledAnswers(s.gateway, Asked(s.calls[p]), s.now);
      assert Confirms(landed, p, landed.phases[p].after);
      end := DoMove(landed, Act(p)).value;
      moves := [Act(p), Land(p), Act(p)];
      RunSnoc(s, [Act(p)], Land(p));
      RunSnoc(s, [Act(p), Land(p)], Act(p));
      assert [Act(p)] + [Land(p)] == [Act(p), Land(p)] && [Act(p), Land(p)] + [Act(p)] == moves;
    }
  }

  lemma {:induction false} RunConcat(s: State, a: seq<Move>, b: seq<Move>)
    requires Shaped(s) && RunOf(s, a).Some?
    ensures RunOf(s, a + b) == RunOf(RunOf(s, a).value, b)
    decreases b
  {
    if b == [] {
      assert a + b == a;
    } else {
      var rest := b[..|b| - 1];
      RunConcat(s, a, rest);
      assert (a + b)[..|a + b| - 1] == a + rest;
    }
  }

  /** Stopped and left alone, a call locks, finds what it read and commits. */
  lemma CommitsAlone(s: State, p: nat) returns (moves: seq<Move>, end: State)
    requires Shaped(s) && p < |s.phases| && s.phases[p].Stopped? && s.phases[p].status == s.status && s.lock.None?
    ensures RunOf(s, moves) == Some(end) && Alone(moves, p)
    ensures p < |end.phases| && end.phases[p] == Done(CancelledIt) && end.status.Canceled?
    ensures end.coverage == Some(s.calls[p].ends) && end.reversals == s.reversals + if s.calls[p].reverses then 1 else 0
  {
    var written := Twice(s, Act(p), Act(p));
    end := DoMove(written, Act(p)).value;
    moves := [Act(p), Act(p), Act(p)];
    RunSnoc(s, [Act(p), Act(p)], Act(p));
    assert [Act(p), Act(p)] + [Act(p)] == moves;
  }

  /** After a cancel failed to be recorded, the same cancel can be run again from there, whatever the gateway has
      stopped already or is still sent: it is recorded, once, unless a cancel was recorded after all, when it is told so
      and changes nothing. */
  lemma CanRunAgain(start: State, moves: seq<Move>, failed: nat, p: nat) returns (again: seq<Move>, end: State)
    requires Fresh(start) && RunOf(start, moves).Some?
    requires var s := RunOf(start, moves).value;
             && failed < |s.phases| && (s.phases[failed] == Done(NotRecorded) || s.phases[failed] == Done(Unconfirmed))
             && p < |s.phases| && s.phases[p].Beginning? && s.calls[p] == s.calls[failed] && s.lock.None?
    ensures var s := RunOf(start, moves).value;
            && RunOf(s, again) == Some(end) && Alone(again, p) && p < |end.phases|
            && (s.phases[failed] == Done(Unconfirmed) ==> s.status.Canceled?)
            && if s.status.Canceled?
               then end.phases[p] == Done(Declined) && end.status.Canceled? && end.coverage == s.coverage && end.reversals == s.reversals
               else s.coverage.None? && s.reversals == 0 && end.phases[p] == Done(CancelledIt) && end.status.Canceled?
                    && end.coverage == Some(s.calls[failed].ends) && end.reversals == if s.calls[failed].reverses then 1 else 0
  {
    RunIsSafe(start, moves);
    var s := RunOf(start, moves).value;
    assert s.phases[failed] == Done(Unconfirmed) ==> Recorded(s.phases[failed]);
    hide Safe, ReadAndPlan, Commit;
    var checked := DoMove(s, Act(p)).value;
    RunSnoc(s, [], Act(p));
    assert [] + [Act(p)] == [Act(p)];
    if s.status.Canceled? {
      again, end := [Act(p)], checked;
    } else {
      var stop, stopped := StopsAlone(checked, p);
      var commit, committed := CommitsAlone(stopped, p);
      RunConcat(checked, stop, commit);
      RunConcat(s, [Act(p)], stop + commit);
      again, end := [Act(p)] + (stop + commit), committed;
    }
  }

  // ─── What the recheck is for ──────────────────────────────────────────────

  /** A subscription the gateway bills, with the cancels about to be made. */
  function Billed(g: Gateway, now: int, calls: seq<Call>): State {
    State(Active, None, None, 0, None, true, g, [g], now, calls, seq(|calls|, _ => Beginning), seq(|calls|, _ => None))
  }

  /** Coverage to 12, and the period ends at 10: the gateway is asked to end at its period's end. But it renews first,
      to 22, and the write lands on that period: the answer shows it ends at 22, and the cancel is declined. */
  lemma RolledPeriodIsDeclined() returns (moves: seq<Move>, end: State)
    ensures var start := Billed(Gateway(false, true, false, None, Some(10)), 9, [Call(12, false, false)]);
            Fresh(start) && RunOf(start, moves) == Some(end)
    ensures end.phases == [Done(Declined)] && end.status.Active? && !EndsBy(end.gateway, 12)
  {
    var g := Gateway(false, true, false, None, Some(10));
    var start := Billed(g, 9, [Call(12, false, false)]);
    var rolled := Gateway(false, true, false, None, Some(22));
    var sent := Twice(start, Act(0), Act(0));
    assert sent == start.(phases := [Sending(Active)], wires := [Some(AtPeriodEnd(10))]);
    var renewed := Twice(sent, Pass(1), Charge(22));
    assert renewed == sent.(now := 10, gateway := rolled, past := [g, rolled]);
    end := AnswerDeclined(renewed, Gateway(false, true, true, None, Some(22)));
    RunConcat(start, [Act(0), Act(0)], [Pass(1), Charge(22)]);
    RunConcat(start, [Act(0), Act(0)] + [Pass(1), Charge(22)], [Land(0), Act(0)]);
    moves := [Act(0), Act(0)] + [Pass(1), Charge(22)] + [Land(0), Act(0)];
  }

  lemma AnswerDeclined(s: State, after: Gateway) returns (end: State)
    requires Shaped(s) && s.calls == [Call(12, false, false)] && s.phases == [Sending(Active)] && s.wires == [Some(AtPeriodEnd(10))]
    requires s.now == 10 && after == Applied(s.gateway, AtPeriodEnd(10)) && after == Gateway(false, true, true, None, Some(22))
    ensures RunOf(s, [Land(0), Act(0)]) == Some(end)
    ensures end.phases == [Done(Declined)] && end.status == s.status && end.gateway == after && !EndsBy(after, 12)
  {
    end := Twice(s, Land(0), Act(0));
  }

  /** A write landing on a subscription set to end by `instant` keeps it so exactly when it asks for no later end. */
  lemma LandedWriteKeepsEndExactlyWhen(g: Gateway, plan: StripePlan, instant: int)
    requires EndsBy(g, instant)
    ensures EndsBy(Applied(g, plan), instant)
       <==> || g.ended || plan.Nothing? || plan.CancelNow? || (plan.CancelAt? && plan.endsAt <= instant)
            || (plan.AtPeriodEnd? && g.periodEnd.Some? && g.periodEnd.value <= instant)
  {
  }

  /** Two cancels at once, to 20 and to 12. The second is recorded on an answer that shows the end at 12; the first
      one's write lands after that and moves the end to 20. No charge follows, but the two no longer agree. */
  lemma LaterWriteMovesTheEnd() returns (moves: seq<Move>, end: State)
    ensures var start := Billed(Gateway(false, true, false, None, Some(30)), 9, [Call(20, false, false), Call(12, false, false)]);
            Fresh(start) && RunOf(start, moves) == Some(end)
    ensures end.status.Canceled? && end.coverage == Some(12) && EndingAt(end.gateway) == Some(20) && QuietFrom(end.gateway, 12)
  {
    var start := Billed(Gateway(false, true, false, None, Some(30)), 9, [Call(20, false, false), Call(12, false, false)]);
    var a := Twice(start, Act(0), Act(0));
    assert a == start.(phases := [Sending(Active), Beginning], wires := [Some(CancelAt(20)), None]);
    var b := Twice(a, Act(1), Act(1));
    assert b == a.(phases := [Sending(Active), Sending(Active)], wires := [Some(CancelAt(20)), Some(CancelAt(12))]);
    var c := SecondConfirmed(b);
    hide ActOf, LandOf;
    var commit, d := CommitsAlone(c, 1);
    KeepsAlone(c, commit, 1);
    end := FirstLands(d);
    var one, two, three := [Act(0), Act(0)], [Act(1), Act(1)], [Land(1), Act(1)];
    RunConcat(start, one, two);
    RunConcat(start, one + two, three);
    RunConcat(start, one + two + three, commit);
    RunSnoc(start, one + two + three + commit, Land(0));
    moves := one + two + three + commit + [Land(0)];
  }

  lemma SecondConfirmed(b: State) returns (c: State)
    requires Shaped(b) && b.calls == [Call(20, false, false), Call(12, false, false)] && b.billed && b.now == 9
    requires b.phases == [Sending(Active), Sending(Active)] && b.wires == [Some(CancelAt(20)), Some(CancelAt(12))]
    requires b.gateway == Gateway(false, true, false, None, Some(30))
    ensures RunOf(b, [Land(1), Act(1)]) == Some(c) && c.calls == b.calls && c.status == b.status && c.lock == b.lock
    ensures c.phases == [Sending(Active), Stopped(Active, Some(c.gateway))] && c.wires == [Some(CancelAt(20)), None]
    ensures c.gateway == Gateway(false, true, false, Some(12), Some(30))
  {
    c := Twice(b, Land(1), Act(1));
  }

  lemma FirstLands(d: State) returns (end: State)
    requires Shaped(d) && |d.phases| == 2 && d.wires == [Some(CancelAt(20)), None]
    requires d.gateway == Gateway(false, true, false, Some(12), Some(30))
    ensures DoMove(d, Land(0)) == Some(end) && end.status == d.status && end.coverage == d.coverage
    ensures EndingAt(end.gateway) == Some(20) && QuietFrom(end.gateway, 12)
  {
    end := DoMove(d, Land(0)).value;
  }

  /** What a call does alone leaves other calls' writes on their way; committing, it leaves the gateway as it is. */
  lemma {:induction false} KeepsAlone(s: State, moves: seq<Move>, p: nat)
    requires Shaped(s) && p < |s.phases| && RunOf(s, moves).Some? && Alone(moves, p) && s.wires[p].None?
    requires HasStopped(s.phases[p])
    ensures var end := RunOf(s, moves).value;
            && end.gateway == s.gateway && end.wires == s.wires
            && (forall q :: 0 <= q < |s.phases| && q != p ==> end.phases[q] == s.phases[q])
            && |end.phases| == |s.phases| && (HasStopped(end.phases[p]) || end.phases[p].Done?)
    decreases moves
  {
    if moves != [] {
      var rest := moves[..|moves| - 1];
      assert forall m :: m in rest ==> m in moves;
      KeepsAlone(s, rest, p);
      assert moves[|moves| - 1] in moves;
    }
  }
}
