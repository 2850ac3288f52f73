/** Taking one payment once (CapturePaymentOperation.ts): the lookup by idempotency key, the unique index behind
    it, previews and read-backs that roll back, and any number of captures at once. A payment is known by the
    capture that wrote it; an empty key stands for none. */
module CapturePayment {
  import opened Outcomes

  datatype Call = Call(key: string, preview: bool)

  /** What a capture answers: a payment (its own, or the one a retry found), a preview, or a failure. A commit
      whose confirmation is lost answers a failure too. */
  datatype Answer = Reported(payment: nat, retry: bool) | Previewed | Failed | CommitUnconfirmed

  datatype Phase = Starting | Ready | Written | ReadBack | Duplicate | Found(payment: nat) | Done(answer: Answer)

  datatype Payment = Payment(call: nat, key: string)

  /** The committed payments, the captures whose write of a key is not committed yet, and the captures. */
  datatype State = State(committed: seq<Payment>, writing: map<string, nat>, calls: seq<Call>, phases: seq<Phase>)

  /** A step: a lookup by key that sees what is committed or misses it, the next step of a capture, a read-back
      or a write that fails, or a commit that goes through unconfirmed. */
  datatype Move = Look(call: nat, misses: bool) | Act(call: nat) | Fail(call: nat) | Lose(call: nat)

  function Lookup(committed: seq<Payment>, key: string): (found: Option<nat>)
    ensures found.Some? <==> exists p :: p in committed && p.key == key
    ensures found.Some? ==> Payment(found.value, key) in committed
  {
    if committed == [] then None
    else if committed[0].key == key then
      assert committed[0] in committed;
      Some(committed[0].call)
    else
      var rest := Lookup(committed[1..], key);
      assert rest.None? ==> forall p :: p in committed ==> p.key != key;
      rest
  }

  function SetPhase(s: State, p: nat, phase: Phase): State
    requires p < |s.phases|
  {
    s.(phases := s.phases[p := phase])
  }

  /** Roll back, which lets go of the key. */
  function RollBack(s: State, p: nat, phase: Phase): State
    requires p < |s.phases| == |s.calls|
  {
    var key := s.calls[p].key;
    SetPhase(s, p, phase).(writing := if key in s.writing && s.writing[key] == p then s.writing - {key} else s.writing)
  }

  function Commit(s: State, p: nat, answer: Answer): State
    requires p < |s.phases| == |s.calls|
  {
    RollBack(s, p, Done(answer)).(committed := s.committed + [Payment(p, s.calls[p].key)])
  }

  /** Write inside a transaction. The unique index makes a second write of a key wait for the first to end, and
      refuses one of a key already committed. */
  function Write(s: State, p: nat): Option<State>
    requires p < |s.phases| == |s.calls|
  {
    var key := s.calls[p].key;
    if key == "" then Some(SetPhase(s, p, Written))
    else if key in s.writing then None
    else if Lookup(s.committed, key).Some? then Some(SetPhase(s, p, Duplicate))
    else Some(SetPhase(s, p, Written).(writing := s.writing[key := p]))
  }

  function ActOf(s: State, p: nat): Option<State>
    requires p < |s.phases| == |s.calls|
  {
    var call := s.calls[p];
    match s.phases[p]
    case Starting => if call.key == "" || call.preview then Some(SetPhase(s, p, Ready)) else None
    case Ready => Write(s, p)
    case Written => Some(SetPhase(s, p, ReadBack))
    case ReadBack => Some(if call.preview then RollBack(s, p, Done(Previewed)) else Commit(s, p, Reported(p, false)))
    case Duplicate => None
    case Found(payment) => Some(SetPhase(s, p, Done(Reported(payment, true))))
    case Done(_) => None
  }

  /** Look the key up: before writing, where a miss goes on to write, or after the index refused it. */
  function LookOf(s: State, p: nat, misses: bool): Option<State>
    requires p < |s.phases| == |s.calls|
  {
    var found := if misses then None else Lookup(s.committed, s.calls[p].key);
    if s.phases[p].Starting? && s.calls[p].key != "" && !s.calls[p].preview then
      Some(SetPhase(s, p, if found.Some? then Found(found.value) else Ready))
    else if s.phases[p].Duplicate? then
      Some(SetPhase(s, p, if found.Some? then Found(found.value) else Done(Failed)))
    else None
  }

  function DoMove(s: State, move: Move): (next: Option<State>)
    requires |s.phases| == |s.calls|
    ensures next.Some? ==> |next.value.phases| == |next.value.calls| && next.value.calls == s.calls
  {
    if move.call >= |s.phases| then None
    else
      var p := move.call;
      match move
      case Look(_, misses) => LookOf(s, p, misses)
      case Act(_) => ActOf(s, p)
      case Fail(_) => if s.phases[p].Done? then None else Some(RollBack(s, p, Done(Failed)))
      case Lose(_) => if s.phases[p].ReadBack? && !s.calls[p].preview then Some(Commit(s, p, CommitUnconfirmed)) else None
  }

  function Start(calls: seq<Call>): State { State([], map[], calls, seq(|calls|, _ => Starting)) }

  function RunOf(s: State, moves: seq<Move>): (end: Option<State>)
    requires |s.phases| == |s.calls|
    ensures end.Some? ==> |end.value.phases| == |end.value.calls| && end.value.calls == s.calls
    decreases moves
  {
    if moves == [] then Some(s)
    else
      var before := RunOf(s, moves[..|moves| - 1]);
      if before.None? then None else DoMove(before.value, moves[|moves| - 1])
  }

  // ─── What every step keeps ────────────────────────────────────────────────

  predicate WritesKey(call: Call, phase: Phase) { call.key != "" && (phase.Written? || phase.ReadBack?) }

  /** A capture that wrote its payment for good: it said so, or could not. */
  predicate Took(phase: Phase, p: nat) { phase == Done(Reported(p, false)) || phase == Done(CommitUnconfirmed) }

  /** A key being written is held by the one capture that writes it, and no committed payment has it. */
  ghost predicate KeysHeld(s: State) {
    && |s.phases| == |s.calls|
    && (forall key :: key in s.writing ==> HeldBy(s, key, s.writing[key]) && Lookup(s.committed, key).None?)
    && forall p :: 0 <= p < |s.phases| && WritesKey(s.calls[p], s.phases[p]) ==>
         s.calls[p].key in s.writing && s.writing[s.calls[p].key] == p
  }

  predicate HeldBy(s: State, key: string, p: nat)
    requires |s.phases| == |s.calls|
  {
    p < |s.phases| && s.calls[p].key == key && WritesKey(s.calls[p], s.phases[p])
  }

  /** No key and no capture twice. */
  ghost predicate AllDistinct(committed: seq<Payment>) {
    && (forall i, j :: 0 <= i < j < |committed| && committed[i].key != "" ==> committed[i].key != committed[j].key)
    && forall i, j :: 0 <= i < j < |committed| ==> committed[i].call != committed[j].call
  }

  /** A committed payment is that of a capture that took it, and no preview. */
  predicate TakenBy(calls: seq<Call>, phases: seq<Phase>, x: Payment)
    requires |phases| == |calls|
  {
    x.call < |phases| && calls[x.call].key == x.key && !calls[x.call].preview && Took(phases[x.call], x.call)
  }

  /** The payment a capture has found or reported, if any. */
  function Names(phase: Phase): Option<nat> {
    if phase.Found? then Some(phase.payment)
    else if phase.Done? && phase.answer.Reported? then Some(phase.answer.payment)
    else None
  }

  /** Captures took just the committed payments, and name only those. */
  ghost predicate Known(committed: seq<Payment>, calls: seq<Call>, phases: seq<Phase>) {
    && |phases| == |calls|
    && (forall x :: x in committed ==> TakenBy(calls, phases, x))
    && (forall p :: 0 <= p < |phases| && Took(phases[p], p) ==> Payment(p, calls[p].key) in committed)
    && forall p :: 0 <= p < |phases| && Names(phases[p]).Some? ==> Payment(Names(phases[p]).value, calls[p].key) in committed
  }

  ghost predicate Once(s: State) {
    KeysHeld(s) && AllDistinct(s.committed) && Known(s.committed, s.calls, s.phases)
  }

  lemma KnownAfter(s: State, p: nat, phase: Phase, after: seq<Payment>)
    requires Known(s.committed, s.calls, s.phases) && p < |s.phases| && !s.phases[p].Done?
    requires if Took(phase, p) then after == s.committed + [Payment(p, s.calls[p].key)] && !s.calls[p].preview else after == s.committed
    requires Names(phase).Some? ==> Payment(Names(phase).value, s.calls[p].key) in after
    ensures Known(after, s.calls, s.phases[p := phase])
  {
    var phases := s.phases[p := phase];
    forall x | x in after ensures TakenBy(s.calls, phases, x) {
      if x in s.committed { assert TakenBy(s.calls, s.phases, x) && x.call != p; }
    }
    forall q | 0 <= q < |phases| && Took(phases[q], q) ensures Payment(q, s.calls[q].key) in after {
      if q != p { assert Payment(q, s.calls[q].key) in s.committed; }
    }
    forall q | 0 <= q < |phases| && Names(phases[q]).Some? ensures Payment(Names(phases[q]).value, s.calls[q].key) in after {
      if q != p { assert Payment(Names(s.phases[q]).value, s.calls[q].key) in s.committed; }
    }
  }

  lemma PhaseHeld(s: State, p: nat, phase: Phase)
    requires KeysHeld(s) && p < |s.phases| && WritesKey(s.calls[p], phase) == WritesKey(s.calls[p], s.phases[p])
    ensures KeysHeld(SetPhase(s, p, phase))
  {
    hide Lookup, WritesKey;
    var t := SetPhase(s, p, phase);
    forall key | key in t.writing ensures HeldBy(t, key, t.writing[key]) { assert HeldBy(s, key, s.writing[key]); }
  }

  /** A step that neither commits nor starts or ends a write. */
  lemma PhaseOnce(s: State, p: nat, phase: Phase)
    requires Once(s) && p < |s.phases| && !s.phases[p].Done? && WritesKey(s.calls[p], phase) == WritesKey(s.calls[p], s.phases[p])
    requires !Took(phase, p) && (Names(phase).Some? ==> Payment(Names(phase).value, s.calls[p].key) in s.committed)
    ensures Once(SetPhase(s, p, phase))
  {
    PhaseHeld(s, p, phase);
    KnownAfter(s, p, phase, s.committed);
  }

  lemma WriteHeld(s: State, p: nat)
    requires KeysHeld(s) && p < |s.phases| && s.phases[p].Ready?
    requires s.calls[p].key != "" && s.calls[p].key !in s.writing && Lookup(s.committed, s.calls[p].key).None?
    ensures KeysHeld(SetPhase(s, p, Written).(writing := s.writing[s.calls[p].key := p]))
  {
    hide Lookup;
    var t := SetPhase(s, p, Written).(writing := s.writing[s.calls[p].key := p]);
    forall key | key in t.writing ensures HeldBy(t, key, t.writing[key]) && Lookup(t.committed, key).None? {
      if key in s.writing { assert HeldBy(s, key, s.writing[key]); }
    }
  }

  lemma WriteOnce(s: State, p: nat)
    requires Once(s) && p < |s.phases| && s.phases[p].Ready? && Write(s, p).Some?
    ensures Once(Write(s, p).value)
  {
    var phase := Write(s, p).value.phases[p];
    if phase.Duplicate? || s.calls[p].key == "" {
      PhaseOnce(s, p, phase);
    } else {
      WriteHeld(s, p);
      KnownAfter(s, p, phase, s.committed);
    }
  }

  /** Letting go of a key, with the committed payments as they are or with the one that held it. */
  lemma LetGoHeld(s: State, p: nat, phase: Phase, committed: seq<Payment>)
    requires KeysHeld(s) && p < |s.phases| && !WritesKey(s.calls[p], phase)
    requires forall key :: key != s.calls[p].key && Lookup(s.committed, key).None? ==> Lookup(committed, key).None?
    requires committed == s.committed || s.calls[p].key == "" || WritesKey(s.calls[p], s.phases[p])
    ensures KeysHeld(RollBack(s, p, phase).(committed := committed))
  {
    hide Lookup;
    var t := RollBack(s, p, phase).(committed := committed);
    forall key | key in t.writing ensures HeldBy(t, key, t.writing[key]) && Lookup(t.committed, key).None? {
      assert HeldBy(s, key, s.writing[key]);
    }
    forall q | 0 <= q < |t.phases| && WritesKey(t.calls[q], t.phases[q]) ensures t.calls[q].key in t.writing && t.writing[t.calls[q].key] == q {
      assert q != p && WritesKey(s.calls[q], s.phases[q]);
    }
  }

  lemma RollBackOnce(s: State, p: nat, answer: Answer)
    requires Once(s) && p < |s.phases| && !s.phases[p].Done? && !answer.Reported? && !answer.CommitUnconfirmed?
    ensures Once(RollBack(s, p, Done(answer)))
  {
    hide Lookup;
    LetGoHeld(s, p, Done(answer), s.committed);
    KnownAfter(s, p, Done(answer), s.committed);
  }

  lemma LookupSnoc(committed: seq<Payment>, payment: Payment, key: string)
    requires key != payment.key
    ensures Lookup(committed + [payment], key).Some? <==> Lookup(committed, key).Some?
  {
    hide Lookup;
    assert forall x :: x in committed + [payment] && x.key == key ==> x in committed;
    assert forall x :: x in committed ==> x in committed + [payment];
  }

  lemma DistinctSnoc(s: State, p: nat)
    requires Once(s) && p < |s.phases| && s.phases[p].ReadBack?
    ensures AllDistinct(s.committed + [Payment(p, s.calls[p].key)])
  {
    var key := s.calls[p].key;
    forall i | 0 <= i < |s.committed| ensures s.committed[i].call != p && (key != "" ==> s.committed[i].key != key) {
      assert s.committed[i] in s.committed && TakenBy(s.calls, s.phases, s.committed[i]);
      assert key != "" ==> WritesKey(s.calls[p], s.phases[p]) && Lookup(s.committed, key).None?;
    }
  }

  lemma CommitOnce(s: State, p: nat, answer: Answer)
    requires Once(s) && p < |s.phases| && s.phases[p].ReadBack? && !s.calls[p].preview
    requires answer == Reported(p, false) || answer == CommitUnconfirmed
    ensures Once(Commit(s, p, answer))
  {
    hide Lookup;
    var payment := Payment(p, s.calls[p].key);
    forall key | key != s.calls[p].key && Lookup(s.committed, key).None? ensures Lookup(s.committed + [payment], key).None? {
      LookupSnoc(s.committed, payment, key);
    }
    LetGoHeld(s, p, Done(answer), s.committed + [payment]);
    DistinctSnoc(s, p);
    KnownAfter(s, p, Done(answer), s.committed + [payment]);
  }

  lemma ActOnce(s: State, p: nat)
    requires Once(s) && p < |s.phases| && ActOf(s, p).Some?
    ensures Once(ActOf(s, p).value)
  {
    hide Lookup, KeysHeld, AllDistinct;
    match s.phases[p]
    case Starting => PhaseOnce(s, p, Ready);
    case Ready => WriteOnce(s, p);
    case Written => PhaseOnce(s, p, ReadBack);
    case ReadBack => if s.calls[p].preview { RollBackOnce(s, p, Previewed); } else { CommitOnce(s, p, Reported(p, false)); }
    case Found(payment) => PhaseOnce(s, p, Done(Reported(payment, true)));
  }

  lemma MoveOnce(s: State, move: Move)
    requires Once(s) && DoMove(s, move).Some?
    ensures Once(DoMove(s, move).value)
  {
    var p := move.call;
    match move
    case Look(_, misses) => PhaseOnce(s, p, LookOf(s, p, misses).value.phases[p]);
    case Act(_) => ActOnce(s, p);
    case Fail(_) => RollBackOnce(s, p, Failed);
    case Lose(_) => CommitOnce(s, p, CommitUnconfirmed);
  }

  lemma {:induction false} RunOnce(calls: seq<Call>, moves: seq<Move>)
    requires RunOf(Start(calls), moves).Some?
    ensures Once(RunOf(Start(calls), moves).value)
    decreases moves
  {
    if moves != [] {
      RunOnce(calls, moves[..|moves| - 1]);
      MoveOnce(RunOf(Start(calls), moves[..|moves| - 1]).value, moves[|moves| - 1]);
    }
  }

  /** However many captures carry one key, at once or one after another, and whatever their lookups miss: at most
      one payment commits, and every success reports that payment. */
  lemma OnePaymentPerKey(calls: seq<Call>, moves: seq<Move>, p: nat, q: nat)
    requires RunOf(Start(calls), moves).Some? && p < |calls| && q < |calls| && calls[p].key == calls[q].key != ""
    ensures var s := RunOf(Start(calls), moves).value;
            && (Took(s.phases[p], p) && Took(s.phases[q], q) ==> p == q)
            && (Names(s.phases[p]).Some? && Names(s.phases[q]).Some? ==> Names(s.phases[p]) == Names(s.phases[q]))
            && (Names(s.phases[p]).Some? && Took(s.phases[q], q) ==> Names(s.phases[p]) == Some(q))
  {
    RunOnce(calls, moves);
    var s := RunOf(Start(calls), moves).value;
    hide Lookup, KeysHeld;
    forall a, b | a in s.committed && b in s.committed && a.key == b.key == calls[p].key ensures a == b {
      var i :| 0 <= i < |s.committed| && s.committed[i] == a;
      var j :| 0 <= j < |s.committed| && s.committed[j] == b;
    }
  }

  /** A preview writes nothing, nor does a capture that failed, unless it was its commit that went unconfirmed;
      a success of its own is written, once, and a payment is never written by a capture that does not know it. */
  lemma NothingElseIsWritten(calls: seq<Call>, moves: seq<Move>, p: nat)
    requires RunOf(Start(calls), moves).Some? && p < |calls|
    ensures var s := RunOf(Start(calls), moves).value;
            (exists x :: x in s.committed && x.call == p) <==> Took(s.phases[p], p)
    ensures var s := RunOf(Start(calls), moves).value;
            calls[p].preview ==> !Took(s.phases[p], p)
  {
    RunOnce(calls, moves);
    var s := RunOf(Start(calls), moves).value;
    if Took(s.phases[p], p) { assert Payment(p, calls[p].key) in s.committed; }
  }

  /** A capture waiting on a key waits for one that can act, so none waits for ever. */
  lemma WaitsForOneThatCanAct(calls: seq<Call>, moves: seq<Move>, p: nat) returns (q: nat)
    requires RunOf(Start(calls), moves).Some? && p < |calls|
    requires RunOf(Start(calls), moves).value.phases[p].Ready?
    ensures q < |calls| && ActOf(RunOf(Start(calls), moves).value, q).Some?
  {
    RunOnce(calls, moves);
    var s := RunOf(Start(calls), moves).value;
    q := if ActOf(s, p).Some? then p else s.writing[calls[p].key];
  }
}
