/** What a cancel answers, written out: the term it starts from, how its gateway subscription is to be stopped, and what a
    call does when the subscription changed meanwhile. */
module CancelResults {
  import opened Outcomes
  import opened Sorting
  import CancelSubscription
  import opened GatewayCancel

  // ─── The term ─────────────────────────────────────────────────────────────

  predicate Inside(t: CancelSubscription.Term, day: int) { t.start <= day && day <= t.end }

  lemma {:induction false} CoveringIs(terms: seq<CancelSubscription.Term>, day: int)
    ensures match CancelSubscription.Covering(terms, day)
            case Some(t) => exists n :: 0 <= n < |terms| && terms[n] == t && Inside(t, day) && forall k :: 0 <= k < n ==> !Inside(terms[k], day)
            case None => forall n :: 0 <= n < |terms| ==> !Inside(terms[n], day)
  {
    if terms != [] && !Inside(terms[0], day) {
      CoveringIs(terms[1..], day);
      if CancelSubscription.Covering(terms[1..], day).Some? {
        var t := CancelSubscription.Covering(terms[1..], day).value;
        var n :| 0 <= n < |terms| - 1 && terms[1..][n] == t && Inside(t, day) && forall k :: 0 <= k < n ==> !Inside(terms[1..][k], day);
        assert terms[n + 1] == t;
        assert forall k :: 1 <= k < n + 1 ==> terms[k] == terms[1..][k - 1];
      }
    }
  }

  /** The cancel starts from the first listed term that covers the day; when none does, from one that starts next after
      it; and when none starts after it either, from the first listed. There is one unless there are no terms. */
  lemma ResolvedIs(terms: seq<CancelSubscription.Term>, day: int)
    ensures CancelSubscription.ResolveTerm(terms, day).None? <==> terms == []
    ensures terms != [] ==>
              var t := CancelSubscription.ResolveTerm(terms, day).value;
              && t in terms
              && ((exists c :: c in terms && Inside(c, day)) ==> Inside(t, day))
              && ((forall c :: c in terms ==> !Inside(c, day)) && (exists c :: c in terms && c.start > day) ==>
                    t.start > day && forall c :: c in terms && c.start > day ==> t.start <= c.start)
              && ((forall c :: c in terms ==> !Inside(c, day) && c.start <= day) ==> t == terms[0])
  {
    if terms != [] {
      CancelSubscription.CoveringFinds(terms, day);
      CancelSubscription.ResolvesInside(terms, day);
      CancelSubscription.UpcomingFinds(terms, day);
      var upcoming := CancelSubscription.Upcoming(terms, day);
      SortMembers(upcoming, CancelSubscription.StartsFirst);
      var sorted := SortBy(upcoming, CancelSubscription.StartsFirst);
      assert sorted != [] ==> sorted[0] in sorted;
      if c :| c in terms && c.start > day { assert c in sorted; }
    }
  }

  /** The day coverage ends on: the one decided, moved into the term when it is outside it, and no further than that. */
  lemma ClampIs(t: CancelSubscription.Term, day: int)
    requires t.start <= t.end
    ensures var ends := CancelSubscription.ClampToTerm(t, day);
            && Inside(t, ends) && (Inside(t, day) ==> ends == day)
            && (day < t.start ==> ends == t.start) && (day > t.end ==> ends == t.end)
  {
  }

  /** What becomes of an open term: it is the one cancelled, or starts after its coverage ends, or was ridden past. */
  predicate Fate(terms: seq<CancelSubscription.Term>, cancelled: CancelSubscription.Term, covering: CancelSubscription.Term, ends: int, t: CancelSubscription.Term) {
    var own, later, served := t == cancelled, t.id != cancelled.id && t.start > ends,
                              cancelled.id != covering.id && t.id != cancelled.id && t.start < cancelled.start;
    (own && !later && !served) || (later && !own && !served) || (served && !own && !later && t.end < cancelled.start)
  }

  predicate Apart(terms: seq<CancelSubscription.Term>) {
    && (forall t :: t in terms ==> t.start <= t.end)
    && forall a, b :: a in terms && b in terms && a != b ==> a.id != b.id && (a.end < b.start || b.end < a.start)
  }

  /** A successful cancel settles every open term in just one way; a term ridden past had ended before the one cancelled
      began. Open terms follow one another, and none had ended by the request day. */
  lemma EachSettled(terms: seq<CancelSubscription.Term>, requestDay: int, rides: bool, refunded: CancelSubscription.Term -> bool, endDay: int)
    requires terms != [] && Apart(terms) && forall t :: t in terms ==> t.end >= requestDay
    ensures CancelSubscription.ResolveTerm(terms, requestDay).Some?
    ensures var covering := CancelSubscription.ResolveTerm(terms, requestDay).value;
            var cancelled := if rides then CancelSubscription.EndOfTermOnGateway(terms, covering, requestDay, refunded).0 else covering;
            && cancelled in terms
            && forall t :: t in terms ==> Fate(terms, cancelled, covering, CancelSubscription.ClampToTerm(cancelled, endDay), t)
  {
    CancelSubscription.ResolvedTermIsFirst(terms, requestDay);
    CancelSubscription.CancelLeavesNoneOpen(terms, requestDay, rides, refunded, endDay);
    var covering := CancelSubscription.ResolveTerm(terms, requestDay).value;
    var cancelled := if rides then CancelSubscription.EndOfTermOnGateway(terms, covering, requestDay, refunded).0 else covering;
    var ends := CancelSubscription.ClampToTerm(cancelled, endDay);
    hide CancelSubscription.ResolveTerm, CancelSubscription.EndOfTermOnGateway, CancelSubscription.ClampToTerm;
    forall t | t in terms ensures Fate(terms, cancelled, covering, ends, t) {
      assert CancelSubscription.ExactlyOne(t == cancelled, CancelSubscription.IsLater(cancelled, ends, t),
                                           CancelSubscription.IsServed(cancelled, covering, t));
    }
  }

  // ─── The plan for the gateway ─────────────────────────────────────────────

  /** It is asked to stop later than now, and is one that renews. */
  predicate EndsLater(g: Gateway, ends: Option<int>, now: int) { ends.Some? && ends.value > now && g.renewing }

  /** When it is set to end: with its period, or at an instant. */
  function SetToEnd(g: Gateway): Option<int> { if g.atPeriodEnd then g.periodEnd else g.cancelAt }

  /** A subscription that ended, or is set to end by the coverage, is left as it is. One that is to stop now, or whose
      charges are not settled, is ended now. Any other is never ended early: it ends with its period when that is within the
      coverage, and otherwise with the coverage. */
  lemma StopIs(g: Gateway, ends: Option<int>, now: int)
    ensures var after := Applied(g, PlanStripeCancel(g, ends, now));
            && (PlanStripeCancel(g, ends, now).Nothing?
                <==> g.ended || (EndsLater(g, ends, now) && SetToEnd(g).Some? && SetToEnd(g).value <= ends.value))
            && (g.ended ==> after == g)
            && (!g.ended && !EndsLater(g, ends, now) ==> after == g.(ended := true))
            && (!g.ended && EndsLater(g, ends, now) ==>
                  && !after.ended && after.renewing == g.renewing && after.periodEnd == g.periodEnd
                  && (if SetToEnd(g).Some? && SetToEnd(g).value <= ends.value then after == g
                      else if g.periodEnd.Some? && g.periodEnd.value <= ends.value then after.atPeriodEnd && after.cancelAt.None?
                      else !after.atPeriodEnd && after.cancelAt == ends))
  {
  }

  /** A subscription that still charges renewals charges one at the end of every period it begins. */
  lemma ChargesIs(g: Gateway)
    ensures Charges(g) <==> !g.ended && g.periodEnd.Some? && (SetToEnd(g).None? || SetToEnd(g).value > g.periodEnd.value)
  {
  }

  // ─── The call ─────────────────────────────────────────────────────────────

  /** A call starts only on a subscription not canceled, and records the cancel only when its status is still what it
      was then; otherwise it gives up its lock and changes nothing else. */
  lemma GuardsAre(s: State, p: nat)
    requires Shaped(s) && p < |s.phases|
    ensures s.phases[p].Beginning? ==>
              ActOf(s, p) == Some(s.(phases := s.phases[p := if s.status == Canceled then Done(Declined) else Checked(s.status)]))
    ensures s.phases[p].Locked? ==>
              ActOf(s, p) == Some(if s.status == s.phases[p].status then s.(phases := s.phases[p := Written(s.phases[p].seen)])
                                  else s.(phases := s.phases[p := Done(Declined)], lock := None))
  {
  }

  /** What a recorded cancel leaves in Orders. */
  lemma CommitIs(s: State, p: nat)
    requires Shaped(s) && p < |s.phases| && s.phases[p].Written?
    ensures ActOf(s, p).Some?
    ensures var t := ActOf(s, p).value;
            && t.status == Canceled && t.coverage == Some(s.calls[p].ends) && t.lock == None && t.confirmed == s.phases[p].seen
            && t.reversals == s.reversals + (if s.calls[p].reverses then 1 else 0)
            && t.gateway == s.gateway && t.phases == s.phases[p := Done(CancelledIt)] && t.wires == s.wires
  {
  }

  /** While its write is on its way a call waits: it lands and is answered with the subscription it made, or is refused,
      or the call gives up on it, when it reads the subscription again. */
  lemma WaitingMoves(s: State, p: nat)
    requires Shaped(s) && p < |s.phases| && s.phases[p].Sending? && s.wires[p].Some?
    ensures var status, made := s.phases[p].status, Applied(s.gateway, s.wires[p].value);
            && ActOf(s, p) == None
            && LandOf(s, p) == Some(s.(gateway := made, past := s.past + [made], wires := s.wires[p := None],
                                       phases := s.phases[p := Answered(status, made)]))
            && RefuseOf(s, p) == Some(s.(wires := s.wires[p := None], phases := s.phases[p := Doubtful(status)]))
            && DoMove(s, GiveUp(p)) == Some(s.(phases := s.phases[p := Doubtful(status)]))
  {
  }

  /** A write nobody waits for any more still lands or is refused. */
  lemma LateMoves(s: State, p: nat)
    requires Shaped(s) && p < |s.phases| && !s.phases[p].Sending? && s.wires[p].Some?
    ensures var made := Applied(s.gateway, s.wires[p].value);
            && LandOf(s, p) == Some(s.(gateway := made, past := s.past + [made], wires := s.wires[p := None]))
            && RefuseOf(s, p) == Some(s.(wires := s.wires[p := None]))
  {
  }

  /** An answer, or the subscription read again, is the stop's when it ended or is set to end by the coverage of a cancel
      that ends later than now; otherwise the call is declined. An answer can be given up on too. */
  lemma AnswerIs(s: State, p: nat, g: Gateway)
    requires Shaped(s) && p < |s.phases| && (s.phases[p].Answered? || (s.phases[p].Doubtful? && g == s.gateway))
    requires s.phases[p].Answered? ==> g == s.phases[p].after
    ensures var status, call := s.phases[p].status, s.calls[p];
            var stops := g.ended || (!call.atOnce && call.ends > s.now && g.renewing && SetToEnd(g).Some? && SetToEnd(g).value <= call.ends);
            ActOf(s, p) == Some(s.(phases := s.phases[p := if stops then Stopped(status, Some(g)) else Done(Declined)]))
    ensures s.phases[p].Answered? ==> DoMove(s, GiveUp(p)) == Some(s.(phases := s.phases[p := Doubtful(s.phases[p].status)]))
  {
    StopIs(g, Asked(s.calls[p]), s.now);
    hide PlanStripeCancel;
  }

  /** A call fails wherever it is, and its lock with it; one whose stop was confirmed has not been recorded. */
  lemma FailIs(s: State, p: nat)
    requires Shaped(s) && p < |s.phases| && !s.phases[p].Done?
    ensures var confirmed := s.phases[p].Stopped? || s.phases[p].Locked? || s.phases[p].Written?;
            FailOf(s, p) == Some(s.(phases := s.phases[p := Done(if confirmed then NotRecorded else Declined)],
                                    lock := if s.lock == Some(p) then None else s.lock))
  {
  }
}
