/** What each request of the account step leaves and answers, written out, with the step's own limits. */
module AccountStepResults {
  import opened Outcomes
  import opened AccountStep

  /** A password can still be set: for an account the host created, with no password set or underway, fewer than five
      tries, and within the window since it was decided. */
  predicate FormOpen(account: Account, window: int, now: int) {
    && account.outcome == Created && !account.passwordSet && !account.pending && account.attempts < 5
    && window > 0 && now <= account.decidedAt + window
  }

  predicate Shows(status: Option<Status>, account: Account, window: int, now: int) {
    status == Some(Status(account.outcome, FormOpen(account, window, now)))
  }

  /** The host is asked: nothing was recorded yet, or only a failure. */
  predicate Asks(s: Session) { s.stored.None? || s.stored.value.outcome == HostFailed }

  /** What the host's answer comes to; no answer, one Orders does not know and no e-mail to ask with are all failures. */
  function OutcomeOf(r: Request): HostOutcome
    requires r.Ensure?
  {
    if r.hasEmail && r.host.Answered? then r.host.outcome else HostFailed
  }

  /** A request to ensure the account records what it decided when it asks the host and the save goes through, and leaves
      all else; it answers with what is recorded or was just decided, or with nothing when the step does not apply. */
  lemma EnsureIs(s: Session, window: int, r: Request)
    requires r.Ensure?
    ensures var (after, response) := EnsureOf(s, window, r);
            && response.success && after.given == s.given
            && (if !Asks(s) then
                  && after == s
                  && (response.account.None? <==> s.stored.value.outcome == NotApplicable)
                  && (response.account.Some? ==> Shows(response.account, s.stored.value, window, r.now))
                else
                  var decided := Account(OutcomeOf(r), r.now, false, 0, false);
                  && after.stored == (if r.saved then Some(decided) else s.stored)
                  && (response.account.None? <==> OutcomeOf(r) == NotApplicable)
                  && (response.account.Some? ==> Shows(response.account, decided, window, r.now)))
  {
  }

  /** A password is tried: the form is open, it has one to 256 characters, and the try could be recorded first. */
  predicate Tries(s: Session, window: int, r: Request)
    requires r.SetPassword?
  {
    s.stored.Some? && FormOpen(s.stored.value, window, r.now) && 1 <= r.length <= 256 && r.firstSaved
  }

  /** The stored account after a try: one more counted; still pending when no answer came or it could not be recorded;
      and set exactly when the host said so and that was recorded. */
  predicate Tried(before: Account, after: Account, r: Request)
    requires r.SetPassword?
  {
    && after.outcome == before.outcome && after.decidedAt == before.decidedAt && after.attempts == before.attempts + 1
    && (after.pending <==> r.fate == TimedOut || r.fate == Lost || !r.secondSaved)
    && (after.passwordSet <==> before.passwordSet || (r.fate == Accepted && r.secondSaved))
  }

  /** A password request: without a try nothing changes and it fails, showing what is recorded. A try is recorded, given
      to the host unless something failed before it, and succeeds exactly when the host accepted it. */
  lemma SetIs(s: Session, window: int, r: Request)
    requires r.SetPassword?
    ensures var (after, response) := SetOf(s, window, r);
            if !Tries(s, window, r) then
              && after == s && !response.success
              && (response.account.None? <==> s.stored.None? || s.stored.value.outcome == NotApplicable)
              && (response.account.Some? ==> Shows(response.account, s.stored.value, window, r.now))
            else
              && after.stored.Some? && Tried(s.stored.value, after.stored.value, r)
              && after.given == (if r.fate == NeverReached then s.given else s.given + [r.fate])
              && (response.success <==> r.fate == Accepted)
              && response.account.Some? && response.account.value.outcome == Created
              && (response.account.value.canSetPassword
                  <==> (r.fate == NeverReached || r.fate == Declined || r.fate == Threw) && s.stored.value.attempts < 4)
  {
  }

  /** The two requests, by what they are. */
  lemma RequestIs(s: Session, window: int, r: Request)
    ensures RequestOf(s, window, r) == if r.Ensure? then EnsureOf(s, window, r) else SetOf(s, window, r)
  {
  }
}
