/** Cancelling a subscription (CancelSubscriptionOperation.ts): which of its open terms a cancel ends, and which are
    later terms or terms served in full. Days are integers. */
module CancelSubscription {
  import opened Outcomes
  import opened Sorting

  // ─── Which terms a cancel ends ────────────────────────────────────────────

  /** An open term: Scheduled or Active, with its first and last covered day. */
  datatype Term = Term(id: nat, number: int, start: int, end: int)

  predicate Covers(t: Term, day: int) { t.start <= day <= t.end }

  function Covering(terms: seq<Term>, day: int): Option<Term> {
    if terms == [] then None
    else if Covers(terms[0], day) then Some(terms[0])
    else Covering(terms[1..], day)
  }

  function Upcoming(terms: seq<Term>, day: int): seq<Term> {
    if terms == [] then []
    else if terms[0].start > day then [terms[0]] + Upcoming(terms[1..], day)
    else Upcoming(terms[1..], day)
  }

  predicate StartsFirst(a: Term, b: Term) { a.start <= b.start }

  /** The term covering the day; else the next to start; else the first listed, which is the latest. */
  function ResolveTerm(terms: seq<Term>, day: int): Option<Term> {
    if terms == [] then None
    else
      var covering := Covering(terms, day);
      if covering.Some? then covering
      else
        var upcoming := SortBy(Upcoming(terms, day), StartsFirst);
        if upcoming != [] then Some(upcoming[0]) else Some(terms[0])
  }

  /** Terms after the covering one whose renewal, charged a day ahead of its start, was charged by the request day. */
  function Candidates(terms: seq<Term>, covering: Term, day: int): seq<Term> {
    if terms == [] then []
    else
      var rest := Candidates(terms[1..], covering, day);
      if terms[0].id != covering.id && covering.start < terms[0].start <= day + 1 then [terms[0]] + rest else rest
  }

  predicate StartsLast(a: Term, b: Term) { a.start > b.start || (a.start == b.start && a.number >= b.number) }

  /** The first term that was not refunded in full, and those passed over. */
  function FirstKept(candidates: seq<Term>, covering: Term, refunded: Term -> bool): (pick: (Term, seq<Term>)) {
    if candidates == [] then (covering, [])
    else if refunded(candidates[0]) then
      var rest := FirstKept(candidates[1..], covering, refunded);
      (rest.0, [candidates[0]] + rest.1)
    else (candidates[0], [])
  }

  /** Where an end-of-term cancel stops on a gateway that still bills: at the latest term whose charge it kept any of. */
  function EndOfTermOnGateway(terms: seq<Term>, covering: Term, day: int, refunded: Term -> bool): (Term, seq<Term>) {
    FirstKept(SortBy(Candidates(terms, covering, day), StartsLast), covering, refunded)
  }

  /** A cancellation never ends coverage before the term or after it. */
  function ClampToTerm(t: Term, day: int): int {
    if day < t.start then t.start else if day > t.end then t.end else day
  }

  predicate IsLater(cancelled: Term, effective: int, t: Term) { t.id != cancelled.id && t.start > effective }

  /** A term ridden past to reach the one cancelled is served in full. */
  predicate IsServed(cancelled: Term, covering: Term, t: Term) {
    cancelled.id != covering.id && t.id != cancelled.id && t.start < cancelled.start
  }

  predicate DisjointTerms(terms: seq<Term>) {
    && (forall t :: t in terms ==> t.start <= t.end)
    && forall a, b :: a in terms && b in terms && a != b ==> a.id != b.id && (a.end < b.start || b.end < a.start)
  }

  /** One of the three, and no two of them. */
  predicate ExactlyOne(a: bool, b: bool, c: bool) { (a || b || c) && !(a && b) && !(a && c) && !(b && c) }

  ghost predicate NoneLeftOpen(terms: seq<Term>, cancelled: Term, covering: Term, effective: int) {
    forall t :: t in terms ==> ExactlyOne(t == cancelled, IsLater(cancelled, effective, t), IsServed(cancelled, covering, t))
  }

  /** With disjoint terms, a cancel accounts for each of them once, as the cancelled term, a later one or one
      served in full, exactly when it moved past the covering term or no open term precedes that one. */
  lemma NoneLeftOpenExactlyWhen(terms: seq<Term>, cancelled: Term, covering: Term, day: int)
    requires DisjointTerms(terms) && cancelled in terms && covering in terms
    ensures NoneLeftOpen(terms, cancelled, covering, ClampToTerm(cancelled, day))
       <==> cancelled != covering || forall t :: t in terms ==> t.start >= covering.start
  {
    var effective := ClampToTerm(cancelled, day);
    forall t | t in terms && t != cancelled
      ensures IsLater(cancelled, effective, t) <==> cancelled.start < t.start
      ensures t.start != cancelled.start
    {
    }
    if NoneLeftOpen(terms, cancelled, covering, effective) && cancelled == covering {
      forall t | t in terms ensures t.start >= covering.start {
        assert ExactlyOne(t == cancelled, IsLater(cancelled, effective, t), IsServed(cancelled, covering, t));
      }
    }
  }

  lemma {:induction false} CoveringFinds(terms: seq<Term>, day: int)
    ensures match Covering(terms, day)
            case Some(t) => t in terms && Covers(t, day)
            case None => forall t :: t in terms ==> !Covers(t, day)
  {
    if terms != [] && !Covers(terms[0], day) { CoveringFinds(terms[1..], day); }
  }

  lemma {:induction false} UpcomingFinds(terms: seq<Term>, day: int)
    ensures forall t :: t in Upcoming(terms, day) <==> t in terms && t.start > day
  {
    if terms != [] { UpcomingFinds(terms[1..], day); }
  }

  lemma ResolvesInside(terms: seq<Term>, day: int)
    requires terms != []
    ensures ResolveTerm(terms, day).Some? && ResolveTerm(terms, day).value in terms
    ensures forall t :: t in terms && t.start > day && Covering(terms, day).None? ==> ResolveTerm(terms, day).value.start <= t.start
  {
    CoveringFinds(terms, day);
    UpcomingFinds(terms, day);
    var upcoming := Upcoming(terms, day);
    SortMembers(upcoming, StartsFirst);
    SortSorted(upcoming, StartsFirst);
    var sorted := SortBy(upcoming, StartsFirst);
    if sorted != [] {
      assert sorted[0] in sorted;
      forall t | t in terms && t.start > day ensures sorted[0].start <= t.start {
        assert t in sorted;
        var i :| 0 <= i < |sorted| && sorted[i] == t;
        assert i == 0 || StartsFirst(sorted[0], sorted[i]);
      }
    }
  }

  /** When no open term had ended by the request day, the term the request lands in is the first of them, so a
      cancel of it leaves no term open. */
  lemma ResolvedTermIsFirst(terms: seq<Term>, day: int)
    requires terms != [] && DisjointTerms(terms) && forall t :: t in terms ==> t.end >= day
    ensures ResolveTerm(terms, day).Some?
    ensures forall t :: t in terms ==> ResolveTerm(terms, day).value.start <= t.start
  {
    CoveringFinds(terms, day);
    ResolvesInside(terms, day);
    if Covering(terms, day).None? {
      assert terms[0] in terms;
      assert forall t :: t in terms ==> t.start > day;
    } else {
      var covering := Covering(terms, day).value;
      forall t | t in terms ensures covering.start <= t.start {}
    }
  }

  lemma {:induction false} CandidatesAre(terms: seq<Term>, covering: Term, day: int)
    ensures forall t :: t in Candidates(terms, covering, day)
              <==> t in terms && t.id != covering.id && covering.start < t.start <= day + 1
  {
    if terms != [] { CandidatesAre(terms[1..], covering, day); }
  }

  lemma {:induction false} FirstKeptIs(candidates: seq<Term>, covering: Term, refunded: Term -> bool)
    requires Sorted(candidates, StartsLast)
    ensures var (pick, passed) := FirstKept(candidates, covering, refunded);
            && (pick == covering || (pick in candidates && !refunded(pick)))
            && (forall t :: t in passed ==> t in candidates && refunded(t) && (pick == covering || StartsLast(t, pick)))
            && (forall t :: t in candidates && t !in passed && pick != covering ==> t == pick || StartsLast(pick, t))
            && (pick == covering && covering !in candidates ==> forall t :: t in candidates ==> t in passed)
  {
    if candidates != [] {
      assert Sorted(candidates[1..], StartsLast) by {
        assert forall i, j :: 0 <= i < j < |candidates[1..]| ==> candidates[1..][i] == candidates[i + 1] && candidates[1..][j] == candidates[j + 1];
      }
      if refunded(candidates[0]) {
        FirstKeptIs(candidates[1..], covering, refunded);
        forall t | t in candidates[1..] ensures StartsLast(candidates[0], t) {
          var i :| 0 <= i < |candidates[1..]| && candidates[1..][i] == t;
          assert StartsLast(candidates[0], candidates[i + 1]);
        }
      } else {
        forall t | t in candidates ensures t == candidates[0] || StartsLast(candidates[0], t) {
          var i :| 0 <= i < |candidates| && candidates[i] == t;
          assert i == 0 || StartsLast(candidates[0], candidates[i]);
        }
      }
    }
  }

  /** Where an end-of-term cancel stops on the gateway: every later term charged by
      the request day was refunded in full, and so becomes a later term of the cancel. */
  lemma EndOfTermPick(terms: seq<Term>, covering: Term, day: int, refunded: Term -> bool)
    requires DisjointTerms(terms) && covering in terms
    ensures var (pick, passed) := EndOfTermOnGateway(terms, covering, day, refunded);
            && pick in terms && pick.start >= covering.start
            && (pick != covering ==> !refunded(pick) && pick.start <= day + 1)
            && (forall t :: t in passed ==> t in terms && refunded(t) && IsLater(pick, pick.end, t))
            && (forall t :: t in terms && pick.start < t.start <= day + 1 ==> t in passed && refunded(t))
  {
    var candidates := Candidates(terms, covering, day);
    var sorted := SortBy(candidates, StartsLast);
    CandidatesAre(terms, covering, day);
    SortMembers(candidates, StartsLast);
    SortSorted(candidates, StartsLast);
    FirstKeptIs(sorted, covering, refunded);
    var (pick, passed) := EndOfTermOnGateway(terms, covering, day, refunded);
    hide EndOfTermOnGateway, FirstKept, Candidates, Sorted;
    forall t | t in terms && pick.start < t.start <= day + 1 ensures t in passed {
      assert t in candidates && t in sorted;
    }
    forall t | t in passed ensures t in terms && refunded(t) && IsLater(pick, pick.end, t) {
      assert t in sorted && t in candidates;
    }
  }

  /** A successful cancel leaves no term open, whatever day coverage ends on within the term it cancels and
      whether or not it rode on to the latest term the gateway was paid for. */
  lemma CancelLeavesNoneOpen(terms: seq<Term>, requestDay: int, rides: bool, refunded: Term -> bool, endDay: int)
    requires terms != [] && DisjointTerms(terms) && forall t :: t in terms ==> t.end >= requestDay
    ensures var covering := ResolveTerm(terms, requestDay).value;
            var cancelled := if rides then EndOfTermOnGateway(terms, covering, requestDay, refunded).0 else covering;
            cancelled in terms && NoneLeftOpen(terms, cancelled, covering, ClampToTerm(cancelled, endDay))
  {
    ResolvesInside(terms, requestDay);
    ResolvedTermIsFirst(terms, requestDay);
    var covering := ResolveTerm(terms, requestDay).value;
    EndOfTermPick(terms, covering, requestDay, refunded);
    var cancelled := if rides then EndOfTermOnGateway(terms, covering, requestDay, refunded).0 else covering;
    NoneLeftOpenExactlyWhen(terms, cancelled, covering, endDay);
  }

  /** A late request, with an earlier term still open: the earlier term stays open. The request day is after
      every term, so the latest is cancelled and the one before it is neither later nor served. */
  lemma EarlierTermLeftOpen()
    ensures var terms := [Term(2, 2, 11, 20), Term(1, 1, 1, 10)];
            && DisjointTerms(terms) && ResolveTerm(terms, 30) == Some(terms[0])
            && !NoneLeftOpen(terms, terms[0], terms[0], 20)
  {
    var terms := [Term(2, 2, 11, 20), Term(1, 1, 1, 10)];
    assert terms[1..] == [Term(1, 1, 1, 10)] && terms[1..][1..] == [];
    assert Covering(terms, 30) == Covering(terms[1..], 30) == Covering(terms[1..][1..], 30) == None;
    assert Upcoming(terms, 30) == Upcoming(terms[1..], 30) == Upcoming(terms[1..][1..], 30) == [];
    assert terms[1] in terms && !ExactlyOne(terms[1] == terms[0], IsLater(terms[0], 20, terms[1]), IsServed(terms[0], terms[0], terms[1]));
  }
}
