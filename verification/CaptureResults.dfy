/** What a capture left to itself answers and commits, by its key and whether it is a preview. */
module CaptureResults {
  import opened Outcomes
  import opened CapturePayment

  /** Nobody else is writing the key, or there is no key to write. */
  predicate Free(s: State, key: string) { key == "" || key !in s.writing }

  predicate Committed(s: State, key: string) { key != "" && exists x :: x in s.committed && x.key == key }

  lemma RunSnoc(s: State, moves: seq<Move>, move: Move)
    requires |s.phases| == |s.calls| && RunOf(s, moves).Some?
    ensures RunOf(s, moves + [move]) == DoMove(RunOf(s, moves).value, move)
  {
    assert (moves + [move])[..|moves|] == moves;
  }

  lemma Advance(s: State, moves: seq<Move>, at: State, move: Move, next: State)
    requires |s.phases| == |s.calls| && RunOf(s, moves) == Some(at) && |at.phases| == |at.calls| && DoMove(at, move) == Some(next)
    ensures RunOf(s, moves + [move]) == Some(next)
  {
    RunSnoc(s, moves, move);
  }

  /** Only this capture moves, and its lookups see what is committed, unless the first one misses it. */
  predicate Alone(moves: seq<Move>, p: nat) { forall m :: m in moves ==> m == Act(p) || m == Look(p, false) || m == Look(p, true) }

  /** Written and read back, a capture commits its payment, or rolls a preview back. */
  lemma Finishes(s: State, p: nat) returns (moves: seq<Move>, end: State)
    requires |s.phases| == |s.calls| && p < |s.phases| && s.phases[p].Ready? && Free(s, s.calls[p].key)
    requires Lookup(s.committed, s.calls[p].key).None? || s.calls[p].key == ""
    ensures RunOf(s, moves) == Some(end) && Alone(moves, p) && |end.phases| == |s.phases|
    ensures s.calls[p].preview ==> end.phases[p] == Done(Previewed) && end.committed == s.committed
    ensures !s.calls[p].preview ==> end.phases[p] == Done(Reported(p, false)) && end.committed == s.committed + [Payment(p, s.calls[p].key)]
  {
    var written := DoMove(s, Act(p)).value;
    var read := DoMove(written, Act(p)).value;
    end := DoMove(read, Act(p)).value;
    hide RunOf, DoMove;
    assert RunOf(s, []) == Some(s) by { RunNothing(s); }
    Advance(s, [], s, Act(p), written);
    Advance(s, [] + [Act(p)], written, Act(p), read);
    Advance(s, [] + [Act(p)] + [Act(p)], read, Act(p), end);
    moves := [] + [Act(p)] + [Act(p)] + [Act(p)];
  }

  lemma RunNothing(s: State)
    requires |s.phases| == |s.calls|
    ensures RunOf(s, []) == Some(s)
  {
  }

  lemma {:induction false} RunConcat(s: State, a: seq<Move>, b: seq<Move>)
    requires |s.phases| == |s.calls| && RunOf(s, a).Some?
    ensures RunOf(s, a + b) == RunOf(RunOf(s, a).value, b)
    decreases b
  {
    if b == [] {
      assert a + b == a;
    } else {
      RunConcat(s, a, b[..|b| - 1]);
      assert (a + b)[..|a + b| - 1] == a + b[..|b| - 1];
    }
  }

  /** A capture of a key already committed reports that payment as a retry and writes nothing, even when its own lookup
      misses it and it is the index that says so. */
  lemma Retries(s: State, p: nat, misses: bool) returns (moves: seq<Move>, end: State)
    requires |s.phases| == |s.calls| && p < |s.phases| && s.phases[p].Starting? && Free(s, s.calls[p].key)
    requires !s.calls[p].preview && Committed(s, s.calls[p].key)
    ensures RunOf(s, moves) == Some(end) && Alone(moves, p) && |end.phases| == |s.phases| && moves != [] && moves[0] == Look(p, misses)
    ensures end.committed == s.committed && end.phases[p].Done? && end.phases[p].answer.Reported? && end.phases[p].answer.retry
    ensures Payment(end.phases[p].answer.payment, s.calls[p].key) in s.committed
  {
    var looked := DoMove(s, Look(p, misses)).value;
    RunNothing(s);
    Advance(s, [], s, Look(p, misses), looked);
    if misses {
      var duplicate := DoMove(looked, Act(p)).value;
      var found := DoMove(duplicate, Look(p, false)).value;
      end := DoMove(found, Act(p)).value;
      Advance(s, [] + [Look(p, misses)], looked, Act(p), duplicate);
      Advance(s, [] + [Look(p, misses)] + [Act(p)], duplicate, Look(p, false), found);
      Advance(s, [] + [Look(p, misses)] + [Act(p)] + [Look(p, false)], found, Act(p), end);
      moves := [] + [Look(p, misses)] + [Act(p)] + [Look(p, false)] + [Act(p)];
    } else {
      end := DoMove(looked, Act(p)).value;
      Advance(s, [] + [Look(p, misses)], looked, Act(p), end);
      moves := [] + [Look(p, misses)] + [Act(p)];
    }
  }

  /** A first capture of a key, or one without a key, takes one payment and reports it as its own; a preview takes
      none. */
  lemma Captures(s: State, p: nat) returns (moves: seq<Move>, end: State)
    requires |s.phases| == |s.calls| && p < |s.phases| && s.phases[p].Starting? && Free(s, s.calls[p].key)
    requires !Committed(s, s.calls[p].key)
    ensures RunOf(s, moves) == Some(end) && Alone(moves, p) && |end.phases| == |s.phases|
    ensures s.calls[p].preview ==> end.phases[p] == Done(Previewed) && end.committed == s.committed
    ensures !s.calls[p].preview ==> end.phases[p] == Done(Reported(p, false)) && end.committed == s.committed + [Payment(p, s.calls[p].key)]
  {
    var first := if s.calls[p].key == "" || s.calls[p].preview then Act(p) else Look(p, false);
    var ready := DoMove(s, first).value;
    RunNothing(s);
    Advance(s, [], s, first, ready);
    var rest;
    rest, end := Finishes(ready, p);
    RunConcat(s, [first], rest);
    assert [] + [first] == [first];
    moves := [first] + rest;
  }

  // ─── What else can happen ─────────────────────────────────────────────────

  /** A capture can fail anywhere before it answers: nothing is committed and its key is let go of. */
  lemma FailureIs(s: State, p: nat)
    requires |s.phases| == |s.calls| && p < |s.phases| && !s.phases[p].Done?
    ensures DoMove(s, Fail(p)).Some?
    ensures var t := DoMove(s, Fail(p)).value;
            && t.committed == s.committed && t.phases == s.phases[p := Done(Failed)]
            && forall key :: key in t.writing <==> key in s.writing && !(key == s.calls[p].key && s.writing[key] == p)
  {
  }

  /** A payment read back commits without its capture hearing so, unless it is a preview. */
  lemma LostCommitIs(s: State, p: nat)
    requires |s.phases| == |s.calls| && p < |s.phases| && s.phases[p].ReadBack?
    ensures DoMove(s, Lose(p)).Some? <==> !s.calls[p].preview
    ensures !s.calls[p].preview ==>
              var t := DoMove(s, Lose(p)).value;
              t.committed == s.committed + [Payment(p, s.calls[p].key)] && t.phases == s.phases[p := Done(CommitUnconfirmed)]
  {
  }

  /** A write of a key waits while another capture is writing it, and is refused once it is committed. */
  lemma WriteIs(s: State, p: nat)
    requires |s.phases| == |s.calls| && p < |s.phases| && s.phases[p].Ready? && s.calls[p].key != ""
    ensures DoMove(s, Act(p)).None? <==> s.calls[p].key in s.writing
    ensures s.calls[p].key !in s.writing ==>
              DoMove(s, Act(p)).value.phases == s.phases[p := if Committed(s, s.calls[p].key) then Duplicate else Written]
  {
  }
}
