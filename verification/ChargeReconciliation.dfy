/** Comparing the gateway's charges with Orders' payments, and the key a mismatch is raised under
    (ChargeReconciliation.ts, ChargeExceptionResolution.ts). Amounts are cents and days integers. */
module ChargeReconciliation {
  import opened Outcomes
  import opened Decimals

  datatype Kind = ChargeWithoutPayment | PaymentWithoutCharge | RefundNotBooked

  datatype Charge = Charge(id: string, succeeded: bool, amount: int, refunded: int)

  /** A payment Orders opened against the provider, with the charge it records, if any. */
  datatype Payment = Payment(id: string, day: int, amount: int, captured: bool, charge: Option<string>, refunded: int)

  datatype Input = Input(
    from: int, to: int, charges: seq<Charge>, inWindow: set<string>, payments: seq<Payment>, confirmedMissing: set<string>)

  datatype Mismatch = Mismatch(kind: Kind, charge: Option<string>, payment: Option<string>, amount: int)

  predicate Names(payment: Payment, charge: string) { payment.charge == Some(charge) && charge != "" }

  // ─── What the mismatches are ──────────────────────────────────────────────

  /** The last payment that names a charge. */
  function PaymentFor(payments: seq<Payment>, charge: string): Option<Payment> {
    if payments == [] then None
    else
      var last := payments[|payments| - 1];
      if Names(last, charge) then Some(last) else PaymentFor(payments[..|payments| - 1], charge)
  }

  /** The last charge of an id. */
  function ChargeOf(charges: seq<Charge>, id: string): Option<Charge> {
    if charges == [] then None
    else
      var last := charges[|charges| - 1];
      if last.id == id then Some(last) else ChargeOf(charges[..|charges| - 1], id)
  }

  /** What is wrong with a charge: it has no captured payment, or more was refunded of it than Orders holds. */
  function JudgeCharge(input: Input, charge: Charge): Option<Mismatch> {
    var payment := PaymentFor(input.payments, charge.id);
    var captured := payment.Some? && payment.value.captured;
    if !charge.succeeded then None
    else if charge.id in input.inWindow && !captured then
      Some(Mismatch(ChargeWithoutPayment, Some(charge.id), if payment.Some? then Some(payment.value.id) else None, charge.amount))
    else if captured && charge.refunded > payment.value.refunded then
      Some(Mismatch(RefundNotBooked, Some(charge.id), Some(payment.value.id), charge.refunded - payment.value.refunded))
    else None
  }

  predicate Missing(input: Input, payment: Payment) {
    payment.charge.None? || payment.charge.value == "" || payment.charge.value in input.confirmedMissing
    || var charge := ChargeOf(input.charges, payment.charge.value); charge.Some? && !charge.value.succeeded
  }

  /** What is wrong with a payment: it is captured in the window and the gateway has no such charge. */
  function JudgePayment(input: Input, payment: Payment): Option<Mismatch> {
    if payment.captured && input.from <= payment.day <= input.to && Missing(input, payment)
    then Some(Mismatch(PaymentWithoutCharge, payment.charge, Some(payment.id), payment.amount))
    else None
  }

  function ListOf(m: Option<Mismatch>): seq<Mismatch> { if m.Some? then [m.value] else [] }

  function OfCharges(input: Input, charges: seq<Charge>): seq<Mismatch> {
    if charges == [] then []
    else OfCharges(input, charges[..|charges| - 1]) + ListOf(JudgeCharge(input, charges[|charges| - 1]))
  }

  function OfPayments(input: Input, payments: seq<Payment>): seq<Mismatch> {
    if payments == [] then []
    else OfPayments(input, payments[..|payments| - 1]) + ListOf(JudgePayment(input, payments[|payments| - 1]))
  }

  /** The mismatches, judged one by one against every payment and every charge. */
  function MismatchesOf(input: Input): seq<Mismatch> {
    OfCharges(input, input.charges) + OfPayments(input, input.payments)
  }

  // ─── Finding them by index ────────────────────────────────────────────────

  ghost predicate IndexesPayments(index: map<string, Payment>, payments: seq<Payment>) {
    forall id :: if id in index then PaymentFor(payments, id) == Some(index[id]) else PaymentFor(payments, id).None?
  }

  ghost predicate IndexesCharges(index: map<string, Charge>, charges: seq<Charge>) {
    forall id :: if id in index then ChargeOf(charges, id) == Some(index[id]) else ChargeOf(charges, id).None?
  }

  method IndexPayments(payments: seq<Payment>) returns (index: map<string, Payment>)
    ensures IndexesPayments(index, payments)
  {
    index := map[];
    for i := 0 to |payments|
      invariant IndexesPayments(index, payments[..i])
    {
      var p := payments[i];
      assert payments[..i + 1][..i] == payments[..i];
      if p.charge.Some? && p.charge.value != "" { index := index[p.charge.value := p]; }
    }
    assert payments[..|payments|] == payments;
  }

  method IndexCharges(charges: seq<Charge>) returns (index: map<string, Charge>)
    ensures IndexesCharges(index, charges)
  {
    index := map[];
    for i := 0 to |charges|
      invariant IndexesCharges(index, charges[..i])
    {
      assert charges[..i + 1][..i] == charges[..i];
      index := index[charges[i].id := charges[i]];
    }
    assert charges[..|charges|] == charges;
  }

  lemma OfChargesSnoc(input: Input, charges: seq<Charge>, i: nat)
    requires i < |charges|
    ensures OfCharges(input, charges[..i + 1]) == OfCharges(input, charges[..i]) + ListOf(JudgeCharge(input, charges[i]))
  {
    assert charges[..i + 1][..i] == charges[..i];
  }

  lemma OfPaymentsSnoc(input: Input, payments: seq<Payment>, i: nat)
    requires i < |payments|
    ensures OfPayments(input, payments[..i + 1]) == OfPayments(input, payments[..i]) + ListOf(JudgePayment(input, payments[i]))
  {
    assert payments[..i + 1][..i] == payments[..i];
  }

  /** Find the mismatches with one pass over each list, looking the other side up by charge id. */
  method FindChargeMismatches(input: Input) returns (out: seq<Mismatch>)
    ensures out == MismatchesOf(input)
  {
    hide PaymentFor, ChargeOf, OfCharges, OfPayments;
    var paymentByCharge := IndexPayments(input.payments);
    var chargeByID := IndexCharges(input.charges);
    out := MismatchesByCharge(input, paymentByCharge);
    var ofPayments := MismatchesByPayment(input, chargeByID);
    out := out + ofPayments;
  }

  method MismatchesByCharge(input: Input, paymentByCharge: map<string, Payment>) returns (out: seq<Mismatch>)
    requires IndexesPayments(paymentByCharge, input.payments)
    ensures out == OfCharges(input, input.charges)
  {
    hide PaymentFor, ChargeOf, OfCharges;
    assert OfCharges(input, []) == [] by { OfNothing(input); }
    out := [];
    for i := 0 to |input.charges|
      invariant out == OfCharges(input, input.charges[..i])
    {
      var charge := input.charges[i];
      OfChargesSnoc(input, input.charges, i);
      if !charge.succeeded { continue; }
      var payment := if charge.id in paymentByCharge then Some(paymentByCharge[charge.id]) else None;
      assert payment == PaymentFor(input.payments, charge.id);
      if charge.id in input.inWindow && (payment.None? || !payment.value.captured) {
        out := out + [Mismatch(ChargeWithoutPayment, Some(charge.id), if payment.Some? then Some(payment.value.id) else None, charge.amount)];
        continue;
      }
      if payment.Some? && payment.value.captured {
        var difference := charge.refunded - payment.value.refunded;
        if difference > 0 {
          out := out + [Mismatch(RefundNotBooked, Some(charge.id), Some(payment.value.id), difference)];
        }
      }
    }
    assert input.charges[..|input.charges|] == input.charges;
  }

  method MismatchesByPayment(input: Input, chargeByID: map<string, Charge>) returns (out: seq<Mismatch>)
    requires IndexesCharges(chargeByID, input.charges)
    ensures out == OfPayments(input, input.payments)
  {
    hide PaymentFor, ChargeOf, OfPayments;
    assert OfPayments(input, []) == [] by { OfNothing(input); }
    out := [];
    for i := 0 to |input.payments|
      invariant out == OfPayments(input, input.payments[..i])
    {
      var payment := input.payments[i];
      OfPaymentsSnoc(input, input.payments, i);
      if !payment.captured { continue; }
      if payment.day < input.from || payment.day > input.to { continue; }
      var charge := if payment.charge.Some? && payment.charge.value in chargeByID then Some(chargeByID[payment.charge.value]) else None;
      assert payment.charge.Some? ==> charge == ChargeOf(input.charges, payment.charge.value);
      var missing := payment.charge.None? || payment.charge.value == "" || payment.charge.value in input.confirmedMissing
                     || (charge.Some? && !charge.value.succeeded);
      if !missing { continue; }
      out := out + [Mismatch(PaymentWithoutCharge, payment.charge, Some(payment.id), payment.amount)];
    }
    assert input.payments[..|input.payments|] == input.payments;
  }

  lemma OfNothing(input: Input)
    ensures OfCharges(input, []) == [] && OfPayments(input, []) == []
  {
  }

  // ─── One mismatch per charge, one key per mismatch ────────────────────────

  /** What a mismatch is about: its charge, or the payment that records none. */
  function Reference(m: Mismatch): string {
    if m.charge.Some? then m.charge.value else if m.payment.Some? then m.payment.value else ""
  }

  function PaymentReference(p: Payment): string { if p.charge.Some? then p.charge.value else p.id }

  lemma {:induction false} OfChargesRefer(input: Input, charges: seq<Charge>)
    ensures forall m :: m in OfCharges(input, charges) ==>
              !m.kind.PaymentWithoutCharge? && exists c :: c in charges && c.succeeded && m.charge == Some(c.id)
  {
    if charges != [] {
      OfChargesRefer(input, charges[..|charges| - 1]);
      var last := charges[|charges| - 1];
      assert last in charges;
    }
  }

  lemma {:induction false} OfPaymentsRefer(input: Input, payments: seq<Payment>)
    ensures forall m :: m in OfPayments(input, payments) ==>
              m.kind.PaymentWithoutCharge? && exists p :: p in payments && Missing(input, p) && m.charge == p.charge && m.payment == Some(p.id)
  {
    if payments != [] {
      OfPaymentsRefer(input, payments[..|payments| - 1]);
      var last := payments[|payments| - 1];
      assert last in payments;
    }
  }

  predicate DistinctCharges(charges: seq<Charge>) {
    forall i, j :: 0 <= i < j < |charges| ==> charges[i].id != charges[j].id
  }

  predicate DistinctPayments(payments: seq<Payment>) {
    forall i, j :: 0 <= i < j < |payments| ==> PaymentReference(payments[i]) != PaymentReference(payments[j])
  }

  predicate DistinctReferences(ms: seq<Mismatch>) {
    forall i, j :: 0 <= i < j < |ms| ==> Reference(ms[i]) != Reference(ms[j])
  }

  lemma {:induction false} ChargesOnce(input: Input, charges: seq<Charge>)
    requires DistinctCharges(charges)
    ensures DistinctReferences(OfCharges(input, charges))
  {
    if charges != [] {
      var n := |charges| - 1;
      ChargesOnce(input, charges[..n]);
      OfChargesRefer(input, charges[..n]);
      var before := OfCharges(input, charges[..n]);
      forall i | 0 <= i < |before| ensures Reference(before[i]) != charges[n].id {
        assert before[i] in before;
        var c :| c in charges[..n] && before[i].charge == Some(c.id);
        var k :| 0 <= k < n && charges[k] == c;
      }
    }
  }

  lemma {:induction false} PaymentsOnce(input: Input, payments: seq<Payment>)
    requires DistinctPayments(payments)
    ensures DistinctReferences(OfPayments(input, payments))
  {
    if payments != [] {
      var n := |payments| - 1;
      PaymentsOnce(input, payments[..n]);
      OfPaymentsRefer(input, payments[..n]);
      var before := OfPayments(input, payments[..n]);
      forall i | 0 <= i < |before| ensures Reference(before[i]) != PaymentReference(payments[n]) {
        assert before[i] in before;
        var p :| p in payments[..n] && before[i].charge == p.charge && before[i].payment == Some(p.id);
        var k :| 0 <= k < n && payments[k] == p;
      }
    }
  }

  /** With distinct charge ids, and payments that refer to distinct charges, no two mismatches are of one kind
      about one thing. */
  lemma MismatchesOnce(input: Input, i: nat, j: nat)
    requires DistinctCharges(input.charges) && DistinctPayments(input.payments)
    requires i < j < |MismatchesOf(input)|
    ensures MismatchesOf(input)[i].kind != MismatchesOf(input)[j].kind
         || Reference(MismatchesOf(input)[i]) != Reference(MismatchesOf(input)[j])
  {
    var a, b := OfCharges(input, input.charges), OfPayments(input, input.payments);
    ChargesOnce(input, input.charges);
    PaymentsOnce(input, input.payments);
    OfChargesRefer(input, input.charges);
    OfPaymentsRefer(input, input.payments);
    if i < |a| <= j { assert a[i] in a && b[j - |a|] in b; }
  }

  lemma {:induction false} ChargeOfIs(charges: seq<Charge>, c: Charge)
    requires DistinctCharges(charges) && c in charges
    ensures ChargeOf(charges, c.id) == Some(c)
  {
    var n := |charges| - 1;
    if charges[n] != c {
      var k :| 0 <= k <= n && charges[k] == c;
      assert c in charges[..n];
      ChargeOfIs(charges[..n], c);
    }
  }

  ghost predicate TwoMismatchesFor(input: Input, charge: string) {
    exists i, j :: 0 <= i < j < |MismatchesOf(input)| && MismatchesOf(input)[i].charge == MismatchesOf(input)[j].charge == Some(charge)
  }

  /** A captured payment of the window whose charge, listed as succeeded and refunded past what Orders holds, was
      also confirmed missing. */
  predicate Contradicted(input: Input, c: Charge, p: Payment) {
    && c.succeeded && c.id in input.confirmedMissing && p.charge == Some(c.id)
    && p.captured && input.from <= p.day <= input.to && c.refunded > p.refunded
  }

  lemma {:induction false} PaymentForIs(payments: seq<Payment>, p: Payment, charge: string)
    requires DistinctPayments(payments) && p in payments && Names(p, charge)
    ensures PaymentFor(payments, charge) == Some(p)
  {
    var n := |payments| - 1;
    if payments[n] != p {
      var k :| 0 <= k <= n && payments[k] == p;
      assert PaymentReference(payments[k]) != PaymentReference(payments[n]);
      assert p in payments[..n];
      PaymentForIs(payments[..n], p, charge);
    }
  }

  lemma {:induction false} OfChargesHas(input: Input, charges: seq<Charge>, m: Mismatch)
    ensures m in OfCharges(input, charges) <==> exists c :: c in charges && JudgeCharge(input, c) == Some(m)
  {
    if charges != [] {
      var rest, last := charges[..|charges| - 1], charges[|charges| - 1];
      OfChargesHas(input, rest, m);
      assert charges == rest + [last];
    }
  }

  lemma {:induction false} OfPaymentsHas(input: Input, payments: seq<Payment>, m: Mismatch)
    ensures m in OfPayments(input, payments) <==> exists p :: p in payments && JudgePayment(input, p) == Some(m)
  {
    if payments != [] {
      var rest, last := payments[..|payments| - 1], payments[|payments| - 1];
      OfPaymentsHas(input, rest, m);
      assert payments == rest + [last];
    }
  }

  /** A charge and a payment of it are both judged wrong only when they contradict each other. */
  lemma JudgedTwice(input: Input, c: Charge, p: Payment)
    requires DistinctCharges(input.charges) && DistinctPayments(input.payments)
    requires c in input.charges && p in input.payments && c.id != "" && p.charge == Some(c.id)
    ensures JudgeCharge(input, c).Some? && JudgePayment(input, p).Some? <==> Contradicted(input, c, p)
  {
    ChargeOfIs(input.charges, c);
    PaymentForIs(input.payments, p, c.id);
  }

  lemma ContradictionShows(input: Input, c: Charge, p: Payment)
    requires DistinctCharges(input.charges) && DistinctPayments(input.payments)
    requires c in input.charges && p in input.payments && c.id != "" && Contradicted(input, c, p)
    ensures TwoMismatchesFor(input, c.id)
  {
    JudgedTwice(input, c, p);
    var m, n := JudgeCharge(input, c).value, JudgePayment(input, p).value;
    OfChargesHas(input, input.charges, m);
    OfPaymentsHas(input, input.payments, n);
    var a, b := OfCharges(input, input.charges), OfPayments(input, input.payments);
    var i :| 0 <= i < |a| && a[i] == m;
    var j :| 0 <= j < |b| && b[j] == n;
    assert MismatchesOf(input)[i] == m && MismatchesOf(input)[|a| + j] == n;
  }

  lemma TwoAreContradicted(input: Input, charge: string, i: nat, j: nat) returns (c: Charge, p: Payment)
    requires DistinctCharges(input.charges) && DistinctPayments(input.payments)
    requires forall c :: c in input.charges ==> c.id != ""
    requires i < j < |MismatchesOf(input)|
    requires MismatchesOf(input)[i].charge == MismatchesOf(input)[j].charge == Some(charge)
    ensures c in input.charges && p in input.payments && c.id == charge && Contradicted(input, c, p)
  {
    var a, b := OfCharges(input, input.charges), OfPayments(input, input.payments);
    ChargesOnce(input, input.charges);
    PaymentsOnce(input, input.payments);
    assert i < |a| <= j;
    var m, n := a[i], b[j - |a|];
    assert m in a && n in b && MismatchesOf(input)[i] == m && MismatchesOf(input)[j] == n;
    OfChargesHas(input, input.charges, m);
    OfPaymentsHas(input, input.payments, n);
    c :| c in input.charges && JudgeCharge(input, c) == Some(m);
    p :| p in input.payments && JudgePayment(input, p) == Some(n);
    JudgedTwice(input, c, p);
  }

  /** A charge has two mismatches exactly when it contradicts a payment: listed as succeeded, with a refund Orders
      does not hold, and yet confirmed missing. */
  lemma TwoMismatchesExactlyWhen(input: Input, charge: string)
    requires DistinctCharges(input.charges) && DistinctPayments(input.payments)
    requires forall c :: c in input.charges ==> c.id != ""
    ensures TwoMismatchesFor(input, charge)
       <==> exists c, p :: c in input.charges && p in input.payments && c.id == charge && Contradicted(input, c, p)
  {
    if TwoMismatchesFor(input, charge) {
      var i, j :| 0 <= i < j < |MismatchesOf(input)| && MismatchesOf(input)[i].charge == MismatchesOf(input)[j].charge == Some(charge);
      var c, p := TwoAreContradicted(input, charge, i, j);
    }
    if c, p :| c in input.charges && p in input.payments && c.id == charge && Contradicted(input, c, p) {
      ContradictionShows(input, c, p);
    }
  }

  // ─── What the caller gathers ──────────────────────────────────────────────

  /** The gateway's answer when one charge is read directly. */
  datatype ChargeRead = Found(charge: Charge) | NotFound | Unreadable

  type Retrieve = string -> ChargeRead

  /** The charges known, each id once in the order it was first read, and those confirmed missing. */
  datatype Gathered = Gathered(charges: seq<Charge>, missing: set<string>)

  datatype GatherError = ChargeUnreadable(charge: string)

  predicate Knows(charges: seq<Charge>, id: string) { exists k :: 0 <= k < |charges| && charges[k].id == id }

  /** A charge read again takes the place of the one first read. */
  function Put(charges: seq<Charge>, c: Charge): (after: seq<Charge>)
    ensures DistinctCharges(charges) ==> DistinctCharges(after)
    ensures forall id :: Knows(after, id) <==> Knows(charges, id) || id == c.id
    ensures c in after && forall x :: x in after ==> x in charges || x == c
  {
    if charges == [] then
      assert [c][0].id == c.id;
      [c]
    else if charges[0].id == c.id then
      var after := [c] + charges[1..];
      assert forall k :: 0 <= k < |charges| ==> after[k].id == charges[k].id;
      assert forall id :: Knows(after, id) ==> Knows(charges, id);
      assert after[0].id == c.id;
      after
    else
      var rest := Put(charges[1..], c);
      var after := [charges[0]] + rest;
      PutBehind(charges, rest, c);
      after
  }

  lemma PutBehind(charges: seq<Charge>, rest: seq<Charge>, c: Charge)
    requires charges != [] && charges[0].id != c.id
    requires DistinctCharges(charges[1..]) ==> DistinctCharges(rest)
    requires forall id :: Knows(rest, id) <==> Knows(charges[1..], id) || id == c.id
    ensures DistinctCharges(charges) ==> DistinctCharges([charges[0]] + rest)
    ensures forall id :: Knows([charges[0]] + rest, id) <==> Knows(charges, id) || id == c.id
  {
    forall id ensures Knows([charges[0]] + rest, id) <==> id == charges[0].id || Knows(rest, id) { KnowsStep([charges[0]] + rest, id); }
    forall id ensures Knows(charges, id) <==> id == charges[0].id || Knows(charges[1..], id) { KnowsStep(charges, id); }
    if DistinctCharges(charges) {
      forall k | 0 <= k < |charges[1..]| ensures charges[1..][k].id != charges[0].id {
        assert charges[1..][k] == charges[k + 1];
      }
      assert !Knows(charges[1..], charges[0].id) && !Knows(rest, charges[0].id);
    }
  }

  lemma KnowsStep(charges: seq<Charge>, id: string)
    requires charges != []
    ensures Knows(charges, id) <==> id == charges[0].id || Knows(charges[1..], id)
  {
    if Knows(charges[1..], id) {
      var k :| 0 <= k < |charges[1..]| && charges[1..][k].id == id;
      assert charges[k + 1].id == id;
    }
    if Knows(charges, id) {
      var k :| 0 <= k < |charges| && charges[k].id == id;
      if k > 0 { assert charges[1..][k - 1].id == id; }
    }
  }

  /** A refund names a charge and reading that one finds it. */
  predicate Finds(retrieve: Retrieve, refund: Option<string>) {
    refund.Some? && refund.value != "" && retrieve(refund.value).Found? && retrieve(refund.value).charge.id == refund.value
  }

  /** The charge is as the gateway listed it or gave it when read. */
  ghost predicate FromGateway(c: Charge, listed: seq<Charge>, retrieve: Retrieve) {
    c in listed || exists id :: retrieve(id) == Found(c)
  }

  /** Read the charges of refunds the listing did not return; one that cannot be read is passed over. */
  method ReadRefunded(listed: seq<Charge>, refunds: seq<Option<string>>, retrieve: Retrieve) returns (charges: seq<Charge>)
    ensures DistinctCharges(charges)
    ensures forall c :: c in listed ==> Knows(charges, c.id)
    ensures forall id :: Some(id) in refunds && id != "" && retrieve(id).Found? && retrieve(id).charge.id == id ==> Knows(charges, id)
    ensures forall c :: c in charges ==> FromGateway(c, listed, retrieve)
  {
    charges := [];
    for i := 0 to |listed|
      invariant DistinctCharges(charges)
      invariant forall k :: 0 <= k < i ==> Knows(charges, listed[k].id)
      invariant forall c :: c in charges ==> FromGateway(c, listed, retrieve)
    {
      charges := Put(charges, listed[i]);
    }
    assert forall c :: c in listed ==> Knows(charges, c.id);
    for i := 0 to |refunds|
      invariant DistinctCharges(charges)
      invariant forall c :: c in listed ==> Knows(charges, c.id)
      invariant forall c :: c in charges ==> FromGateway(c, listed, retrieve)
      invariant forall k :: 0 <= k < i && Finds(retrieve, refunds[k]) ==> Knows(charges, refunds[k].value)
    {
      if refunds[i].Some? && refunds[i].value != "" && !Knows(charges, refunds[i].value) {
        var read := retrieve(refunds[i].value);
        if read.Found? { charges := Put(charges, read.charge); }
      }
    }
  }

  /** A payment of the window, captured against a charge, whose charge has to be known or confirmed missing. */
  predicate Asked(from: int, to: int, p: Payment) {
    p.captured && p.charge.Some? && p.charge.value != "" && from <= p.day <= to
  }

  predicate AskedFor(from: int, to: int, payments: seq<Payment>, id: string) {
    exists p :: p in payments && Asked(from, to, p) && p.charge == Some(id)
  }

  /** Read each such charge nobody listed, before it is called missing. */
  method ConfirmMissing(from: int, to: int, listed: seq<Charge>, payments: seq<Payment>, retrieve: Retrieve)
    returns (result: Result<Gathered, GatherError>)
    requires DistinctCharges(listed)
    requires forall id :: retrieve(id).Found? ==> retrieve(id).charge.id == id
    ensures result.Refused? ==> exists p :: p in payments && Asked(from, to, p) && retrieve(p.charge.value).Unreadable?
    ensures result.Ok? ==> Confirmed(from, to, listed, payments, retrieve, result.value)
  {
    var charges, missing := listed, {};
    for i := 0 to |payments|
      invariant Confirmed(from, to, listed, payments[..i], retrieve, Gathered(charges, missing))
    {
      var p := payments[i];
      assert payments[..i + 1] == payments[..i] + [p];
      if !p.captured || p.charge.None? || p.charge.value == "" || Knows(charges, p.charge.value) { continue; }
      if p.day < from || p.day > to { continue; }
      var read := retrieve(p.charge.value);
      if read.Found? {
        charges := Put(charges, read.charge);
      } else if read.NotFound? {
        missing := missing + {p.charge.value};
      } else {
        assert p in payments;
        return Refused(ChargeUnreadable(p.charge.value));
      }
    }
    assert payments[..|payments|] == payments;
    result := Ok(Gathered(charges, missing));
  }

  /** Each id is known once, as the gateway gave it; a missing one was asked for, is not known and does not exist at
      the gateway; and of every payment asked about the charge is known or missing. */
  ghost predicate Confirmed(from: int, to: int, listed: seq<Charge>, payments: seq<Payment>, retrieve: Retrieve, g: Gathered) {
    && DistinctCharges(g.charges)
    && (forall id :: Knows(listed, id) ==> Knows(g.charges, id))
    && (forall c :: c in g.charges ==> FromGateway(c, listed, retrieve))
    && (forall id :: id in g.missing ==> !Knows(g.charges, id) && retrieve(id).NotFound? && AskedFor(from, to, payments, id))
    && (forall id :: Knows(g.charges, id) ==> Knows(listed, id) || retrieve(id).Found?)
    && forall p :: p in payments && Asked(from, to, p) ==> Knows(g.charges, p.charge.value) || p.charge.value in g.missing
  }

  /** What the caller gathers never contradicts itself: each charge has at most one mismatch. */
  lemma OneMismatchPerCharge(input: Input, listed: seq<Charge>, retrieve: Retrieve, charge: string)
    requires Confirmed(input.from, input.to, listed, input.payments, retrieve, Gathered(input.charges, input.confirmedMissing))
    requires DistinctPayments(input.payments) && forall c :: c in input.charges ==> c.id != ""
    ensures !TwoMismatchesFor(input, charge)
  {
    TwoMismatchesExactlyWhen(input, charge);
    forall c | c in input.charges ensures c.id !in input.confirmedMissing {
      var k :| 0 <= k < |input.charges| && input.charges[k] == c;
      assert Knows(input.charges, c.id);
    }
  }

  // ─── The key ──────────────────────────────────────────────────────────────

  function KindName(kind: Kind): string {
    match kind
    case ChargeWithoutPayment => "ChargeWithoutPayment"
    case PaymentWithoutCharge => "PaymentWithoutCharge"
    case RefundNotBooked => "RefundNotBooked"
  }

  function Cents(c: nat): string
    requires c < 100
  {
    if c == 0 then ""
    else if c % 10 == 0 then "." + [Digit(c / 10)]
    else "." + [Digit(c / 10), Digit(c % 10)]
  }

  /** An amount as a number prints: no trailing zeros, and no point when it is whole. */
  function PrintAmount(amount: int): string {
    var size: nat := if amount < 0 then -amount else amount;
    (if amount < 0 then "-" else "") + Print(size / 100) + Cents(size % 100)
  }

  /** Stable per mismatch and amount. */
  function DedupeKey(m: Mismatch): string {
    KindName(m.kind) + "|" + Reference(m) + "|" + PrintAmount(m.amount)
  }

  // ─── Reading it back ──────────────────────────────────────────────────────

  /** The first place of `c`, or -1. */
  function IndexOf(text: string, c: char): (i: int)
    ensures -1 <= i < |text|
  {
    if text == [] then -1
    else if text[0] == c then 0
    else
      var rest := IndexOf(text[1..], c);
      if rest < 0 then -1 else rest + 1
  }

  /** The last place of `c`, or -1. */
  function LastIndexOf(text: string, c: char): (i: int)
    ensures -1 <= i < |text|
  {
    if text == [] then -1
    else if text[|text| - 1] == c then |text| - 1
    else LastIndexOf(text[..|text| - 1], c)
  }

  lemma {:induction false} FirstIs(text: string, c: char, k: nat)
    requires k < |text| && text[k] == c && forall i :: 0 <= i < k ==> text[i] != c
    ensures IndexOf(text, c) == k
  {
    if k > 0 { FirstIs(text[1..], c, k - 1); }
  }

  lemma {:induction false} LastIs(text: string, c: char, k: nat)
    requires k < |text| && text[k] == c && forall i :: k < i < |text| ==> text[i] != c
    ensures LastIndexOf(text, c) == k
  {
    if k < |text| - 1 { LastIs(text[..|text| - 1], c, k); }
  }

  lemma {:induction false} NotFound(text: string, c: char)
    requires forall i :: 0 <= i < |text| ==> text[i] != c
    ensures IndexOf(text, c) == -1
  {
    if text != [] { NotFound(text[1..], c); }
  }

  lemma {:induction false} FoundAt(text: string, c: char)
    ensures IndexOf(text, c) >= 0 ==> text[IndexOf(text, c)] == c
    ensures LastIndexOf(text, c) >= 0 ==> text[LastIndexOf(text, c)] == c
  {
    if text != [] {
      FoundAt(text[1..], c);
      FoundAt(text[..|text| - 1], c);
    }
  }

  lemma {:induction false} LastAtLeast(text: string, c: char, k: nat)
    requires k < |text| && text[k] == c
    ensures LastIndexOf(text, c) >= k
  {
    if text[|text| - 1] != c { LastAtLeast(text[..|text| - 1], c, k); }
  }

  function KindOf(name: string): (kind: Option<Kind>)
    ensures kind.Some? ==> KindName(kind.value) == name
  {
    if name == "ChargeWithoutPayment" then Some(ChargeWithoutPayment)
    else if name == "PaymentWithoutCharge" then Some(PaymentWithoutCharge)
    else if name == "RefundNotBooked" then Some(RefundNotBooked)
    else None
  }

  datatype ParsedKey = ParsedKey(kind: Kind, reference: Option<string>, amount: int)

  /** How `Number` reads a text, in cents; none when it is blank or not a finite number. Any reading will do that
      reads back what is printed. */
  type Reader = string -> Option<int>

  ghost predicate ReadsAmounts(reader: Reader) { forall amount: int :: reader(PrintAmount(amount)) == Some(amount) }

  /** Split at the first and the last separator, so the middle is kept whole. */
  function ParseKey(text: string, reader: Reader): Option<ParsedKey> {
    var first, last := IndexOf(text, '|'), LastIndexOf(text, '|');
    if first < 0 || last == first then None
    else
      SeparatorsInOrder(text);
      var kind, amount := KindOf(text[..first]), reader(text[last + 1..]);
      if kind.None? || amount.None? then None
      else
        var reference := text[first + 1..last];
        Some(ParsedKey(kind.value, if reference == "" then None else Some(reference), amount.value))
  }

  lemma SeparatorsInOrder(text: string)
    requires IndexOf(text, '|') >= 0
    ensures 0 <= IndexOf(text, '|') <= LastIndexOf(text, '|') < |text|
  {
    FoundAt(text, '|');
    LastAtLeast(text, '|', IndexOf(text, '|'));
  }

  lemma PrintedHasNoSeparator(amount: int)
    ensures '|' !in PrintAmount(amount)
  {
    var size: nat := if amount < 0 then -amount else amount;
    var whole := Print(size / 100);
    forall c | c in whole ensures c != '|' { assert IsDigit(c); }
  }

  /** Three parts, neither end holding the separator, are found again at the first and the last of it. */
  lemma SplitsBack(head: string, middle: string, tail: string)
    requires '|' !in head && '|' !in tail
    ensures var text := head + "|" + middle + "|" + tail;
            && IndexOf(text, '|') == |head| && LastIndexOf(text, '|') == |head| + 1 + |middle|
            && text[..|head|] == head && text[|head| + 1..|head| + 1 + |middle|] == middle
            && text[|head| + 1 + |middle| + 1..] == tail
  {
    var text := head + "|" + middle + "|" + tail;
    var end := |head| + 1 + |middle|;
    assert text[..|head|] == head && text[end + 1..] == tail;
    FirstIs(text, '|', |head|);
    LastIs(text, '|', end);
  }

  lemma KindNamePlain(kind: Kind)
    ensures '|' !in KindName(kind) && KindOf(KindName(kind)) == Some(kind)
  {
  }

  /** Reading a printed key gives back the kind, the reference, even one that holds the separator, and the amount. */
  lemma KeyRoundTrip(m: Mismatch, reader: Reader)
    requires ReadsAmounts(reader)
    ensures ParseKey(DedupeKey(m), reader)
         == Some(ParsedKey(m.kind, if Reference(m) == "" then None else Some(Reference(m)), m.amount))
  {
    hide KindName, PrintAmount, KindOf;
    KindNamePlain(m.kind);
    PrintedHasNoSeparator(m.amount);
    SplitsBack(KindName(m.kind), Reference(m), PrintAmount(m.amount));
    assert reader(PrintAmount(m.amount)) == Some(m.amount);
  }

  /** What follows the last separator of a text holds none. */
  lemma NoneAfterLast(text: string)
    ensures LastIndexOf(text, '|') >= 0 ==> '|' !in text[LastIndexOf(text, '|') + 1..]
  {
    forall k | LastIndexOf(text, '|') < k < |text| ensures text[k] != '|' {
      if text[k] == '|' { LastAtLeast(text, '|', k); }
    }
  }

  /** A key parses only when it is made of a kind's name, some reference and an amount that reads. */
  lemma ParsedKeyIs(text: string, reader: Reader) returns (amountText: string)
    requires ParseKey(text, reader).Some?
    ensures var key := ParseKey(text, reader).value;
            text == KindName(key.kind) + "|" + (if key.reference.Some? then key.reference.value else "") + "|" + amountText
            && reader(amountText) == Some(key.amount) && '|' !in amountText && key.reference != Some("")
  {
    hide KindName, KindOf, IndexOf, LastIndexOf;
    NoneAfterLast(text);
    var first, last := IndexOf(text, '|'), LastIndexOf(text, '|');
    SeparatorsInOrder(text);
    FoundAt(text, '|');
    amountText := text[last + 1..];
    assert text == text[..first] + "|" + text[first + 1..last] + "|" + amountText;
  }

  // ─── The printed amount, read ─────────────────────────────────────────────

  /** A decimal with at most two places, read back in cents. */
  function ReadSize(s: string): Option<int> {
    var point := IndexOf(s, '.');
    if point < 0 then (if s != "" && AllDigits(s) then Some(100 * Read(s)) else None)
    else
      var whole, places := s[..point], s[point + 1..];
      if whole == "" || !AllDigits(whole) || !AllDigits(places) then None
      else if |places| == 1 then Some(100 * Read(whole) + 10 * Value(places[0]))
      else if |places| == 2 then Some(100 * Read(whole) + 10 * Value(places[0]) + Value(places[1]))
      else None
  }

  function ReadAmount(s: string): Option<int> {
    if s != "" && s[0] == '-' then
      var size := ReadSize(s[1..]);
      if size.Some? then Some(-size.value) else None
    else ReadSize(s)
  }

  lemma CentsRead(c: nat)
    requires 0 < c < 100
    ensures |Cents(c)| >= 2
    ensures var places := Cents(c)[1..];
            && Cents(c)[0] == '.' && AllDigits(places)
            && (if |places| == 1 then c == 10 * Value(places[0]) else |places| == 2 && c == 10 * Value(places[0]) + Value(places[1]))
  {
  }

  lemma ReadSizePrinted(size: nat)
    ensures ReadSize(Print(size / 100) + Cents(size % 100)) == Some(size)
  {
    hide Print, Read, Cents;
    var whole, cents := Print(size / 100), size % 100;
    var s := whole + Cents(cents);
    ReadPrinted(size / 100);
    forall i | 0 <= i < |whole| ensures whole[i] != '.' { assert whole[i] in whole; }
    if cents == 0 {
      NoCents();
      assert s == whole;
      NotFound(s, '.');
    } else {
      CentsRead(cents);
      assert s[|whole|] == Cents(cents)[0] && forall i :: 0 <= i < |whole| ==> s[i] == whole[i];
      FirstIs(s, '.', |whole|);
      assert s[..|whole|] == whole && s[|whole| + 1..] == Cents(cents)[1..];
    }
  }

  lemma NoCents()
    ensures Cents(0) == ""
  {
  }

  lemma ReadsBack(amount: int)
    ensures ReadAmount(PrintAmount(amount)) == Some(amount)
  {
    hide Print, Cents, ReadSize;
    var size: nat := if amount < 0 then -amount else amount;
    ReadSizePrinted(size);
    var whole := Print(size / 100);
    var text := whole + Cents(size % 100);
    assert whole[0] in whole && IsDigit(whole[0]) && text[0] == whole[0];
    if amount < 0 {
      assert PrintAmount(amount) == "-" + text && ("-" + text)[1..] == text;
    } else {
      assert PrintAmount(amount) == "" + text == text;
    }
  }

  /** What is printed reads back as the same amount, so a reading that does exists. */
  lemma ReadAmountPrinted()
    ensures ReadsAmounts(ReadAmount)
  {
    hide PrintAmount, ReadAmount;
    forall amount: int ensures ReadAmount(PrintAmount(amount)) == Some(amount) { ReadsBack(amount); }
  }

  /** With distinct charge ids, and payments that refer to distinct charges, every mismatch has its own key. */
  lemma KeysAreDistinct(input: Input, i: nat, j: nat)
    requires DistinctCharges(input.charges) && DistinctPayments(input.payments)
    requires i < j < |MismatchesOf(input)|
    ensures DedupeKey(MismatchesOf(input)[i]) != DedupeKey(MismatchesOf(input)[j])
  {
    hide DedupeKey, ParseKey, MismatchesOf;
    var a, b := MismatchesOf(input)[i], MismatchesOf(input)[j];
    MismatchesOnce(input, i, j);
    ReadAmountPrinted();
    KeyRoundTrip(a, ReadAmount);
    KeyRoundTrip(b, ReadAmount);
  }

  // ─── Booking an exception as an order ─────────────────────────────────────

  datatype Exception = Exception(open: bool, ofChargeType: bool, fromProvider: bool, source: string, key: string)

  datatype Target = Target(provider: string, charge: string)

  datatype Refusal = NotOpen | WrongType | UnreadableKey | WrongKind | OpenedByOrders

  /** What an exception says to book an order for, after six checks in turn. */
  function CheckException(row: Exception, reader: Reader, isID: string -> bool): Result<Target, Refusal> {
    if !row.open then Refused(NotOpen)
    else if !row.ofChargeType then Refused(WrongType)
    else
      var key := ParseKey(row.key, reader);
      if key.None? then Refused(UnreadableKey)
      else if !key.value.kind.ChargeWithoutPayment? then Refused(WrongKind)
      else if !row.fromProvider then Refused(OpenedByOrders)
      else if key.value.reference.None? || !isID(row.source) then Refused(UnreadableKey)
      else Ok(Target(row.source, key.value.reference.value))
  }

  /** An open exception raised for a mismatch is resolved with an order exactly when it is a charge without a
      payment, raised against the provider; and then it names that very charge. */
  lemma ExceptionResolvesExactlyWhen(row: Exception, m: Mismatch, reader: Reader, isID: string -> bool)
    requires ReadsAmounts(reader) && row.open && row.ofChargeType && isID(row.source) && row.key == DedupeKey(m)
    ensures CheckException(row, reader, isID).Ok?
       <==> m.kind.ChargeWithoutPayment? && row.fromProvider && Reference(m) != ""
    ensures CheckException(row, reader, isID).Ok? ==> CheckException(row, reader, isID).value == Target(row.source, Reference(m))
  {
    hide DedupeKey, ParseKey;
    KeyRoundTrip(m, reader);
  }
}
