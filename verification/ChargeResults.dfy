/** What reconciliation answers, written out: which mismatches there are and what each says, the key each is raised
    under, what a key says, and when an exception names an order to book. */
module ChargeResults {
  import opened Outcomes
  import opened Decimals
  import opened ChargeReconciliation

  // ─── The mismatches ───────────────────────────────────────────────────────

  /** `p` is the last payment that records the charge. */
  predicate LastOf(payments: seq<Payment>, charge: string, n: nat) {
    && n < |payments| && charge != "" && payments[n].charge == Some(charge)
    && forall k :: n < k < |payments| ==> payments[k].charge != Some(charge)
  }

  predicate Unrecorded(payments: seq<Payment>, charge: string) {
    charge == "" || forall k :: 0 <= k < |payments| ==> payments[k].charge != Some(charge)
  }

  lemma {:induction false} PaymentForIs(payments: seq<Payment>, charge: string)
    ensures match PaymentFor(payments, charge)
            case Some(p) => exists n: nat :: LastOf(payments, charge, n) && payments[n] == p
            case None => Unrecorded(payments, charge)
  {
    if payments != [] {
      var n := |payments| - 1;
      if Names(payments[n], charge) {
        assert LastOf(payments, charge, n);
      } else {
        PaymentForIs(payments[..n], charge);
        if PaymentFor(payments[..n], charge).Some? {
          var m: nat :| LastOf(payments[..n], charge, m) && payments[..n][m] == PaymentFor(payments[..n], charge).value;
          assert LastOf(payments, charge, m);
        }
      }
    }
  }

  /** What Orders records of a charge: its last payment, or none. */
  ghost predicate Recorded(input: Input, c: Charge, payment: Option<Payment>) {
    if payment.Some? then exists n: nat :: LastOf(input.payments, c.id, n) && input.payments[n] == payment.value
    else Unrecorded(input.payments, c.id)
  }

  lemma RecordedIs(input: Input, c: Charge) returns (payment: Option<Payment>)
    ensures Recorded(input, c, payment) && payment == PaymentFor(input.payments, c.id)
  {
    payment := PaymentFor(input.payments, c.id);
    PaymentForIs(input.payments, c.id);
  }

  /** A succeeded charge of the window without a captured payment: its own amount is unmatched. */
  ghost predicate WithoutPayment(input: Input, c: Charge, payment: Option<Payment>, m: Mismatch) {
    && c.succeeded && c.id in input.inWindow && (payment.None? || !payment.value.captured)
    && m == Mismatch(ChargeWithoutPayment, Some(c.id), if payment.Some? then Some(payment.value.id) else None, c.amount)
  }

  /** A captured payment holds fewer refunds than its succeeded charge: the difference is not booked. */
  ghost predicate NotBooked(c: Charge, payment: Option<Payment>, m: Mismatch) {
    && c.succeeded && payment.Some? && payment.value.captured && c.refunded > payment.value.refunded
    && m == Mismatch(RefundNotBooked, Some(c.id), Some(payment.value.id), c.refunded - payment.value.refunded)
  }

  /** The gateway's last word on a charge is that it did not succeed. */
  ghost predicate LastFailed(charges: seq<Charge>, id: string) {
    exists n: nat :: LastCharge(charges, id, n) && !charges[n].succeeded
  }

  /** A captured payment of the window that records no charge, or one the gateway does not have or did not take. */
  ghost predicate WithoutCharge(input: Input, p: Payment, m: Mismatch) {
    && p.captured && input.from <= p.day && p.day <= input.to
    && (p.charge.None? || p.charge.value == "" || p.charge.value in input.confirmedMissing || LastFailed(input.charges, p.charge.value))
    && m == Mismatch(PaymentWithoutCharge, p.charge, Some(p.id), p.amount)
  }

  /** The `n`th charge is the last of its id. */
  predicate LastCharge(charges: seq<Charge>, id: string, n: nat) {
    n < |charges| && charges[n].id == id && forall k :: n < k < |charges| ==> charges[k].id != id
  }

  lemma {:induction false} ChargeOfLast(charges: seq<Charge>, id: string)
    ensures match ChargeOf(charges, id)
            case Some(c) => exists n: nat :: LastCharge(charges, id, n) && charges[n] == c
            case None => forall k :: 0 <= k < |charges| ==> charges[k].id != id
  {
    if charges != [] {
      var n := |charges| - 1;
      if charges[n].id == id {
        assert LastCharge(charges, id, n);
      } else {
        ChargeOfLast(charges[..n], id);
        if ChargeOf(charges[..n], id).Some? {
          var m: nat :| LastCharge(charges[..n], id, m) && charges[..n][m] == ChargeOf(charges[..n], id).value;
          assert LastCharge(charges, id, m);
        }
      }
    }
  }

  lemma ChargeOfIs(charges: seq<Charge>, id: string)
    ensures ChargeOf(charges, id).Some? && !ChargeOf(charges, id).value.succeeded <==> LastFailed(charges, id)
  {
    ChargeOfLast(charges, id);
    hide ChargeOf;
    if LastFailed(charges, id) {
      var m: nat :| LastCharge(charges, id, m) && !charges[m].succeeded;
    }
  }

  lemma JudgesCharge(input: Input, c: Charge, payment: Option<Payment>, m: Mismatch)
    requires payment == PaymentFor(input.payments, c.id)
    ensures JudgeCharge(input, c) == Some(m) <==> WithoutPayment(input, c, payment, m) || NotBooked(c, payment, m)
  {
  }

  lemma JudgesPayment(input: Input, p: Payment, m: Mismatch)
    ensures JudgePayment(input, p) == Some(m) <==> WithoutCharge(input, p, m)
  {
    if p.charge.Some? { ChargeOfIs(input.charges, p.charge.value); }
  }

  /** Of a charge listed, or of a payment recorded. */
  ghost predicate Found(input: Input, m: Mismatch) {
    || (exists c, payment :: c in input.charges && Recorded(input, c, payment) && (WithoutPayment(input, c, payment, m) || NotBooked(c, payment, m)))
    || (exists p :: p in input.payments && WithoutCharge(input, p, m))
  }

  lemma SameRecord(input: Input, c: Charge, a: Option<Payment>, b: Option<Payment>)
    requires Recorded(input, c, a) && Recorded(input, c, b)
    ensures a == b
  {
    if a.Some? && b.Some? {
      var m: nat :| LastOf(input.payments, c.id, m) && input.payments[m] == a.value;
      var n: nat :| LastOf(input.payments, c.id, n) && input.payments[n] == b.value;
      assert m == n;
    }
  }

  /** The mismatches are just these: a charge without a payment, a refund not booked, a payment without a charge. */
  lemma FoundExactlyWhen(input: Input, m: Mismatch)
    ensures m in MismatchesOf(input) <==> Found(input, m)
  {
    hide JudgeCharge, JudgePayment, Recorded, WithoutPayment, NotBooked, WithoutCharge;
    OfChargesHas(input, input.charges, m);
    OfPaymentsHas(input, input.payments, m);
    if m in OfCharges(input, input.charges) {
      var c :| c in input.charges && JudgeCharge(input, c) == Some(m);
      var payment := RecordedIs(input, c);
      JudgesCharge(input, c, payment, m);
    }
    if c, payment :| c in input.charges && Recorded(input, c, payment) && (WithoutPayment(input, c, payment, m) || NotBooked(c, payment, m)) {
      var own := RecordedIs(input, c);
      SameRecord(input, c, own, payment);
      JudgesCharge(input, c, payment, m);
    }
    forall p ensures JudgePayment(input, p) == Some(m) <==> WithoutCharge(input, p, m) { JudgesPayment(input, p, m); }
  }

  /** They come in the order of the charges, and then of the payments. */
  lemma InOrder(input: Input, charges: seq<Charge>, c: Charge, payments: seq<Payment>, p: Payment)
    ensures MismatchesOf(input) == OfCharges(input, input.charges) + OfPayments(input, input.payments)
    ensures OfCharges(input, charges + [c])
         == OfCharges(input, charges) + (if JudgeCharge(input, c).Some? then [JudgeCharge(input, c).value] else [])
    ensures OfPayments(input, payments + [p])
         == OfPayments(input, payments) + (if JudgePayment(input, p).Some? then [JudgePayment(input, p).value] else [])
  {
    hide JudgeCharge, JudgePayment;
    assert (charges + [c])[..|charges|] == charges && (payments + [p])[..|payments|] == payments;
  }

  // ─── What is gathered ─────────────────────────────────────────────────────

  predicate Has(charges: seq<Charge>, id: string) { exists c :: c in charges && c.id == id }

  lemma HasIs(charges: seq<Charge>, id: string)
    ensures Has(charges, id) <==> Knows(charges, id)
  {
    if c :| c in charges && c.id == id { var k :| 0 <= k < |charges| && charges[k] == c; }
    if Knows(charges, id) {
      var k :| 0 <= k < |charges| && charges[k].id == id;
      assert charges[k] in charges;
    }
  }

  /** A payment whose charge is asked for: captured within the window, with a charge. */
  predicate NeedsCharge(from: int, to: int, p: Payment, id: string) {
    p.captured && p.charge == Some(id) && id != "" && from <= p.day && p.day <= to
  }

  /** A charge is confirmed missing exactly when such a payment records it, the listing does not have it, and reading it
      finds nothing. */
  lemma MissingExactlyWhen(from: int, to: int, listed: seq<Charge>, payments: seq<Payment>, retrieve: Retrieve, g: Gathered, id: string)
    requires Confirmed(from, to, listed, payments, retrieve, g)
    ensures id in g.missing <==> !Has(listed, id) && retrieve(id) == NotFound && exists p :: p in payments && NeedsCharge(from, to, p, id)
  {
    HasIs(listed, id);
    HasIs(g.charges, id);
    if id in g.missing {
      assert AskedFor(from, to, payments, id);
      var p :| p in payments && Asked(from, to, p) && p.charge == Some(id);
      assert NeedsCharge(from, to, p, id);
    }
    if p :| p in payments && NeedsCharge(from, to, p, id) { assert Asked(from, to, p); }
  }

  // ─── The key ──────────────────────────────────────────────────────────────

  function NameOf(kind: Kind): string {
    match kind
    case ChargeWithoutPayment => "ChargeWithoutPayment"
    case PaymentWithoutCharge => "PaymentWithoutCharge"
    case RefundNotBooked => "RefundNotBooked"
  }

  /** What a key is of: the charge, or the payment without one. */
  function Subject(m: Mismatch): string {
    if m.charge.Some? then m.charge.value else if m.payment.Some? then m.payment.value else ""
  }

  /** An amount of cents as it prints: whole ones without a point, and no place more than it needs. */
  function Spelled(cents: nat): string {
    Print(cents / 100)
    + (if cents % 100 == 0 then "" else if cents % 10 == 0 then "." + Print(cents % 100 / 10)
       else if cents % 100 < 10 then ".0" + Print(cents % 10) else "." + Print(cents % 100))
  }

  lemma CentsAre(c: nat)
    requires c < 100
    ensures Cents(c) == if c == 0 then "" else if c % 10 == 0 then "." + Print(c / 10)
                        else if c < 10 then ".0" + Print(c % 10) else "." + Print(c)
  {
    assert Print(c / 10) == [Digit(c / 10)] && Print(c % 10) == [Digit(c % 10)];
    if c >= 10 { assert Print(c) == Print(c / 10) + [Digit(c % 10)]; }
  }

  lemma SpelledIs(cents: int)
    requires cents >= 0
    ensures PrintAmount(cents) == Spelled(cents)
    ensures cents > 0 ==> PrintAmount(-cents) == "-" + Spelled(cents)
  {
    hide Print, Cents;
    CentsAre(cents % 100);
    var whole, places := Print(cents / 100), Cents(cents % 100);
    assert cents % 10 == cents % 100 % 10;
    assert Spelled(cents) == whole + places;
    assert "" + whole == whole && ("-" + whole) + places == "-" + (whole + places);
  }

  /** Three parts: the kind, what it is of, and the amount. */
  lemma KeyIs(m: Mismatch)
    ensures DedupeKey(m) == NameOf(m.kind) + "|" + Subject(m) + "|" + if m.amount < 0 then "-" + Spelled(-m.amount) else Spelled(m.amount)
  {
    if m.amount < 0 { SpelledIs(-m.amount); } else { SpelledIs(m.amount); }
    hide PrintAmount, Spelled;
  }

  /** A text is the key of a kind, a reference and an amount exactly when it has those three parts, the last without the
      separator and reading as the amount. */
  ghost predicate SpellsOut(text: string, reader: Reader, key: ParsedKey, amount: string) {
    && '|' !in amount && reader(amount) == Some(key.amount) && key.reference != Some("")
    && text == NameOf(key.kind) + "|" + (if key.reference.Some? then key.reference.value else "") + "|" + amount
  }

  lemma SpelledParses(text: string, reader: Reader, key: ParsedKey, amount: string)
    requires SpellsOut(text, reader, key, amount)
    ensures ParseKey(text, reader) == Some(key)
  {
    assert NameOf(key.kind) == KindName(key.kind);
    hide KindName, KindOf, IndexOf, LastIndexOf, NameOf;
    KindNamePlain(key.kind);
    SplitsBack(KindName(key.kind), if key.reference.Some? then key.reference.value else "", amount);
  }

  lemma ParsedSpells(text: string, reader: Reader) returns (amount: string)
    requires ParseKey(text, reader).Some?
    ensures SpellsOut(text, reader, ParseKey(text, reader).value, amount)
  {
    assert NameOf(ParseKey(text, reader).value.kind) == KindName(ParseKey(text, reader).value.kind);
    hide KindName, ParseKey, NameOf;
    amount := ParsedKeyIs(text, reader);
  }

  lemma ParsesExactlyWhen(text: string, reader: Reader, key: ParsedKey)
    ensures ParseKey(text, reader) == Some(key) <==> exists amount :: SpellsOut(text, reader, key, amount)
  {
    hide ParseKey, SpellsOut;
    if ParseKey(text, reader) == Some(key) { var amount := ParsedSpells(text, reader); }
    if amount :| SpellsOut(text, reader, key, amount) { SpelledParses(text, reader, key, amount); }
  }

  // ─── The exception ────────────────────────────────────────────────────────

  /** Each refusal of an exception, in the order they are looked for; one that none of them stops names the provider it
      was raised on and the charge of its key. */
  lemma CheckIs(row: Exception, reader: Reader, isID: string -> bool)
    ensures var key, result := ParseKey(row.key, reader), CheckException(row, reader, isID);
            && (result == Refused(NotOpen) <==> !row.open)
            && (result == Refused(WrongType) <==> row.open && !row.ofChargeType)
            && (result == Refused(WrongKind) <==> row.open && row.ofChargeType && key.Some? && key.value.kind != ChargeWithoutPayment)
            && (result == Refused(OpenedByOrders)
                <==> row.open && row.ofChargeType && key.Some? && key.value.kind == ChargeWithoutPayment && !row.fromProvider)
            && (result == Refused(UnreadableKey)
                <==> row.open && row.ofChargeType
                     && (key.None? || (key.value.kind == ChargeWithoutPayment && row.fromProvider
                                       && (key.value.reference.None? || !isID(row.source)))))
            && (result.Ok? ==> result.value.provider == row.source && key.Some? && Some(result.value.charge) == key.value.reference)
  {
    hide ParseKey;
  }
}
