/** The credit memo of an amount change and the instalment lines after it (ReduceLineAmounts, SplitCreditMemo,
    ScheduleShare, CreditMemoEntry and CreditMemoNumber of AmountChangePlan.ts). Amounts are cents. */
module CreditMemo {
  import opened Outcomes
  import opened Rounding
  import opened Recognition
  import opened Decimals

  // ─── A line lowered by approved changes ───────────────────────────────────

  /** One tax account a line credits. */
  datatype Credit = Credit(account: nat, amount: int)

  datatype SlicedLine = SlicedLine(id: nat, net: int, tax: int, gross: int, credits: seq<Credit>)

  datatype LineReduction = LineReduction(line: nat, net: int, tax: int)

  datatype Overreach = LoweredTooFar

  function Of(reductions: seq<LineReduction>, line: nat): seq<LineReduction> {
    if reductions == [] then []
    else (if reductions[0].line == line then [reductions[0]] else []) + Of(reductions[1..], line)
  }

  function NetOf(reductions: seq<LineReduction>): int {
    if reductions == [] then 0 else reductions[0].net + NetOf(reductions[1..])
  }

  function TaxOf(reductions: seq<LineReduction>): int {
    if reductions == [] then 0 else reductions[0].tax + TaxOf(reductions[1..])
  }

  function AmountsOf(credits: seq<Credit>): (a: seq<int>)
    ensures |a| == |credits|
  {
    seq(|credits|, i requires 0 <= i < |credits| => credits[i].amount)
  }

  function WithAmounts(credits: seq<Credit>, amounts: seq<int>): (c: seq<Credit>)
    requires |credits| == |amounts|
    ensures |c| == |credits|
  {
    seq(|credits|, i requires 0 <= i < |credits| => credits[i].(amount := amounts[i]))
  }

  function NonZero(credits: seq<Credit>): seq<Credit> {
    if credits == [] then []
    else if credits[0].amount != 0 then [credits[0]] + NonZero(credits[1..])
    else NonZero(credits[1..])
  }

  /** What the line's tax credits come down to together: their share of the tax that is kept. */
  function KeptCredit(line: SlicedLine, tax: int): int {
    var credited := Sum(AmountsOf(line.credits));
    if line.tax == 0 then credited else RoundDiv(credited * (line.tax - tax), line.tax)
  }

  function Lowered(line: SlicedLine, reductions: seq<LineReduction>): Result<SlicedLine, Overreach> {
    var mine := Of(reductions, line.id);
    if mine == [] then Ok(line)
    else if NetOf(mine) > line.net || TaxOf(mine) > line.tax then Refused(LoweredTooFar)
    else
      var pieces := Pieces(KeptCredit(line, TaxOf(mine)), AmountsOf(line.credits));
      Ok(SlicedLine(line.id, line.net - NetOf(mine), line.tax - TaxOf(mine), line.gross - NetOf(mine),
                    NonZero(WithAmounts(line.credits, pieces))))
  }

  /** Lower a line by its own reductions, refusing more than it has. */
  method ReduceLineAmounts(line: SlicedLine, reductions: seq<LineReduction>) returns (result: Result<SlicedLine, Overreach>)
    ensures result == Lowered(line, reductions)
  {
    var mine := Of(reductions, line.id);
    if mine == [] { return Ok(line); }
    var net, tax := NetOf(mine), TaxOf(mine);
    if net > line.net || tax > line.tax { return Refused(LoweredTooFar); }
    ghost var weights := AmountsOf(line.credits);
    var credited := Sum(AmountsOf(line.credits));
    var target := KeptCredit(line, tax);
    ghost var lowered := WithAmounts(line.credits, Pieces(target, weights));
    var credits, through, given := [], 0, 0;
    FirstUpTo(target, weights);
    for i := 0 to |line.credits|
      invariant through == Sum(weights[..i]) && given == UpTo(target, weights, i)
      invariant credits == NonZero(lowered[..i])
    {
      SumPrefix(weights, i);
      through := through + line.credits[i].amount;
      var upTo := if credited == 0 then 0 else RoundDiv(target * through, credited);
      var piece := upTo - given;
      given := upTo;
      NonZeroSnoc(lowered, i);
      assert lowered[i] == line.credits[i].(amount := piece);
      if piece != 0 { credits := credits + [line.credits[i].(amount := piece)]; }
    }
    assert lowered[..|line.credits|] == lowered;
    result := Ok(SlicedLine(line.id, line.net - net, line.tax - tax, line.gross - net, credits));
  }

  lemma FirstUpTo(target: int, weights: seq<int>)
    ensures UpTo(target, weights, 0) == 0
  {
    assert target * Sum(weights[..0]) == 0 * Sum(weights);
    if Sum(weights) != 0 { RoundDivExact(0, Sum(weights)); }
  }

  lemma {:induction false} NonZeroConcat(a: seq<Credit>, b: seq<Credit>)
    ensures NonZero(a + b) == NonZero(a) + NonZero(b)
  {
    if a == [] {
      assert a + b == b;
    } else {
      NonZeroConcat(a[1..], b);
      assert (a + b)[1..] == a[1..] + b;
    }
  }

  lemma NonZeroSnoc(credits: seq<Credit>, i: nat)
    requires i < |credits|
    ensures NonZero(credits[..i + 1]) == NonZero(credits[..i]) + if credits[i].amount != 0 then [credits[i]] else []
  {
    NonZeroConcat(credits[..i], [credits[i]]);
    assert credits[..i + 1] == credits[..i] + [credits[i]];
    assert [credits[i]][1..] == [];
  }

  lemma {:induction false} NonZeroSum(credits: seq<Credit>)
    ensures Sum(AmountsOf(NonZero(credits))) == Sum(AmountsOf(credits))
  {
    if credits != [] {
      NonZeroSum(credits[1..]);
      assert AmountsOf(credits)[1..] == AmountsOf(credits[1..]);
      var rest := NonZero(credits[1..]);
      assert AmountsOf([credits[0]] + rest)[1..] == AmountsOf(rest);
      assert [] + rest == rest;
    }
  }

  /** The lowered credits sum to just what is kept of them, whatever their signs. */
  lemma LoweredCredits(line: SlicedLine, reductions: seq<LineReduction>)
    requires Of(reductions, line.id) != [] && Lowered(line, reductions).Ok?
    ensures var credited := Sum(AmountsOf(line.credits));
            Sum(AmountsOf(Lowered(line, reductions).value.credits))
              == if credited == 0 then 0 else KeptCredit(line, TaxOf(Of(reductions, line.id)))
  {
    var weights := AmountsOf(line.credits);
    var pieces := Pieces(KeptCredit(line, TaxOf(Of(reductions, line.id))), weights);
    PiecesSum(KeptCredit(line, TaxOf(Of(reductions, line.id))), weights);
    NonZeroSum(WithAmounts(line.credits, pieces));
    assert AmountsOf(WithAmounts(line.credits, pieces)) == pieces;
  }

  /** A line whose credits sum to its tax still ties once it is lowered, unless it carried no tax to take any
      off, and a lowered line is non-negative. */
  lemma LoweredTies(line: SlicedLine, reductions: seq<LineReduction>)
    requires Lowered(line, reductions).Ok? && Sum(AmountsOf(line.credits)) == line.tax
    ensures var after, taxTaken := Lowered(line, reductions).value, TaxOf(Of(reductions, line.id));
            && after.tax == line.tax - taxTaken
            && after.net == line.net - NetOf(Of(reductions, line.id))
            && after.gross == line.gross - NetOf(Of(reductions, line.id)) && after.id == line.id
            && (Of(reductions, line.id) != [] ==> after.net >= 0 && after.tax >= 0)
            && (Sum(AmountsOf(after.credits)) == after.tax <==> line.tax != 0 || taxTaken == 0)
  {
    var mine := Of(reductions, line.id);
    if mine != [] {
      LoweredCredits(line, reductions);
      if line.tax != 0 {
        RoundDivExact(line.tax - TaxOf(mine), line.tax);
        assert line.tax * (line.tax - TaxOf(mine)) == (line.tax - TaxOf(mine)) * line.tax;
      }
    }
  }

  /** Each lowered credit keeps its own account and lies between nothing and what it was. */
  lemma LoweredCreditBounds(line: SlicedLine, tax: int, i: nat)
    requires i < |line.credits| && 0 <= tax <= line.tax
    requires forall c :: c in line.credits ==> c.amount >= 0
    ensures 0 <= Pieces(KeptCredit(line, tax), AmountsOf(line.credits))[i] <= line.credits[i].amount
  {
    var weights := AmountsOf(line.credits);
    SumNonNegative(weights);
    var credited := Sum(weights);
    if credited == 0 {
      assert UpTo(KeptCredit(line, tax), weights, i + 1) == UpTo(KeptCredit(line, tax), weights, i) == 0;
      assert line.credits[i] in line.credits;
    } else {
      if line.tax > 0 { RoundDivShare(credited, line.tax - tax, line.tax); }
      PieceWithinWeight(KeptCredit(line, tax), weights, i);
    }
  }

  // ─── The memo's net and tax ───────────────────────────────────────────────

  datatype Split = Split(gross: int, net: int, tax: int)

  datatype Excess = MemoExceedsReduction

  /** A memo's net and tax, in the ratio of the reduction's; all of both when it carries all of it. */
  function SplitCreditMemo(memo: int, reductionNet: int, reductionGross: int): Result<Split, Excess> {
    if memo <= 0 || reductionGross <= 0 then Ok(Split(0, 0, 0))
    else if memo > reductionGross then Refused(MemoExceedsReduction)
    else
      var net := if memo == reductionGross then reductionNet else RoundDiv(reductionNet * memo, reductionGross);
      Ok(Split(memo, net, memo - net))
  }

  /** The other part of the split: what is left of the reduction's net and tax for the schedule. */
  function ScheduleShare(scheduleReduction: int, creditMemo: int, reductionNet: int): Result<Split, Excess> {
    var memo := SplitCreditMemo(creditMemo, reductionNet, scheduleReduction + creditMemo);
    if memo.Refused? then Refused(MemoExceedsReduction)
    else
      var net := reductionNet - memo.value.net;
      Ok(Split(scheduleReduction, net, scheduleReduction - net))
  }

  predicate Parts(split: Split) {
    split.gross == split.net + split.tax && split.net >= 0 && split.tax >= 0
  }

  /** The rounded net of a part of a reduction leaves room for its tax, and for the other part's net and tax. */
  lemma SplitRoom(net: int, memo: int, gross: int)
    requires 0 <= net <= gross && 0 < memo < gross
    ensures var part := RoundDiv(net * memo, gross);
            0 <= part <= net && part <= memo && net - part <= gross - memo
  {
    RoundDivShare(net, memo, gross);
    assert net * memo == memo * net;
    RoundDivShare(memo, net, gross);
    CrossRoom(net, memo, gross);
    RoundDivMonotone((net + memo - gross) * gross, net * memo, gross);
    RoundDivExact(net + memo - gross, gross);
  }

  lemma CrossRoom(net: int, memo: int, gross: int)
    requires net <= gross && memo <= gross
    ensures (net + memo - gross) * gross <= net * memo
  {
    assert (gross - net) * (gross - memo) >= 0;
    assert (gross - net) * (gross - memo) == gross * gross - gross * memo - net * gross + net * memo;
    assert (net + memo - gross) * gross == net * gross + memo * gross - gross * gross;
    assert memo * gross == gross * memo;
  }

  /** Whatever the ratio and the rounding, the stored pair gives back the planned split: the memo's part and the
      schedule's part are non-negative and add up to the reduction's own net and tax. */
  lemma SplitRecombines(scheduleReduction: int, creditMemo: int, net: int)
    requires scheduleReduction >= 0 && creditMemo >= 0 && 0 <= net <= scheduleReduction + creditMemo
    ensures var memo := SplitCreditMemo(creditMemo, net, scheduleReduction + creditMemo);
            var share := ScheduleShare(scheduleReduction, creditMemo, net);
            && memo.Ok? && share.Ok?
            && Parts(memo.value) && Parts(share.value)
            && memo.value.gross == creditMemo && share.value.gross == scheduleReduction
            && memo.value.net + share.value.net == net
            && memo.value.tax + share.value.tax == scheduleReduction + creditMemo - net
  {
    if 0 < creditMemo < scheduleReduction + creditMemo {
      SplitRoom(net, creditMemo, scheduleReduction + creditMemo);
    }
  }

  /** The split is fair: the memo's net is the reduction's net in proportion, to the cent. */
  lemma SplitProportion(memo: int, net: int, gross: int)
    requires 0 < memo <= gross
    ensures SplitCreditMemo(memo, net, gross).Ok?
    ensures IsRounded(SplitCreditMemo(memo, net, gross).value.net, net * memo, gross)
  {
    if memo == gross {
      RoundDivExact(net, gross);
    }
  }

  // ─── The memo's entry ─────────────────────────────────────────────────────

  datatype NoEntry = NothingToPost | NoTaxAccount

  datatype MemoInput = MemoInput(
    split: Split, effective: int, receivable: nat, deferred: nat, credits: seq<Credit>, dimensions: multiset<(nat, nat)>)

  /** One debit per tax account. */
  function TaxLines(credits: seq<Credit>, dimensions: multiset<(nat, nat)>): (lines: seq<Line>)
    ensures |lines| == |credits|
  {
    seq(|credits|, i requires 0 <= i < |credits| => Line(Side(credits[i].account, dimensions), credits[i].amount, 0))
  }

  /** Each tax account's share of the memo's tax, the accounts that have none left out. */
  function TaxShares(input: MemoInput): seq<Credit> {
    NonZero(WithAmounts(input.credits, Pieces(input.split.tax, AmountsOf(input.credits))))
  }

  function EntryOf(input: MemoInput): Result<Entry, NoEntry> {
    var credited := Sum(AmountsOf(input.credits));
    if input.split.gross <= 0 then Refused(NothingToPost)
    else if input.split.tax > 0 && credited == 0 then Refused(NoTaxAccount)
    else
      var net := if input.split.net > 0 then [Line(Side(input.deferred, input.dimensions), input.split.net, 0)] else [];
      var tax := TaxLines(TaxShares(input), input.dimensions);
      Ok(Draft(input.effective, net + tax + [Line(Side(input.receivable, input.dimensions), 0, input.split.gross)]))
  }

  /** Deferred revenue and the tax accounts debited, the receivable credited for the whole. */
  method CreditMemoEntry(input: MemoInput) returns (result: Result<Entry, NoEntry>)
    ensures result == EntryOf(input)
  {
    var split := input.split;
    if split.gross <= 0 { return Refused(NothingToPost); }
    ghost var weights := AmountsOf(input.credits);
    ghost var shares := WithAmounts(input.credits, Pieces(split.tax, weights));
    var credited := Sum(AmountsOf(input.credits));
    if split.tax > 0 && credited == 0 { return Refused(NoTaxAccount); }
    var through, given := 0, 0;
    var taxLines: seq<Line> := [];
    FirstUpTo(split.tax, weights);
    for i := 0 to |input.credits|
      invariant through == Sum(weights[..i]) && given == UpTo(split.tax, weights, i)
      invariant taxLines == TaxLines(NonZero(shares[..i]), input.dimensions)
    {
      SumPrefix(weights, i);
      NonZeroSnoc(shares, i);
      var credit := input.credits[i];
      through := through + credit.amount;
      var upTo := if credited == 0 then 0 else RoundDiv(split.tax * through, credited);
      var piece := upTo - given;
      given := upTo;
      if piece == 0 { continue; }
      taxLines := taxLines + [Line(Side(credit.account, input.dimensions), piece, 0)];
    }
    assert shares[..|input.credits|] == shares;
    var net := if split.net > 0 then [Line(Side(input.deferred, input.dimensions), split.net, 0)] else [];
    result := Ok(Draft(input.effective, net + taxLines + [Line(Side(input.receivable, input.dimensions), 0, split.gross)]));
  }

  function Debits(lines: seq<Line>): int { if lines == [] then 0 else lines[0].debit + Debits(lines[1..]) }

  function CreditsOf(lines: seq<Line>): int { if lines == [] then 0 else lines[0].credit + CreditsOf(lines[1..]) }

  lemma {:induction false} LinesConcat(a: seq<Line>, b: seq<Line>)
    ensures Debits(a + b) == Debits(a) + Debits(b) && CreditsOf(a + b) == CreditsOf(a) + CreditsOf(b)
  {
    if a == [] {
      assert a + b == b;
    } else {
      LinesConcat(a[1..], b);
      assert (a + b)[1..] == a[1..] + b;
    }
  }

  lemma {:induction false} TaxLinesSum(credits: seq<Credit>, dims: multiset<(nat, nat)>)
    ensures Debits(TaxLines(credits, dims)) == Sum(AmountsOf(credits)) && CreditsOf(TaxLines(credits, dims)) == 0
  {
    if credits != [] {
      TaxLinesSum(credits[1..], dims);
      assert TaxLines(credits, dims)[1..] == TaxLines(credits[1..], dims);
      assert AmountsOf(credits)[1..] == AmountsOf(credits[1..]);
    }
  }

  lemma SharesSum(input: MemoInput)
    ensures Sum(AmountsOf(TaxShares(input))) == if Sum(AmountsOf(input.credits)) == 0 then 0 else input.split.tax
  {
    var weights := AmountsOf(input.credits);
    PiecesSum(input.split.tax, weights);
    NonZeroSum(WithAmounts(input.credits, Pieces(input.split.tax, weights)));
    assert AmountsOf(WithAmounts(input.credits, Pieces(input.split.tax, weights))) == Pieces(input.split.tax, weights);
  }

  /** Whatever the list of tax accounts, of either sign, the debits to them come to just the memo's tax. */
  lemma TaxDebits(input: MemoInput)
    requires EntryOf(input).Ok? && input.split.tax >= 0
    ensures Debits(TaxLines(TaxShares(input), input.dimensions)) == input.split.tax
  {
    SharesSum(input);
    TaxLinesSum(TaxShares(input), input.dimensions);
  }

  lemma EntryTotals(input: MemoInput)
    requires EntryOf(input).Ok?
    ensures var lines := EntryOf(input).value.lines;
            && CreditsOf(lines) == input.split.gross
            && Debits(lines) == Max(input.split.net, 0) + Sum(AmountsOf(TaxShares(input)))
  {
    var tax := TaxLines(TaxShares(input), input.dimensions);
    var net := if input.split.net > 0 then [Line(Side(input.deferred, input.dimensions), input.split.net, 0)] else [];
    var last := [Line(Side(input.receivable, input.dimensions), 0, input.split.gross)];
    TaxLinesSum(TaxShares(input), input.dimensions);
    LinesConcat(net + tax, last);
    LinesConcat(net, tax);
    assert net != [] ==> net[1..] == [];
    assert last[1..] == [];
  }

  predicate Balanced(lines: seq<Line>) { Debits(lines) == CreditsOf(lines) }

  /** A memo's entry balances exactly when its net is not negative and its tax not taken from a list that
      credits none: every split of a reduction is such a memo. */
  lemma EntryBalancesExactlyWhen(input: MemoInput)
    requires EntryOf(input).Ok? && input.split.gross == input.split.net + input.split.tax
    ensures Balanced(EntryOf(input).value.lines)
       <==> input.split.net >= 0 && (input.split.tax >= 0 || Sum(AmountsOf(input.credits)) != 0)
  {
    EntryTotals(input);
    SharesSum(input);
  }

  // ─── The memo's number ────────────────────────────────────────────────────

  /** How `Number` reads a string. Any reading will do that reads a printed whole number as that number. */
  type Reader = string -> Option<int>

  ghost predicate ReadsDecimals(reader: Reader) { forall n: nat :: reader(Print(n)) == Some(n) }

  /** The highest sequence used by a document number of this prefix, zero when none is. */
  function HighestUsed(prefix: string, existing: seq<string>, reader: Reader): (top: nat) {
    if existing == [] then 0
    else
      var rest := HighestUsed(prefix, existing[1..], reader);
      if existing[0] == "" || !(prefix <= existing[0]) then rest
      else
        var sequence := reader(existing[0][|prefix|..]);
        if sequence.Some? && sequence.value > rest then sequence.value else rest
  }

  function CreditMemoNumber(orderNumber: string, existing: seq<string>, reader: Reader): string {
    var prefix := orderNumber + "-CM";
    prefix + Print(HighestUsed(prefix, existing, reader) + 1)
  }

  lemma {:induction false} HighestCovers(prefix: string, existing: seq<string>, reader: Reader, n: nat)
    requires ReadsDecimals(reader) && prefix != [] && prefix + Print(n) in existing
    ensures n <= HighestUsed(prefix, existing, reader)
  {
    var number := prefix + Print(n);
    if existing[0] == number {
      assert existing[0][|prefix|..] == Print(n);
      assert prefix <= existing[0];
      assert reader(Print(n)) == Some(n);
    } else {
      HighestCovers(prefix, existing[1..], reader, n);
    }
  }

  /** The next memo's number is not one the order already used. */
  lemma NumberIsFresh(orderNumber: string, existing: seq<string>, reader: Reader)
    requires ReadsDecimals(reader)
    ensures CreditMemoNumber(orderNumber, existing, reader) !in existing
  {
    var prefix := orderNumber + "-CM";
    var next := HighestUsed(prefix, existing, reader) + 1;
    if CreditMemoNumber(orderNumber, existing, reader) in existing {
      HighestCovers(prefix, existing, reader, next);
    }
  }
}
