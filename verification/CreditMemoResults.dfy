/** What the credit memo's parts answer, written out: the lowered line and each of its tax credits, the memo's split,
    what its entry posts to every side, the number it takes, and exactly when each refuses. */
module CreditMemoResults {
  import opened Outcomes
  import opened Rounding
  import opened Recognition
  import opened RecognitionProofs
  import opened Decimals
  import opened CreditMemo

  // ─── Sharing out in proportion ────────────────────────────────────────────

  /** `pieces` shares `total` out by `weights`: every run from the first has its exact share, to the cent. */
  predicate SharesOut(total: int, weights: seq<int>, pieces: seq<int>) {
    && |pieces| == |weights|
    && forall i :: 0 <= i <= |weights| ==>
         if Sum(weights) == 0 then Sum(pieces[..i]) == 0 else IsRounded(Sum(pieces[..i]), total * Sum(weights[..i]), Sum(weights))
  }

  lemma PiecesShareOut(total: int, weights: seq<int>)
    ensures SharesOut(total, weights, Pieces(total, weights))
  {
    var pieces := Pieces(total, weights);
    forall i | 0 <= i <= |weights|
      ensures if Sum(weights) == 0 then Sum(pieces[..i]) == 0 else IsRounded(Sum(pieces[..i]), total * Sum(weights[..i]), Sum(weights))
    {
      PiecesPrefix(total, weights, i);
    }
  }

  /** The accounts in order, each with its piece, and those without one left out. */
  function OnAccounts(credits: seq<Credit>, pieces: seq<int>): seq<Credit>
    requires |credits| == |pieces|
  {
    if credits == [] then []
    else if pieces[0] == 0 then OnAccounts(credits[1..], pieces[1..])
    else [Credit(credits[0].account, pieces[0])] + OnAccounts(credits[1..], pieces[1..])
  }

  lemma {:induction false} NonZeroIs(credits: seq<Credit>, pieces: seq<int>)
    requires |credits| == |pieces|
    ensures NonZero(WithAmounts(credits, pieces)) == OnAccounts(credits, pieces)
  {
    if credits != [] {
      NonZeroIs(credits[1..], pieces[1..]);
      assert WithAmounts(credits, pieces)[1..] == WithAmounts(credits[1..], pieces[1..]);
    }
  }

  // ─── A lowered line ───────────────────────────────────────────────────────

  predicate Reduces(reductions: seq<LineReduction>, line: nat) { exists r :: r in reductions && r.line == line }

  /** What the reductions of a line come to, before tax and of tax. */
  function NetFor(reductions: seq<LineReduction>, line: nat): int {
    if reductions == [] then 0 else (if reductions[0].line == line then reductions[0].net else 0) + NetFor(reductions[1..], line)
  }

  function TaxFor(reductions: seq<LineReduction>, line: nat): int {
    if reductions == [] then 0 else (if reductions[0].line == line then reductions[0].tax else 0) + TaxFor(reductions[1..], line)
  }

  lemma {:induction false} OfIs(reductions: seq<LineReduction>, line: nat)
    ensures NetOf(Of(reductions, line)) == NetFor(reductions, line) && TaxOf(Of(reductions, line)) == TaxFor(reductions, line)
    ensures Of(reductions, line) != [] <==> Reduces(reductions, line)
  {
    if reductions != [] {
      OfIs(reductions[1..], line);
      var rest := Of(reductions[1..], line);
      if reductions[0].line == line {
        assert reductions[0] in reductions && ([reductions[0]] + rest)[1..] == rest;
      } else {
        assert Of(reductions, line) == rest;
        assert forall r :: r in reductions <==> r == reductions[0] || r in reductions[1..];
      }
    }
  }

  /** A line that was reduced: net and gross fall by the reductions' net, tax by their tax, and its credits are cut to
      what is kept of them, each account in its place with its share. */
  ghost predicate LoweredTo(line: SlicedLine, reductions: seq<LineReduction>, after: SlicedLine, kept: int, pieces: seq<int>) {
    var net, tax, credited := NetFor(reductions, line.id), TaxFor(reductions, line.id), Sum(AmountsOf(line.credits));
    && after.id == line.id && after.net == line.net - net && after.tax == line.tax - tax && after.gross == line.gross - net
    && (if line.tax == 0 then kept == credited else IsRounded(kept, credited * (line.tax - tax), line.tax))
    && SharesOut(kept, AmountsOf(line.credits), pieces)
    && after.credits == OnAccounts(line.credits, pieces)
  }

  /** Lowering a line: as it was when no reduction is its own, refused when they take more than it has, and otherwise
      lowered by just them. */
  lemma LoweredIs(line: SlicedLine, reductions: seq<LineReduction>) returns (kept: int, pieces: seq<int>)
    ensures Lowered(line, reductions).Refused?
       <==> Reduces(reductions, line.id) && (NetFor(reductions, line.id) > line.net || TaxFor(reductions, line.id) > line.tax)
    ensures !Reduces(reductions, line.id) ==> Lowered(line, reductions) == Ok(line)
    ensures Reduces(reductions, line.id) && Lowered(line, reductions).Ok? ==>
              LoweredTo(line, reductions, Lowered(line, reductions).value, kept, pieces)
  {
    OfIs(reductions, line.id);
    kept := KeptCredit(line, TaxFor(reductions, line.id));
    pieces := Pieces(kept, AmountsOf(line.credits));
    PiecesShareOut(kept, AmountsOf(line.credits));
    NonZeroIs(line.credits, pieces);
  }

  // ─── The split ────────────────────────────────────────────────────────────

  /** A memo's split: nothing of nothing, never more than the reduction, and its net in proportion to the cent. */
  lemma SplitIs(memo: int, net: int, gross: int)
    ensures SplitCreditMemo(memo, net, gross).Refused? <==> memo > 0 && gross > 0 && memo > gross
    ensures memo <= 0 || gross <= 0 ==> SplitCreditMemo(memo, net, gross) == Ok(Split(0, 0, 0))
    ensures 0 < memo <= gross ==>
              var s := SplitCreditMemo(memo, net, gross).value;
              s.gross == memo && s.net + s.tax == memo && IsRounded(s.net, net * memo, gross)
  {
    if 0 < memo <= gross { SplitProportion(memo, net, gross); }
  }

  // ─── The entry ────────────────────────────────────────────────────────────

  /** What the pieces debit to a side. */
  function TaxOn(credits: seq<Credit>, pieces: seq<int>, dims: multiset<(nat, nat)>, side: Side): int
    requires |credits| == |pieces|
  {
    if credits == [] then 0
    else (if Side(credits[0].account, dims) == side then pieces[0] else 0) + TaxOn(credits[1..], pieces[1..], dims, side)
  }

  lemma {:induction false} TaxLinesNet(credits: seq<Credit>, pieces: seq<int>, dims: multiset<(nat, nat)>, side: Side)
    requires |credits| == |pieces|
    ensures LinesNet(TaxLines(OnAccounts(credits, pieces), dims), side) == -TaxOn(credits, pieces, dims, side)
    ensures forall l :: l in TaxLines(OnAccounts(credits, pieces), dims) ==> l.credit == 0 && l.debit != 0
  {
    if credits != [] {
      TaxLinesNet(credits[1..], pieces[1..], dims, side);
      var rest := OnAccounts(credits[1..], pieces[1..]);
      if pieces[0] != 0 {
        var all := TaxLines(OnAccounts(credits, pieces), dims);
        assert all[1..] == TaxLines(rest, dims);
        assert all[0] == Line(Side(credits[0].account, dims), pieces[0], 0);
        assert all == [all[0]] + all[1..];
      }
    }
  }

  /** What a memo's entry posts: on the effective day, its gross credited to the receivable in the last line, its net
      debited to deferred revenue, and its tax debited to the tax accounts by their shares; nothing to any other side. */
  ghost predicate Posts(input: MemoInput, entry: Entry, pieces: seq<int>) {
    var dims, split := input.dimensions, input.split;
    && entry.day == input.effective && entry.pending && !entry.batched
    && SharesOut(split.tax, AmountsOf(input.credits), pieces)
    && (forall side ::
          LinesNet(entry.lines, side)
            == (if side == Side(input.receivable, dims) then split.gross else 0)
               - (if side == Side(input.deferred, dims) then Max(split.net, 0) else 0)
               - TaxOn(input.credits, pieces, dims, side))
    && entry.lines != [] && entry.lines[|entry.lines| - 1] == Line(Side(input.receivable, dims), 0, split.gross)
    && forall k :: 0 <= k < |entry.lines| - 1 ==> entry.lines[k].credit == 0 && entry.lines[k].debit != 0
  }

  lemma EntryIs(input: MemoInput) returns (pieces: seq<int>)
    ensures EntryOf(input) == Refused(NothingToPost) <==> input.split.gross <= 0
    ensures EntryOf(input) == Refused(NoTaxAccount)
       <==> input.split.gross > 0 && input.split.tax > 0 && Sum(AmountsOf(input.credits)) == 0
    ensures EntryOf(input).Ok? ==> Posts(input, EntryOf(input).value, pieces)
  {
    pieces := Pieces(input.split.tax, AmountsOf(input.credits));
    if EntryOf(input).Ok? {
      PiecesShareOut(input.split.tax, AmountsOf(input.credits));
      NonZeroIs(input.credits, pieces);
      var entry, dims := EntryOf(input).value, input.dimensions;
      var net := if input.split.net > 0 then [Line(Side(input.deferred, dims), input.split.net, 0)] else [];
      var tax := TaxLines(OnAccounts(input.credits, pieces), dims);
      var last := [Line(Side(input.receivable, dims), 0, input.split.gross)];
      assert entry == Draft(input.effective, net + tax + last);
      TaxLinesNet(input.credits, pieces, dims, Side(0, dims));
      forall side
        ensures LinesNet(entry.lines, side)
             == (if side == Side(input.receivable, dims) then input.split.gross else 0)
                - (if side == Side(input.deferred, dims) then Max(input.split.net, 0) else 0)
                - TaxOn(input.credits, pieces, dims, side)
      {
        TaxLinesNet(input.credits, pieces, dims, side);
        LinesNetConcat(net + tax, last, side);
        LinesNetConcat(net, tax, side);
        assert last[1..] == [] && (net != [] ==> net[1..] == []);
      }
      forall k | 0 <= k < |entry.lines| - 1 ensures entry.lines[k].credit == 0 && entry.lines[k].debit != 0 {
        assert k >= |net| ==> entry.lines[k] == tax[k - |net|] && tax[k - |net|] in tax;
      }
    }
  }

  // ─── The number ───────────────────────────────────────────────────────────

  /** A memo's document number: the order's, and the place it takes among its memos. */
  predicate Uses(s: string, orderNumber: string, reader: Reader, n: nat) {
    orderNumber + "-CM" <= s && n > 0 && reader(s[|orderNumber + "-CM"|..]) == Some(n)
  }

  lemma {:induction false} HighestIs(orderNumber: string, existing: seq<string>, reader: Reader)
    ensures var top := HighestUsed(orderNumber + "-CM", existing, reader);
            && (forall s, n: nat :: s in existing && Uses(s, orderNumber, reader, n) ==> n <= top)
            && (top > 0 ==> exists s :: s in existing && Uses(s, orderNumber, reader, top))
  {
    if existing != [] {
      HighestIs(orderNumber, existing[1..], reader);
      assert existing[0] in existing && forall s :: s in existing <==> s == existing[0] || s in existing[1..];
    }
  }

  /** The next number is one past the highest the order has used, or the first. */
  lemma NumberIs(orderNumber: string, existing: seq<string>, reader: Reader) returns (top: nat)
    ensures CreditMemoNumber(orderNumber, existing, reader) == orderNumber + "-CM" + Print(top + 1)
    ensures forall s, n: nat :: s in existing && Uses(s, orderNumber, reader, n) ==> n <= top
    ensures top > 0 ==> exists s :: s in existing && Uses(s, orderNumber, reader, top)
  {
    HighestIs(orderNumber, existing, reader);
    top := HighestUsed(orderNumber + "-CM", existing, reader);
  }
}
