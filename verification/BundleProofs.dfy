/** Bundle arithmetic: the split is exact and fair and the only one that is, a ripple spares hand edits, and a
    component follows its bundle line until someone sets it. */
module BundleProofs {
  import opened Outcomes
  import opened Rounding
  import opened Sorting
  import opened BundleBehavior

  // ─── The exact split ──────────────────────────────────────────────────────

  lemma {:induction false} SumScaled(s: seq<int>, k: int, t: seq<int>)
    requires |s| == |t| && forall i :: 0 <= i < |s| ==> t[i] == k * s[i]
    ensures Sum(t) == k * Sum(s)
  {
    if s != [] {
      SumScaled(s[1..], k, t[1..]);
      Distribute(k, s[0], Sum(s[1..]));
    }
  }

  function Zeros(n: nat): (z: seq<int>)
    ensures |z| == n && forall i :: 0 <= i < n ==> z[i] == 0
  {
    seq(n, _ => 0)
  }

  lemma {:induction false} ZerosSum(n: nat)
    ensures Sum(Zeros(n)) == 0
  {
    if n > 0 {
      ZerosSum(n - 1);
      assert Zeros(n)[1..] == Zeros(n - 1);
    }
  }

  /** Amounts of at most `top`, none outside the chosen places, come to at most `top` a place. */
  lemma SumWithin(s: seq<int>, chosen: seq<int>, top: int)
    requires InRange(chosen, |s|) && top >= 0
    requires forall i :: 0 <= i < |s| ==> s[i] <= top && (s[i] > 0 ==> i in chosen)
    ensures Sum(s) <= top * |chosen|
  {
    var marks := Bumped(Zeros(|s|), chosen);
    var caps := seq(|s|, i requires 0 <= i < |s| => top * marks[i]);
    BumpedSum(Zeros(|s|), chosen);
    ZerosSum(|s|);
    SumScaled(marks, top, caps);
    forall i | 0 <= i < |s| ensures s[i] <= caps[i] {
      BumpedAt(Zeros(|s|), chosen, i);
      if s[i] > 0 {
        assert i in multiset(chosen);
        MulMonotone(top, 1, marks[i]);
      } else {
        MulMonotone(top, 0, marks[i]);
      }
    }
    SumMonotone(s, caps);
  }

  lemma OrderCovers(rems: seq<int>, i: nat) returns (k: nat)
    requires i < |rems|
    ensures k < |Order(rems)| && Order(rems)[k] == i
  {
    OrderIsPermutation(rems);
    assert Indices(|rems|)[i] == i;
    assert i in multiset(Indices(|rems|));
    assert i in Order(rems);
    k :| 0 <= k < |Order(rems)| && Order(rems)[k] == i;
  }

  lemma {:induction false} IndexOnce(n: nat, i: int)
    ensures multiset(Indices(n))[i] == if 0 <= i < n then 1 else 0
  {
    if n > 0 {
      IndexOnce(n - 1, i);
      assert Indices(n) == Indices(n - 1) + [n - 1];
    }
  }

  lemma ChosenOnce(rems: seq<int>, n: nat, i: int)
    requires n <= |Order(rems)|
    ensures multiset(Order(rems)[..n])[i] <= 1
  {
    OrderIsPermutation(rems);
    IndexOnce(|rems|, i);
    assert Order(rems) == Order(rems)[..n] + Order(rems)[n..];
  }

  lemma OrderDescends(rems: seq<int>, k: nat, l: nat)
    requires k <= l < |Order(rems)|
    ensures InRange(Order(rems), |rems|) && rems[Order(rems)[k]] >= rems[Order(rems)[l]]
    ensures k == l || CutMore(rems, Order(rems)[k], Order(rems)[l])
  {
    OrderIsPermutation(rems);
    OrderSorted(rems);
  }

  /** Only a share that was cut at all gets a penny. */
  lemma FavouredWereCut(total: int, weights: seq<int>, k: nat)
    requires weights != [] && Sum(weights) > 0 && k < |Favoured(total, weights)|
    ensures Remainders(total, weights, Sum(weights))[Favoured(total, weights)[k]] > 0
  {
    var sum := Sum(weights);
    var rems := Remainders(total, weights, sum);
    var order, left := Order(rems), |Favoured(total, weights)|;
    LeftoverBounds(total, weights);
    OrderIsPermutation(rems);
    assert order[k] == Favoured(total, weights)[k];
    if rems[order[k]] <= 0 {
      forall i | 0 <= i < |rems| && rems[i] > 0 ensures i in order[..k] {
        var l := OrderCovers(rems, i);
        if l >= k { OrderDescends(rems, k, l); }
        assert order[..k][l] == i;
      }
      SumWithin(rems, order[..k], sum - 1);
      RemainderSum(total, weights, sum);
      LeftoverIs(total, sum, Sum(Floors(total, weights, sum)));
      TooFewCut(sum, left, k);
    }
  }

  lemma TooFewCut(sum: int, left: int, k: nat)
    requires sum > 0 && k < left
    ensures sum * left > (sum - 1) * k
  {
    MulMonotone(sum, k, left);
    assert (sum - 1) * k == sum * k - k;
    assert sum * left == sum * (left - k) + sum * k;
    MulGrows(sum, left - k);
  }

  lemma FloorOrCeiling(share: int, extra: nat, num: int, den: int)
    requires den > 0 && IsFloor(share, num, den) && extra <= 1 && (extra == 1 ==> den * share < num)
    ensures WithinOne(share + extra, num, den)
  {
    assert den * (share + extra) == den * share + den * extra;
  }

  /** A split: whole, each part the floor or the ceiling of its exact share, and the pennies given first to the
      parts that were cut by the most. */
  ghost predicate FairSplit(total: int, weights: seq<int>, parts: seq<int>)
    requires Sum(weights) > 0
  {
    && |parts| == |weights| && Sum(parts) == total
    && (forall i :: 0 <= i < |parts| ==> WithinOne(parts[i], total * weights[i], Sum(weights)))
    && forall i, j :: 0 <= i < |parts| && 0 <= j < |parts| && GotPenny(total, weights, parts, i) && !GotPenny(total, weights, parts, j)
         ==> CutMore(Remainders(total, weights, Sum(weights)), i, j)
  }

  predicate GotPenny(total: int, weights: seq<int>, parts: seq<int>, i: int)
    requires Sum(weights) > 0
  {
    0 <= i < |parts| == |weights| && parts[i] > FloorDiv(total * weights[i], Sum(weights))
  }

  lemma SplitCount(total: int, weights: seq<int>, i: nat)
    requires weights != [] && Sum(weights) > 0 && i < |weights|
    ensures SplitOf(total, weights)[i]
         == FloorDiv(total * weights[i], Sum(weights)) + if i in Favoured(total, weights) then 1 else 0
  {
    hide Order, Remainders, FloorDiv;
    var sum, chosen := Sum(weights), Favoured(total, weights);
    LeftoverBounds(total, weights);
    OrderIsPermutation(Remainders(total, weights, sum));
    BumpedAt(Floors(total, weights, sum), chosen, i);
    ChosenOnce(Remainders(total, weights, sum), |chosen|, i);
    assert i in chosen <==> i in multiset(chosen);
  }

  lemma FavouredCut(total: int, weights: seq<int>, i: nat)
    requires weights != [] && Sum(weights) > 0 && i < |weights| && i in Favoured(total, weights)
    ensures Remainder(total * weights[i], Sum(weights)) > 0
  {
    hide Favoured;
    var chosen := Favoured(total, weights);
    var k :| 0 <= k < |chosen| && chosen[k] == i;
    FavouredWereCut(total, weights, k);
  }

  lemma SplitAt(total: int, weights: seq<int>, i: nat)
    requires weights != [] && Sum(weights) > 0 && i < |weights|
    ensures SplitOf(total, weights)[i]
         == FloorDiv(total * weights[i], Sum(weights)) + if i in Favoured(total, weights) then 1 else 0
    ensures WithinOne(SplitOf(total, weights)[i], total * weights[i], Sum(weights))
  {
    hide SplitOf, Favoured, Sum, WithinOne;
    SplitCount(total, weights, i);
    if i in Favoured(total, weights) { FavouredCut(total, weights, i); }
    FloorOrCeiling(FloorDiv(total * weights[i], Sum(weights)), if i in Favoured(total, weights) then 1 else 0,
                   total * weights[i], Sum(weights));
  }

  /** The pennies go to those cut by the most, and of two cut by as much to the earlier. */
  lemma FavouredFirst(total: int, weights: seq<int>, i: nat, j: nat)
    requires weights != [] && Sum(weights) > 0 && i < |weights| && j < |weights|
    requires i in Favoured(total, weights) && j !in Favoured(total, weights)
    ensures CutMore(Remainders(total, weights, Sum(weights)), i, j)
  {
    var rems, chosen := Remainders(total, weights, Sum(weights)), Favoured(total, weights);
    LeftoverBounds(total, weights);
    OrderIsPermutation(rems);
    hide Order, Remainders;
    var k :| 0 <= k < |chosen| && chosen[k] == i;
    var l := OrderCovers(rems, j);
    OrderDescends(rems, k, l);
  }

  lemma FairSum(total: int, weights: seq<int>)
    requires weights != [] && Sum(weights) > 0
    ensures Sum(SplitOf(total, weights)) == total
  {
    hide Order, Remainders, Bumped, Floors;
    LeftoverBounds(total, weights);
    OrderIsPermutation(Remainders(total, weights, Sum(weights)));
    BumpedSum(Floors(total, weights, Sum(weights)), Favoured(total, weights));
  }

  /** `SplitExactly` always sums to the total, and with a positive total weight splits it fairly. */
  lemma SplitIsFair(total: int, weights: seq<int>)
    requires Sum(weights) > 0
    ensures FairSplit(total, weights, SplitOf(total, weights))
  {
    hide SplitOf, Favoured, Remainders, CutMore, WithinOne;
    var parts := SplitOf(total, weights);
    assert weights != [];
    FairSum(total, weights);
    forall i | 0 <= i < |weights|
      ensures WithinOne(parts[i], total * weights[i], Sum(weights))
      ensures GotPenny(total, weights, parts, i) <==> i in Favoured(total, weights)
    {
      SplitAt(total, weights, i);
    }
    forall i, j | 0 <= i < |parts| && 0 <= j < |parts| && GotPenny(total, weights, parts, i) && !GotPenny(total, weights, parts, j)
      ensures CutMore(Remainders(total, weights, Sum(weights)), i, j)
    {
      FavouredFirst(total, weights, i, j);
    }
  }

  lemma PartIs(part: int, num: int, den: int)
    requires den > 0 && WithinOne(part, num, den)
    ensures FloorDiv(num, den) <= part <= FloorDiv(num, den) + 1
  {
    var floor := FloorDiv(num, den);
    assert den * (part - floor) == den * part - den * floor && den * (floor - part) == den * floor - den * part;
    assert den * (part - floor - 1) == den * part - den * floor - den;
    if part < floor { MulGrows(den, floor - part); }
    if part > floor + 1 { MulGrows(den, part - floor - 1); }
  }

  lemma SomewhereLess(a: seq<int>, b: seq<int>, i: nat) returns (j: nat)
    requires |a| == |b| && i < |a| && a[i] > b[i] && Sum(a) == Sum(b)
    ensures j < |a| && a[j] < b[j]
  {
    if forall k :: 0 <= k < |a| ==> a[k] >= b[k] {
      SumMonotone(b, a[i := b[i]]);
      SumUpdate(a, i, b[i]);
      assert false;
    }
    j :| 0 <= j < |a| && a[j] < b[j];
  }

  lemma PennyFirst(total: int, weights: seq<int>, parts: seq<int>, i: nat, j: nat)
    requires Sum(weights) > 0 && FairSplit(total, weights, parts)
    requires i < |parts| && j < |parts| && GotPenny(total, weights, parts, i) && !GotPenny(total, weights, parts, j)
    ensures CutMore(Remainders(total, weights, Sum(weights)), i, j)
  {
  }

  lemma FairPartAtMost(total: int, weights: seq<int>, a: seq<int>, b: seq<int>, i: nat)
    requires Sum(weights) > 0 && FairSplit(total, weights, a) && FairSplit(total, weights, b) && i < |weights|
    ensures a[i] <= b[i]
  {
    if a[i] > b[i] {
      var j := SomewhereLess(a, b, i);
      PartIs(a[i], total * weights[i], Sum(weights));
      PartIs(b[i], total * weights[i], Sum(weights));
      PartIs(a[j], total * weights[j], Sum(weights));
      PartIs(b[j], total * weights[j], Sum(weights));
      PennyFirst(total, weights, a, i, j);
      PennyFirst(total, weights, b, j, i);
    }
  }

  /** No other split is fair: a fair split is the one `SplitExactly` returns. */
  lemma SplitExactlyWhen(total: int, weights: seq<int>, parts: seq<int>)
    requires Sum(weights) > 0
    ensures parts == SplitOf(total, weights) <==> FairSplit(total, weights, parts)
  {
    SplitIsFair(total, weights);
    if FairSplit(total, weights, parts) {
      forall i | 0 <= i < |parts| ensures parts[i] == SplitOf(total, weights)[i] {
        FairPartAtMost(total, weights, parts, SplitOf(total, weights), i);
        FairPartAtMost(total, weights, SplitOf(total, weights), parts, i);
      }
    }
  }

  lemma {:induction false} EvenSum(parts: seq<int>, base: int, extra: nat)
    requires extra <= |parts| && forall i :: 0 <= i < |parts| ==> parts[i] == if i < extra then base + 1 else base
    ensures Sum(parts) == base * |parts| + extra
  {
    if parts != [] {
      EvenSum(parts[1..], base, if extra > 0 then extra - 1 else 0);
      assert base * |parts| == base + base * (|parts| - 1);
    }
  }

  /** Whatever the weights, none of the total is lost and none invented. */
  lemma SplitSums(total: int, weights: seq<int>)
    requires weights != []
    ensures Sum(SplitOf(total, weights)) == total
  {
    if Sum(weights) > 0 {
      SplitIsFair(total, weights);
    } else {
      EvenExtras(total, |weights|);
      var base := FloorDiv(total, |weights|);
      EvenSum(SplitOf(total, weights), base, total - base * |weights|);
    }
  }

  lemma ZeroPart(part: int, sum: int)
    requires sum > 0 && WithinOne(part, 0, sum)
    ensures part == 0
  {
    assert sum * (-part) == -(sum * part);
    if part > 0 { MulGrows(sum, part); }
    if part < 0 { MulGrows(sum, -part); }
  }

  /** A weight of nothing gets nothing. */
  lemma ZeroWeightGetsNothing(total: int, weights: seq<int>, i: nat)
    requires Sum(weights) > 0 && i < |weights| && weights[i] == 0
    ensures SplitOf(total, weights)[i] == 0
  {
    hide SplitOf, WithinOne;
    SplitIsFair(total, weights);
    assert total * weights[i] == 0;
    ZeroPart(SplitOf(total, weights)[i], Sum(weights));
  }

  // ─── The allocation ───────────────────────────────────────────────────────

  lemma {:induction false} EvenWeightsSum(components: seq<Component>)
    ensures Sum(EvenWeights(components)) >= 0
    ensures AnyBundled(components) ==> Sum(EvenWeights(components)) > 0
  {
    SumNonNegative(EvenWeights(components));
    if AnyBundled(components) {
      var c :| c in components && c.bundled;
      var i :| 0 <= i < |components| && components[i] == c;
      assert EvenWeights(components)[i] == 1;
    }
  }

  /** A bundle with any bundled component allocates its whole price, and none of it to a component priced on
      its own. */
  lemma AllocationIsWhole(total: int, components: seq<Component>)
    requires components != []
    ensures Sum(SplitOf(total, AllocationWeights(components))) == total
    ensures AnyBundled(components) ==> Sum(AllocationWeights(components)) > 0
    ensures AnyBundled(components) ==>
              forall i :: 0 <= i < |components| && !components[i].bundled ==> SplitOf(total, AllocationWeights(components))[i] == 0
  {
    var weights := AllocationWeights(components);
    SplitSums(total, weights);
    EvenWeightsSum(components);
    forall i | AnyBundled(components) && 0 <= i < |components| && !components[i].bundled
      ensures SplitOf(total, weights)[i] == 0
    {
      ZeroWeightGetsNothing(total, weights, i);
    }
  }

  /** With no bundled component the price is split evenly over all of them, is not reported as split evenly, and
      no child takes any of it. */
  lemma UnbundledSplitUnused(line: LineFacts, components: seq<Component>, parts: seq<int>)
    requires components != [] && !AnyBundled(components) && |parts| == |components|
    ensures !AllocatesEvenly(components)
    ensures SplitOf(BundleTotal(line), AllocationWeights(components)) == EvenSplit(BundleTotal(line), |components|)
    ensures ChildrenOf(line, components, SplitOf(BundleTotal(line), AllocationWeights(components))) == ChildrenOf(line, components, parts)
  {
    var weights := AllocationWeights(components);
    forall i | 0 <= i < |components| ensures weights[i] == 0 && !components[i].bundled { assert components[i] in components; }
    SumZeros(weights);
  }

  lemma {:induction false} SumZeros(s: seq<int>)
    requires forall i :: 0 <= i < |s| ==> s[i] == 0
    ensures Sum(s) == 0
  {
    if s != [] { SumZeros(s[1..]); }
  }

  // ─── Quantity times unit price ────────────────────────────────────────────

  /** What a child's quantity and unit price come to, in ten-thousandths of a cent. */
  function Extended(child: PlannedChild): int { child.quantity * child.unitPrice }

  /** The shares of the bundled children whose quantity rounds to nothing: no unit price can carry them. */
  function LostShares(children: seq<PlannedChild>, components: seq<Component>, parts: seq<int>): int
    requires |children| == |components| == |parts|
  {
    if children == [] then 0
    else (if components[0].bundled && children[0].quantity <= 0 then parts[0] else 0)
         + LostShares(children[1..], components[1..], parts[1..])
  }

  function BundledExtended(children: seq<PlannedChild>, components: seq<Component>): int
    requires |children| == |components|
  {
    if children == [] then 0
    else (if components[0].bundled && children[0].quantity > 0 then Extended(children[0]) else 0)
         + BundledExtended(children[1..], components[1..])
  }

  function BundledUnits(children: seq<PlannedChild>, components: seq<Component>): int
    requires |children| == |components|
  {
    if children == [] then 0
    else (if components[0].bundled && children[0].quantity > 0 then children[0].quantity else 0)
         + BundledUnits(children[1..], components[1..])
  }

  /** `a` and `b`, in ten-thousandths of a cent, differ by at most half a cent for each of `units`. */
  predicate WithinHalfPerUnit(a: int, b: int, units: int) { -units <= 2 * (a - b) <= units }

  lemma OneChild(line: LineFacts, c: Component, part: int)
    requires c.bundled && ChildOf(line, c, part).quantity > 0
    ensures WithinHalfPerUnit(Extended(ChildOf(line, c, part)), part * UNIT, ChildOf(line, c, part).quantity)
    ensures ChildOf(line, c, part).quantity == UNIT ==> Extended(ChildOf(line, c, part)) == part * UNIT
  {
    var q := ChildOf(line, c, part).quantity;
    assert IsRounded(RoundDiv(part * UNIT, q), part * UNIT, q);
    if q == UNIT { RoundDivExact(part, UNIT); }
  }

  ghost predicate UnitsOfOne(children: seq<PlannedChild>, components: seq<Component>)
    requires |children| == |components|
  {
    forall i :: 0 <= i < |children| && components[i].bundled ==> children[i].quantity == UNIT
  }

  /** Parts of components priced on their own are nothing. */
  ghost predicate SharesBundledOnly(components: seq<Component>, parts: seq<int>)
    requires |components| == |parts|
  {
    forall i :: 0 <= i < |components| && !components[i].bundled ==> parts[i] == 0
  }

  lemma {:induction false} ChildrenWithin(line: LineFacts, components: seq<Component>, parts: seq<int>)
    requires |components| == |parts| && SharesBundledOnly(components, parts)
    ensures var children := ChildrenOf(line, components, parts);
            && WithinHalfPerUnit(BundledExtended(children, components),
                                 (Sum(parts) - LostShares(children, components, parts)) * UNIT,
                                 BundledUnits(children, components))
            && (UnitsOfOne(children, components) ==>
                  BundledExtended(children, components) == Sum(parts) * UNIT && LostShares(children, components, parts) == 0)
  {
    if components != [] {
      var children, rest := ChildrenOf(line, components, parts), ChildrenOf(line, components[1..], parts[1..]);
      assert children[1..] == rest;
      assert SharesBundledOnly(components[1..], parts[1..]);
      ChildrenWithin(line, components[1..], parts[1..]);
      assert UnitsOfOne(children, components) ==> UnitsOfOne(rest, components[1..]) by {
        assert forall i :: 0 <= i < |rest| ==> rest[i] == children[i + 1] && components[1..][i] == components[i + 1];
      }
      if components[0].bundled && children[0].quantity > 0 { OneChild(line, components[0], parts[0]); }
    }
  }

  /** The bundled children's quantity times unit price is within half a cent a unit of the bundle's price less
      any share lost to a quantity that rounds to nothing, and just the price when each quantity is one. */
  lemma ExpansionWorth(line: LineFacts, components: seq<Component>)
    requires ExpansionOf(line, components).Ok? && AnyBundled(components)
    ensures var children := ExpansionOf(line, components).value.children;
            var parts := SplitOf(BundleTotal(line), AllocationWeights(components));
            && WithinHalfPerUnit(BundledExtended(children, components),
                                 (BundleTotal(line) - LostShares(children, components, parts)) * UNIT,
                                 BundledUnits(children, components))
            && (UnitsOfOne(children, components) ==> BundledExtended(children, components) == BundleTotal(line) * UNIT)
  {
    hide SplitOf;
    AllocationIsWhole(BundleTotal(line), components);
    ChildrenWithin(line, components, SplitOf(BundleTotal(line), AllocationWeights(components)));
  }

  /** A component's quantity rounds to nothing exactly when the line asks for less than half of the smallest
      quantity a child can hold: its share of the price is then carried by no child. */
  lemma ShareLostExactlyWhen(line: LineFacts, c: Component, part: int)
    requires c.bundled && line.quantity > 0 && c.quantity > 0
    ensures ChildOf(line, c, part).quantity <= 0 <==> 2 * (line.quantity * c.quantity) < UNIT
    ensures ChildOf(line, c, part).quantity <= 0 ==> Extended(ChildOf(line, c, part)) == 0
  {
    var q := line.quantity * c.quantity;
    assert IsRounded(ChildQuantity(line.quantity, c.quantity), q, UNIT);
    MulMonotone(line.quantity, 1, c.quantity);
  }

  /** A ten-thousandth of a bundle at ten thousand is worth one, and its one component, of a ten-thousandth a bundle,
      carries none of it. */
  lemma WholePriceLost(product: nat)
    ensures var line, components := LineFacts(1, 1000000, false, false), [Component(product, 1, true, 1, None)];
            && ExpansionOf(line, components).Ok? && BundleTotal(line) == 100
            && BundledExtended(ExpansionOf(line, components).value.children, components) == 0
  {
    var line, c := LineFacts(1, 1000000, false, false), Component(product, 1, true, 1, None);
    RoundDivUnique(1000000, UNIT, 100);
    var children := ExpansionOf(line, [c]).value.children;
    ShareLostExactlyWhen(line, c, SplitOf(BundleTotal(line), AllocationWeights([c]))[0]);
    assert |children| == 1;
  }

  // ─── The ripple ───────────────────────────────────────────────────────────

  function ChangeFor(changes: seq<RippleChange>, id: nat): Option<int> {
    if changes == [] then None else if changes[0].id == id then Some(changes[0].to) else ChangeFor(changes[1..], id)
  }

  /** The children once a ripple's changes are written. */
  function Rippled(children: seq<RippleChild>, changes: seq<RippleChange>): (after: seq<RippleChild>)
    ensures |after| == |children|
  {
    seq(|children|, i requires 0 <= i < |children| =>
      var to := ChangeFor(changes, children[i].id);
      if to.Some? then children[i].(quantity := to.value) else children[i])
  }

  predicate DistinctChildren(children: seq<RippleChild>) {
    forall i, j :: 0 <= i < j < |children| ==> children[i].id != children[j].id
  }

  lemma {:induction false} ChangeIs(parent: int, children: seq<RippleChild>, i: nat)
    requires DistinctChildren(children) && i < |children|
    ensures ChangeFor(RippleOf(parent, children), children[i].id)
         == if Follows(parent, children[i]) then Some(ChildQuantity(parent, children[i].componentQuantity)) else None
    decreases children
  {
    var rest := RippleOf(parent, children[1..]);
    var own := RippleChange(children[0].id, children[0].quantity, ChildQuantity(parent, children[0].componentQuantity));
    assert Follows(parent, children[0]) ==> ([own] + rest)[1..] == rest;
    if i > 0 {
      assert children[1..][i - 1] == children[i];
      ChangeIs(parent, children[1..], i - 1);
    } else {
      NoChange(parent, children[1..], children[0].id);
    }
  }

  lemma {:induction false} NoChange(parent: int, children: seq<RippleChild>, id: nat)
    requires forall i :: 0 <= i < |children| ==> children[i].id != id
    ensures ChangeFor(RippleOf(parent, children), id) == None
  {
    if children != [] {
      NoChange(parent, children[1..], id);
      var rest := RippleOf(parent, children[1..]);
      if Follows(parent, children[0]) {
        var own := RippleChange(children[0].id, children[0].quantity, ChildQuantity(parent, children[0].componentQuantity));
        assert ([own] + rest)[1..] == rest;
      }
    }
  }

  lemma {:induction false} NoneFollow(parent: int, children: seq<RippleChild>)
    requires forall i :: 0 <= i < |children| ==> !Follows(parent, children[i])
    ensures RippleOf(parent, children) == []
  {
    if children != [] { NoneFollow(parent, children[1..]); }
  }

  /** Once a ripple is written every child not set by hand holds its share of the parent's quantity, one set by
      hand is as it was, and a second ripple has nothing to do. */
  lemma RippleReaches(parent: int, children: seq<RippleChild>)
    requires DistinctChildren(children)
    ensures var after := Rippled(children, RippleOf(parent, children));
            && (forall i :: 0 <= i < |children| ==>
                  after[i] == if children[i].overridden then children[i]
                              else children[i].(quantity := ChildQuantity(parent, children[i].componentQuantity)))
            && RippleOf(parent, after) == []
  {
    forall i | 0 <= i < |children| { ChangeIs(parent, children, i); }
    NoneFollow(parent, Rippled(children, RippleOf(parent, children)));
  }

  // ─── Inheritance ──────────────────────────────────────────────────────────

  lemma EveryField(f: Field)
    ensures f in FIELDS
  {
    assert FIELDS[0] == ShipToOrganization && FIELDS[1] == ShipToPerson && FIELDS[2] == ShipToAddress;
    assert FIELDS[3] == PeriodStart && FIELDS[4] == SubscriptionAction && FIELDS[5] == Renews;
    match f
    case ShipToOrganization =>
    case ShipToPerson =>
    case ShipToAddress =>
    case PeriodStart =>
    case SubscriptionAction =>
    case Renews =>
  }

  /** What a component holds once a refresh is applied to it. */
  function Refreshed(child: Fields, before: Fields, after: Fields): Fields {
    WithChanges(child, RefreshOf(child, before, after))
  }

  /** A field of a refreshed component. */
  lemma RefreshedAt(child: Fields, before: Fields, after: Fields, f: Field)
    ensures At(Refreshed(child, before, after), f)
         == if FieldFollows(child, before, after, f) then At(after, f) else At(child, f)
  {
    EveryField(f);
    match f
    case ShipToOrganization =>
    case ShipToPerson =>
    case ShipToAddress =>
    case PeriodStart =>
    case SubscriptionAction =>
    case Renews =>
  }

  // ─── Totals and renewals ──────────────────────────────────────────────────

  lemma {:induction false} MatchesAre(target: nat, products: seq<nat>, from: nat)
    requires from <= |products|
    ensures forall i :: i in Matches(target, products, from) <==> from <= i < |products| && products[i] == target
    ensures forall j, k :: 0 <= j < k < |Matches(target, products, from)|
              ==> Matches(target, products, from)[j] < Matches(target, products, from)[k]
    decreases |products| - from
  {
    if from < |products| {
      MatchesAre(target, products, from + 1);
      var rest := Matches(target, products, from + 1);
      forall k | 0 <= k < |rest| ensures rest[k] > from { assert rest[k] in rest; }
    }
  }

  /** A renewal is placed on a component exactly when that one and no other sells its product. */
  lemma RenewalPlacedExactlyWhen(target: nat, products: seq<nat>, i: nat)
    ensures PickRenewalComponent(target, products) == Ok(i)
       <==> i < |products| && forall j :: 0 <= j < |products| ==> (products[j] == target <==> j == i)
  {
    hide Matches;
    MatchesAre(target, products, 0);
    var matches := Matches(target, products, 0);
    assert i in matches <==> i < |products| && products[i] == target;
    if |matches| > 1 {
      assert matches[0] in matches && matches[1] in matches;
    } else if |matches| == 1 {
      assert matches[0] in matches;
      forall j | 0 <= j < |products| ensures products[j] == target <==> j == matches[0] {
        assert j in matches <==> products[j] == target;
      }
    }
  }
}
