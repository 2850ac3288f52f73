/** What the bundle arithmetic answers, written out: who gets each penny, what each child of a bundle holds, which
    changes a ripple makes, which value reaches which field, and exactly when each refuses. */
module BundleResults {
  import opened Outcomes
  import opened Rounding
  import opened BundleBehavior
  import opened BundleProofs

  // ─── The pennies ──────────────────────────────────────────────────────────

  /** Whole and fair: each part is its exact share rounded down, or one more; and one that got a penny was cut by more
      than any that did not, or by as much and stands before it. */
  ghost predicate LargestRemainder(total: int, weights: seq<int>, parts: seq<int>)
    requires Sum(weights) > 0
  {
    var w := Sum(weights);
    && |parts| == |weights| && Sum(parts) == total
    && (forall i :: 0 <= i < |parts| ==> 0 <= parts[i] - total * weights[i] / w <= 1)
    && forall i, j :: 0 <= i < |parts| && 0 <= j < |parts| && Penny(total, weights, parts, i) && !Penny(total, weights, parts, j) ==>
         total * weights[i] % w > total * weights[j] % w || (total * weights[i] % w == total * weights[j] % w && i < j)
  }

  /** The part got a penny of those rounding down left over. */
  predicate Penny(total: int, weights: seq<int>, parts: seq<int>, i: nat)
    requires Sum(weights) > 0 && i < |parts| && i < |weights|
  {
    parts[i] > total * weights[i] / Sum(weights)
  }

  lemma FloorIs(num: int, den: int)
    requires den > 0
    ensures FloorDiv(num, den) == num / den && Remainder(num, den) == num % den
  {
    var r := num / den;
    assert num == den * r + num % den;
    assert IsFloor(r, num, den);
    FloorExists(num, den);
  }

  lemma SplitIs(total: int, weights: seq<int>)
    requires Sum(weights) > 0
    ensures LargestRemainder(total, weights, SplitOf(total, weights))
  {
    hide Favoured, WithinOne, FloorDiv;
    var parts, w := SplitOf(total, weights), Sum(weights);
    assert weights != [];
    SplitIsFair(total, weights);
    forall i | 0 <= i < |parts|
      ensures parts[i] - total * weights[i] / w == if i in Favoured(total, weights) then 1 else 0
      ensures Remainders(total, weights, w)[i] == total * weights[i] % w
    {
      SplitCount(total, weights, i);
      FloorIs(total * weights[i], w);
    }
    hide SplitOf, Remainders;
    forall i, j | 0 <= i < |parts| && 0 <= j < |parts| && Penny(total, weights, parts, i) && !Penny(total, weights, parts, j)
      ensures total * weights[i] % w > total * weights[j] % w || (total * weights[i] % w == total * weights[j] % w && i < j)
    {
      FavouredFirst(total, weights, i, j);
    }
  }

  /** Without usable weights the places share as evenly as cents allow, the first ones with one cent more. */
  lemma EvenSplitIs(total: int, weights: seq<int>)
    requires weights != [] && Sum(weights) <= 0
    ensures var parts := SplitOf(total, weights);
            && Sum(parts) == total
            && forall i, j :: 0 <= i <= j < |parts| ==> parts[j] <= parts[i] <= parts[j] + 1
  {
    SplitSums(total, weights);
  }

  // ─── The allocation ───────────────────────────────────────────────────────

  /** What a bundled component is worth on its own, for one whole bundle. */
  function Worth(c: Component): int {
    if !c.bundled then 0
    else Max(0, if c.price.Some? then c.price.value else 0) * Max(0, c.quantity)
  }

  function Worths(components: seq<Component>): (w: seq<int>)
    ensures |w| == |components|
  {
    seq(|components|, i requires 0 <= i < |components| => Worth(components[i]))
  }

  function Ones(components: seq<Component>): (w: seq<int>)
    ensures |w| == |components|
  {
    seq(|components|, i requires 0 <= i < |components| => if components[i].bundled then 1 else 0)
  }

  /** A bundle's price is split by what its bundled components are worth on their own; evenly over them, and reported as
      such, when none of them is worth anything. */
  lemma AllocationIs(total: int, components: seq<Component>)
    requires components != []
    ensures var parts := SplitOf(total, AllocationWeights(components));
            && (Sum(Worths(components)) > 0 ==> LargestRemainder(total, Worths(components), parts))
            && (Sum(Worths(components)) <= 0 && Sum(Ones(components)) > 0 ==> LargestRemainder(total, Ones(components), parts))
            && (AllocatesEvenly(components) <==> Sum(Worths(components)) <= 0 && exists c :: c in components && c.bundled)
    ensures Sum(Ones(components)) > 0 <==> exists c :: c in components && c.bundled
  {
    assert PriceWeights(components) == Worths(components);
    assert EvenWeights(components) == Ones(components);
    CountBundled(components);
    var weights := AllocationWeights(components);
    if Sum(Worths(components)) > 0 {
      assert weights == Worths(components);
      SplitIs(total, weights);
    } else if Sum(Ones(components)) > 0 {
      assert weights == Ones(components);
      SplitIs(total, weights);
    }
    hide SplitOf, LargestRemainder;
  }

  lemma {:induction false} CountBundled(components: seq<Component>)
    ensures Sum(Ones(components)) >= 0
    ensures Sum(Ones(components)) > 0 <==> exists c :: c in components && c.bundled
  {
    if components != [] {
      CountBundled(components[1..]);
      assert Ones(components)[1..] == Ones(components[1..]);
      assert components[0] in components && forall c :: c in components <==> c == components[0] || c in components[1..];
    }
  }

  // ─── The expansion ────────────────────────────────────────────────────────

  /** A child: its component's product and place, as many as the line's bundles hold, and as price of one either its
      component's own or its part of the bundle's, each to the nearest the column holds. */
  predicate IsChild(line: LineFacts, c: Component, part: int, child: PlannedChild) {
    && child.product == c.product && child.sort == c.sort
    && IsRounded(child.quantity, line.quantity * c.quantity, 10000)
    && (!c.bundled ==> child.unitPrice == if c.price.Some? then c.price.value else 0)
    && (c.bundled && child.quantity > 0 ==> IsRounded(child.unitPrice, part * 10000, child.quantity))
    && (c.bundled && child.quantity <= 0 ==> child.unitPrice == 0)
  }

  /** The four refusals in their order, and otherwise a child for each component, the parts being the allocation of what
      the whole line is worth. */
  lemma ExpansionIs(line: LineFacts, components: seq<Component>) returns (total: int)
    ensures ExpansionOf(line, components) == Refused(NotABundle) <==> components == []
    ensures ExpansionOf(line, components) == Refused(ReversalLine) <==> components != [] && line.reversal
    ensures ExpansionOf(line, components) == Refused(NestedBundle) <==> components != [] && !line.reversal && line.hasParent
    ensures ExpansionOf(line, components) == Refused(NonPositiveQuantity)
       <==> components != [] && !line.reversal && !line.hasParent && line.quantity <= 0
    ensures IsRounded(total, line.unitPrice * line.quantity, 10000)
    ensures ExpansionOf(line, components).Ok? ==>
              var plan, parts := ExpansionOf(line, components).value, SplitOf(total, AllocationWeights(components));
              && |plan.children| == |components|
              && (forall i :: 0 <= i < |components| ==> IsChild(line, components[i], parts[i], plan.children[i]))
              && (plan.allocatedEvenly <==> Sum(Worths(components)) <= 0 && exists c :: c in components && c.bundled)
  {
    total := BundleTotal(line);
    hide SplitOf, AllocationWeights;
    if ExpansionOf(line, components).Ok? { AllocationIs(total, components); }
  }

  // ─── The ripple ───────────────────────────────────────────────────────────

  /** The change a ripple makes to a child. */
  predicate RippleFor(parent: int, child: RippleChild, change: RippleChange) {
    && change.id == child.id && change.from == child.quantity && change.to != child.quantity && !child.overridden
    && IsRounded(change.to, parent * child.componentQuantity, 10000)
  }

  predicate Unmoved(parent: int, child: RippleChild) {
    child.overridden || IsRounded(child.quantity, parent * child.componentQuantity, 10000)
  }

  /** `changes` has the changes of those children that move, in their order. */
  predicate Ripples(parent: int, children: seq<RippleChild>, changes: seq<RippleChange>) {
    if children == [] then changes == []
    else if Unmoved(parent, children[0]) then Ripples(parent, children[1..], changes)
    else changes != [] && RippleFor(parent, children[0], changes[0]) && Ripples(parent, children[1..], changes[1..])
  }

  lemma QuantityIs(parent: int, component: int, quantity: int)
    ensures ChildQuantity(parent, component) == quantity <==> IsRounded(quantity, parent * component, 10000)
  {
    if IsRounded(quantity, parent * component, 10000) { RoundDivUnique(parent * component, 10000, quantity); }
  }

  /** A ripple changes just the children whose quantity is not what the parent's now makes it, unless it was set by
      hand, each from what it is to the parent's times the component's, to the nearest the column holds. */
  lemma {:induction false} RippleIs(parent: int, children: seq<RippleChild>)
    ensures Ripples(parent, children, RippleOf(parent, children))
  {
    if children != [] {
      RippleIs(parent, children[1..]);
      QuantityIs(parent, children[0].componentQuantity, children[0].quantity);
      QuantityIs(parent, children[0].componentQuantity, ChildQuantity(parent, children[0].componentQuantity));
      var rest := RippleOf(parent, children[1..]);
      if !Unmoved(parent, children[0]) { assert RippleOf(parent, children)[1..] == rest; }
    }
  }

  // ─── Inheritance ──────────────────────────────────────────────────────────

  /** A component's ship-to is its bundle line's; its start and action too when it is a subscription; and what it renews
      when it is the one that renews it. */
  lemma InheritedIs(parent: Fields, subscription: bool, renewal: bool)
    ensures var given := InheritedFields(parent, subscription, renewal);
            && given.organization == parent.organization && given.person == parent.person && given.address == parent.address
            && given.start == (if subscription then parent.start else None)
            && given.action == (if subscription then parent.action else None)
            && given.renews == (if renewal then parent.renews else None)
  {
  }

  /** What a refreshed value is, from the child's own and what its line gave it before and gives it after. */
  function Follow(own: Option<int>, before: Option<int>, after: Option<int>): Option<int> {
    if own == before then after else own
  }

  /** A refreshed component: each of its six values by itself follows, when it still was what the line gave it. */
  lemma RefreshIs(child: Fields, before: Fields, after: Fields)
    ensures WithChanges(child, RefreshOf(child, before, after))
         == Fields(Follow(child.organization, before.organization, after.organization), Follow(child.person, before.person, after.person),
                   Follow(child.address, before.address, after.address), Follow(child.start, before.start, after.start),
                   Follow(child.action, before.action, after.action), Follow(child.renews, before.renews, after.renews))
  {
    EveryField(ShipToOrganization);
    EveryField(ShipToPerson);
    EveryField(ShipToAddress);
    EveryField(PeriodStart);
    EveryField(SubscriptionAction);
    EveryField(Renews);
  }

  /** The changes a refresh plans are the fields that differ afterwards, no more. */
  lemma RefreshPlans(child: Fields, before: Fields, after: Fields, f: Field)
    ensures f in RefreshOf(child, before, after) <==> At(child, f) == At(before, f) != At(after, f)
    ensures f in RefreshOf(child, before, after) ==> RefreshOf(child, before, after)[f] == At(after, f)
  {
    EveryField(f);
  }

  // ─── Totals and renewals ──────────────────────────────────────────────────

  function Counted(lines: seq<Priced>): (amounts: seq<int>)
    ensures |amounts| == |lines|
  {
    seq(|lines|, i requires 0 <= i < |lines| => if lines[i].rollup then 0 else lines[i].amount)
  }

  /** An order's total is what its lines come to, but for those that only head a bundle. */
  lemma {:induction false} TotalIs(lines: seq<Priced>)
    ensures RollupTotal(lines) == Sum(Counted(lines))
  {
    if lines != [] {
      TotalIs(lines[1..]);
      assert Counted(lines)[1..] == Counted(lines[1..]);
    }
  }

  predicate SoldTwice(target: nat, products: seq<nat>) {
    exists i, j :: 0 <= i < j < |products| && products[i] == target && products[j] == target
  }

  lemma AscendingTwo(at: seq<nat>, i: nat, j: nat)
    requires i in at && j in at && i != j
    ensures |at| > 1
  {
    var k :| 0 <= k < |at| && at[k] == i;
    var l :| 0 <= l < |at| && at[l] == j;
  }

  /** A renewal is not placed when no component sells its product, or more than one does. */
  lemma UnplacedExactlyWhen(target: nat, products: seq<nat>)
    ensures PickRenewalComponent(target, products) == Refused(NoComponentSellsTarget) <==> target !in products
    ensures PickRenewalComponent(target, products) == Refused(SeveralComponentsSellTarget) <==> SoldTwice(target, products)
  {
    hide Matches;
    MatchesAre(target, products, 0);
    var at := Matches(target, products, 0);
    if target in products {
      var i :| 0 <= i < |products| && products[i] == target;
      assert i in at;
    }
    if at != [] { assert at[0] in at; }
    if |at| > 1 { assert at[0] in at && at[1] in at && at[0] < at[1]; }
    if SoldTwice(target, products) {
      var i, j :| 0 <= i < j < |products| && products[i] == target && products[j] == target;
      AscendingTwo(at, i, j);
    }
  }
}
