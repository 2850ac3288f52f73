/** Bundle arithmetic: an exact split by largest remainder, the children a bundle line expands into, the
    quantity ripple and what a component takes from its bundle line (BundleBehavior.ts). Amounts are cents and
    quantities ten-thousandths, the scale of the columns; product and subscription ids are case-folded. */
module BundleBehavior {
  import opened Outcomes
  import opened Rounding
  import opened Sorting

  // ─── The exact split ──────────────────────────────────────────────────────

  /** Each share rounded down. */
  function Floors(total: int, weights: seq<int>, sum: int): (floors: seq<int>)
    requires sum > 0
    ensures |floors| == |weights|
  {
    seq(|weights|, i requires 0 <= i < |weights| => FloorDiv(total * weights[i], sum))
  }

  /** What rounding each share down cut off it, in parts of a cent. */
  function Remainders(total: int, weights: seq<int>, sum: int): (rems: seq<int>)
    requires sum > 0
    ensures |rems| == |weights| && forall i :: 0 <= i < |rems| ==> 0 <= rems[i] < sum
  {
    seq(|weights|, i requires 0 <= i < |weights| => Remainder(total * weights[i], sum))
  }

  /** Cut by the most first; of two cut by as much, the earlier. */
  predicate CutMore(rems: seq<int>, a: int, b: int) {
    if 0 <= a < |rems| && 0 <= b < |rems| then rems[a] > rems[b] || (rems[a] == rems[b] && a <= b) else a <= b
  }

  function Indices(n: nat): (s: seq<int>)
    ensures |s| == n && forall i :: 0 <= i < n ==> s[i] == i
  {
    seq(n, i => i)
  }

  function Order(rems: seq<int>): seq<int> {
    SortBy(Indices(|rems|), (a: int, b: int) => CutMore(rems, a, b))
  }

  predicate InRange(chosen: seq<int>, n: nat) { forall k :: 0 <= k < |chosen| ==> 0 <= chosen[k] < n }

  /** One more on each chosen place. */
  function Bumped(floors: seq<int>, chosen: seq<int>): (out: seq<int>)
    requires InRange(chosen, |floors|)
    ensures |out| == |floors|
  {
    if chosen == [] then floors
    else
      var last := chosen[|chosen| - 1];
      var before := Bumped(floors, chosen[..|chosen| - 1]);
      before[last := before[last] + 1]
  }

  function EvenSplit(total: int, n: nat): (out: seq<int>)
    requires n > 0
    ensures |out| == n
  {
    var base := FloorDiv(total, n);
    seq(n, i => if i < total - base * n then base + 1 else base)
  }

  function SplitOf(total: int, weights: seq<int>): (parts: seq<int>)
    ensures |parts| == |weights|
  {
    var sum := Sum(weights);
    if weights == [] then []
    else if sum <= 0 then EvenSplit(total, |weights|)
    else
      Bumped(Floors(total, weights, sum), Favoured(total, weights))
  }

  /** The places that get one of the pennies left over. */
  function Favoured(total: int, weights: seq<int>): (chosen: seq<int>)
    requires weights != [] && Sum(weights) > 0
    ensures InRange(chosen, |weights|)
  {
    var rems := Remainders(total, weights, Sum(weights));
    LeftoverBounds(total, weights);
    OrderIsPermutation(rems);
    Order(rems)[..total - Sum(Floors(total, weights, Sum(weights)))]
  }

  lemma OrderIsPermutation(rems: seq<int>)
    ensures |Order(rems)| == |rems| && multiset(Order(rems)) == multiset(Indices(|rems|))
    ensures InRange(Order(rems), |rems|)
  {
    SortMembers(Indices(|rems|), (a: int, b: int) => CutMore(rems, a, b));
    forall k | 0 <= k < |Order(rems)| ensures 0 <= Order(rems)[k] < |rems| {
      assert Order(rems)[k] in Order(rems);
      assert Order(rems)[k] in Indices(|rems|);
    }
  }

  lemma OrderSorted(rems: seq<int>)
    ensures Sorted(Order(rems), (a: int, b: int) => CutMore(rems, a, b))
  {
    SortSorted(Indices(|rems|), (a: int, b: int) => CutMore(rems, a, b));
  }

  /** The remainders together are the pennies left over, measured in parts of a cent. */
  lemma {:induction false} RemainderSum(total: int, weights: seq<int>, sum: int)
    requires sum > 0
    ensures Sum(Remainders(total, weights, sum)) == total * Sum(weights) - sum * Sum(Floors(total, weights, sum))
  {
    if weights == [] {
      assert total * 0 == 0;
    } else {
      RemainderSum(total, weights[1..], sum);
      assert Remainders(total, weights, sum)[1..] == Remainders(total, weights[1..], sum);
      assert Floors(total, weights, sum)[1..] == Floors(total, weights[1..], sum);
      Distribute(total, weights[0], Sum(weights[1..]));
      Distribute(sum, FloorDiv(total * weights[0], sum), Sum(Floors(total, weights[1..], sum)));
    }
  }

  lemma {:induction false} SumAtMost(s: seq<int>, top: int)
    requires forall i :: 0 <= i < |s| ==> s[i] <= top
    ensures Sum(s) <= top * |s|
  {
    if s != [] {
      SumAtMost(s[1..], top);
      assert top * |s| == top + top * (|s| - 1);
    }
  }

  /** The pennies left over always run out before the list does. */
  lemma LeftoverBounds(total: int, weights: seq<int>)
    requires weights != [] && Sum(weights) > 0
    ensures 0 <= total - Sum(Floors(total, weights, Sum(weights))) < |weights|
  {
    var sum := Sum(weights);
    var rems, left := Remainders(total, weights, sum), total - Sum(Floors(total, weights, sum));
    RemainderSum(total, weights, sum);
    LeftoverIs(total, sum, Sum(Floors(total, weights, sum)));
    SumNonNegative(rems);
    SumAtMost(rems, sum - 1);
    LeftoverFits(sum, left, |weights|);
  }

  lemma LeftoverIs(total: int, sum: int, floors: int)
    ensures total * sum - sum * floors == sum * (total - floors)
  {
  }

  lemma LeftoverFits(sum: int, left: int, n: nat)
    requires sum > 0 && n > 0 && 0 <= sum * left <= (sum - 1) * n
    ensures 0 <= left < n
  {
    assert (sum - 1) * n == sum * n - n;
    if left >= n { MulMonotone(sum, n, left); }
    assert sum * (-left) == -(sum * left);
    if left < 0 { MulGrows(sum, -left); }
  }

  lemma {:induction false} BumpedSum(floors: seq<int>, chosen: seq<int>)
    requires InRange(chosen, |floors|)
    ensures Sum(Bumped(floors, chosen)) == Sum(floors) + |chosen|
  {
    if chosen != [] {
      var rest := chosen[..|chosen| - 1];
      BumpedSum(floors, rest);
      var last := chosen[|chosen| - 1];
      SumUpdate(Bumped(floors, rest), last, Bumped(floors, rest)[last] + 1);
    }
  }

  lemma {:induction false} BumpedAt(floors: seq<int>, chosen: seq<int>, i: nat)
    requires i < |floors| && InRange(chosen, |floors|)
    ensures Bumped(floors, chosen)[i] == floors[i] + multiset(chosen)[i]
  {
    if chosen != [] {
      BumpedAt(floors, chosen[..|chosen| - 1], i);
      assert chosen == chosen[..|chosen| - 1] + [chosen[|chosen| - 1]];
    }
  }

  /** Split `total` by weight, flooring every share and handing the pennies left over to those cut by the most. */
  method SplitExactly(total: int, weights: seq<int>) returns (parts: seq<int>)
    ensures parts == SplitOf(total, weights)
  {
    hide Order, Floors, Remainders, Bumped;
    var n := |weights|;
    if n == 0 { return []; }
    var sum := Sum(weights);
    if sum <= 0 {
      parts := SplitEvenly(total, n);
      return;
    }
    var floors, rems := Floors(total, weights, sum), Remainders(total, weights, sum);
    LeftoverBounds(total, weights);
    OrderIsPermutation(rems);
    parts := HandOut(floors, Order(rems), total - Sum(floors));
  }

  /** As even as cents allow, the first places one cent more. */
  method SplitEvenly(total: int, n: nat) returns (parts: seq<int>)
    requires n > 0
    ensures parts == EvenSplit(total, n)
  {
    var base := FloorDiv(total, n);
    var out := new int[n](_ => base);
    EvenExtras(total, n);
    for i := 0 to total - base * n
      invariant forall k :: 0 <= k < n ==> out[k] == if k < i then base + 1 else base
    {
      out[i] := out[i] + 1;
    }
    parts := out[..];
  }

  /** One more to each place in `order` until nothing remains. */
  method HandOut(floors: seq<int>, order: seq<int>, extra: nat) returns (parts: seq<int>)
    requires InRange(order, |floors|) && extra <= |order|
    ensures parts == Bumped(floors, order[..extra])
  {
    var out := new int[|floors|](i requires 0 <= i < |floors| => floors[i]);
    var remaining := extra;
    var k := 0;
    while k < |order| && remaining > 0
      invariant k <= |order| && k + remaining == extra
      invariant out[..] == Bumped(floors, order[..k])
    {
      assert order[..k + 1][..k] == order[..k];
      out[order[k]] := out[order[k]] + 1;
      k, remaining := k + 1, remaining - 1;
    }
    parts := out[..];
  }

  lemma EvenExtras(total: int, n: int)
    requires n > 0
    ensures 0 <= total - FloorDiv(total, n) * n < n
  {
    assert FloorDiv(total, n) * n == n * FloorDiv(total, n);
  }

  // ─── The children a bundle line expands into ──────────────────────────────

  /** Units are quantities of one: the columns hold ten-thousandths. */
  const UNIT := 10000

  /** One component, as the catalog defines it; `price` is its standalone selling price when it has one. */
  datatype Component = Component(product: nat, quantity: int, bundled: bool, sort: int, price: Option<int>)

  datatype PlannedChild = PlannedChild(product: nat, quantity: int, unitPrice: int, sort: int)

  datatype Refusal = NotABundle | ReversalLine | NestedBundle | NonPositiveQuantity

  datatype LineFacts = LineFacts(quantity: int, unitPrice: int, reversal: bool, hasParent: bool)

  datatype BundlePlan = BundlePlan(children: seq<PlannedChild>, allocatedEvenly: bool)

  function PriceOr0(c: Component): int { if c.price.Some? then c.price.value else 0 }

  /** A component weighs its standalone value for the whole bundle: its price times how many it contains. */
  function PriceWeights(components: seq<Component>): (w: seq<int>)
    ensures |w| == |components|
  {
    seq(|components|, i requires 0 <= i < |components| =>
      if components[i].bundled then Max(0, PriceOr0(components[i])) * Max(0, components[i].quantity) else 0)
  }

  function EvenWeights(components: seq<Component>): (w: seq<int>)
    ensures |w| == |components|
  {
    seq(|components|, i requires 0 <= i < |components| => if components[i].bundled then 1 else 0)
  }

  predicate AnyBundled(components: seq<Component>) { exists c :: c in components && c.bundled }

  predicate AllocatesEvenly(components: seq<Component>) {
    AnyBundled(components) && Sum(PriceWeights(components)) <= 0
  }

  /** What a bundle's price is split by: standalone value, or evenly over the bundled components when none has
      a price. */
  function AllocationWeights(components: seq<Component>): (w: seq<int>)
    ensures |w| == |components|
  {
    if AllocatesEvenly(components) then EvenWeights(components) else PriceWeights(components)
  }

  function ChildQuantity(parent: int, component: int): int { RoundDiv(parent * component, UNIT) }

  function BundleTotal(line: LineFacts): int { RoundDiv(line.unitPrice * line.quantity, UNIT) }

  /** A child's share as a price per unit. */
  function UnitShare(part: int, quantity: int): int {
    if quantity > 0 then RoundDiv(part * UNIT, quantity) else 0
  }

  function ChildOf(line: LineFacts, c: Component, part: int): PlannedChild {
    var quantity := ChildQuantity(line.quantity, c.quantity);
    PlannedChild(c.product, quantity, if c.bundled then UnitShare(part, quantity) else PriceOr0(c), c.sort)
  }

  function ChildrenOf(line: LineFacts, components: seq<Component>, parts: seq<int>): (children: seq<PlannedChild>)
    requires |parts| == |components|
    ensures |children| == |components|
  {
    seq(|components|, i requires 0 <= i < |components| => ChildOf(line, components[i], parts[i]))
  }

  /** One child for each component, or the first of the four reasons to make none. */
  function ExpansionOf(line: LineFacts, components: seq<Component>): Result<BundlePlan, Refusal> {
    if components == [] then Refused(NotABundle)
    else if line.reversal then Refused(ReversalLine)
    else if line.hasParent then Refused(NestedBundle)
    else if line.quantity <= 0 then Refused(NonPositiveQuantity)
    else
      var parts := SplitOf(BundleTotal(line), AllocationWeights(components));
      Ok(BundlePlan(ChildrenOf(line, components, parts), AllocatesEvenly(components)))
  }

  /** Allocate a bundle's price over its components, and say when the split was arbitrary. */
  method AllocateBundlePrice(total: int, components: seq<Component>) returns (parts: seq<int>, evenly: bool)
    ensures parts == SplitOf(total, AllocationWeights(components)) && evenly == AllocatesEvenly(components)
  {
    var weights := PriceWeights(components);
    evenly := AnyBundled(components) && !(Sum(weights) > 0);
    if evenly { weights := EvenWeights(components); }
    parts := SplitExactly(total, weights);
  }

  method PlanBundleExpansion(line: LineFacts, components: seq<Component>) returns (result: Result<BundlePlan, Refusal>)
    ensures result == ExpansionOf(line, components)
  {
    if components == [] { return Refused(NotABundle); }
    if line.reversal { return Refused(ReversalLine); }
    if line.hasParent { return Refused(NestedBundle); }
    if line.quantity <= 0 { return Refused(NonPositiveQuantity); }
    var parts, evenly := AllocateBundlePrice(BundleTotal(line), components);
    result := Ok(BundlePlan(ChildrenOf(line, components, parts), evenly));
  }

  // ─── The quantity ripple ──────────────────────────────────────────────────

  datatype RippleChild = RippleChild(id: nat, componentQuantity: int, overridden: bool, quantity: int)

  datatype RippleChange = RippleChange(id: nat, from: int, to: int)

  predicate Follows(parent: int, child: RippleChild) {
    !child.overridden && ChildQuantity(parent, child.componentQuantity) != child.quantity
  }

  function RippleOf(parent: int, children: seq<RippleChild>): seq<RippleChange> {
    if children == [] then []
    else
      var c := children[0];
      var rest := RippleOf(parent, children[1..]);
      if Follows(parent, c) then [RippleChange(c.id, c.quantity, ChildQuantity(parent, c.componentQuantity))] + rest else rest
  }

  lemma {:induction false} RippleSnoc(parent: int, children: seq<RippleChild>, c: RippleChild)
    ensures RippleOf(parent, children + [c]) == RippleOf(parent, children) + RippleOf(parent, [c])
  {
    if children == [] {
      assert children + [c] == [c];
    } else {
      RippleSnoc(parent, children[1..], c);
      assert (children + [c])[1..] == children[1..] + [c];
    }
  }

  /** The children that actually change; one whose quantity was set by hand does not follow. */
  method PlanQuantityRipple(parent: int, children: seq<RippleChild>) returns (changes: seq<RippleChange>)
    ensures changes == RippleOf(parent, children)
  {
    changes := [];
    for i := 0 to |children|
      invariant changes == RippleOf(parent, children[..i])
    {
      var child := children[i];
      RippleSnoc(parent, children[..i], child);
      assert children[..i + 1] == children[..i] + [child] && [child][1..] == [];
      if child.overridden { continue; }
      var target := ChildQuantity(parent, child.componentQuantity);
      if target != child.quantity {
        changes := changes + [RippleChange(child.id, child.quantity, target)];
      }
    }
    assert children[..|children|] == children;
  }

  // ─── What a component takes from its bundle line ──────────────────────────

  datatype Field = ShipToOrganization | ShipToPerson | ShipToAddress | PeriodStart | SubscriptionAction | Renews

  const FIELDS: seq<Field> := [ShipToOrganization, ShipToPerson, ShipToAddress, PeriodStart, SubscriptionAction, Renews]

  /** A line's inheritable values: ids and actions case-folded, a start as its instant. */
  datatype Fields = Fields(
    organization: Option<int>, person: Option<int>, address: Option<int>,
    start: Option<int>, action: Option<int>, renews: Option<int>)

  function At(fields: Fields, f: Field): Option<int> {
    match f
    case ShipToOrganization => fields.organization
    case ShipToPerson => fields.person
    case ShipToAddress => fields.address
    case PeriodStart => fields.start
    case SubscriptionAction => fields.action
    case Renews => fields.renews
  }

  /** The ship-to reaches every component, the start and action only a subscription, and the renewal target
      only the component it renews. */
  function InheritedFields(parent: Fields, subscription: bool, renewalTarget: bool): Fields {
    Fields(parent.organization, parent.person, parent.address,
           if subscription then parent.start else None,
           if subscription then parent.action else None,
           if renewalTarget then parent.renews else None)
  }

  /** Some of a line's inheritable values. */
  type Changes = map<Field, Option<int>>

  /** A field follows when the bundle line's value moved and the child still holds the one it was given. */
  predicate FieldFollows(child: Fields, before: Fields, after: Fields, f: Field) {
    At(before, f) != At(after, f) && At(child, f) == At(before, f)
  }

  function RefreshOf(child: Fields, before: Fields, after: Fields): Changes {
    map f | f in FIELDS && FieldFollows(child, before, after, f) :: At(after, f)
  }

  /** The fields a component has to take over, each looked at by itself. */
  method PlanInheritanceRefresh(child: Fields, before: Fields, after: Fields) returns (changes: Changes)
    ensures changes == RefreshOf(child, before, after)
  {
    changes := map[];
    for i := 0 to |FIELDS|
      invariant changes == map f | f in FIELDS[..i] && FieldFollows(child, before, after, f) :: At(after, f)
    {
      var field := FIELDS[i];
      assert FIELDS[..i + 1] == FIELDS[..i] + [field];
      if At(before, field) == At(after, field) { continue; }
      if At(child, field) != At(before, field) { continue; }
      changes := changes[field := At(after, field)];
    }
    assert FIELDS[..|FIELDS|] == FIELDS;
  }

  function Changed(fields: Fields, changes: Changes, f: Field): Option<int> {
    if f in changes then changes[f] else At(fields, f)
  }

  /** A line's values with some of them set. */
  function WithChanges(fields: Fields, changes: Changes): Fields {
    Fields(Changed(fields, changes, ShipToOrganization), Changed(fields, changes, ShipToPerson),
           Changed(fields, changes, ShipToAddress), Changed(fields, changes, PeriodStart),
           Changed(fields, changes, SubscriptionAction), Changed(fields, changes, Renews))
  }

  // ─── Totals and renewals ──────────────────────────────────────────────────

  datatype Priced = Priced(rollup: bool, amount: int)

  /** A rollup parent adds nothing: its children carry the money. */
  function RollupTotal(lines: seq<Priced>): int {
    if lines == [] then 0 else (if lines[0].rollup then 0 else lines[0].amount) + RollupTotal(lines[1..])
  }

  datatype Unplaced = NoComponentSellsTarget | SeveralComponentsSellTarget

  function Matches(target: nat, products: seq<nat>, from: nat): (at: seq<nat>)
    requires from <= |products|
    decreases |products| - from
  {
    if from == |products| then []
    else (if products[from] == target then [from] else []) + Matches(target, products, from + 1)
  }

  /** Which component a renewal belongs to: the one that sells its product, when just one does. */
  function PickRenewalComponent(target: nat, products: seq<nat>): Result<nat, Unplaced> {
    var matches := Matches(target, products, 0);
    if matches == [] then Refused(NoComponentSellsTarget)
    else if |matches| > 1 then Refused(SeveralComponentsSellTarget)
    else Ok(matches[0])
  }
}
