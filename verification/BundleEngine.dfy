/** Expanding an order's bundle lines in place, and again at every save (BundleEngine.ts). */
module BundleEngine {
  import opened Outcomes
  import opened Rounding
  import opened BundleBehavior

  /** An order line as expansion handles it; `saved` is its inheritable values as it was last saved. */
  datatype Line = Line(
    id: nat, product: nat, quantity: int, unitPrice: int, reverses: bool, parent: Option<nat>, rollup: bool,
    quantityOverridden: bool, priceOverridden: bool, acknowledges: bool, reason: Option<int>,
    discount: int, charge: int, tax: int, fields: Fields, saved: Fields)

  /** The catalog, each bundle's components in order; which products sell a subscription; and the product of
      each subscription a line may renew. */
  datatype Context = Context(catalog: map<nat, seq<Component>>, subscriptions: set<nat>, targets: map<int, nat>)

  datatype Stop = Nested | TargetNotFound | TargetUnplaced(why: Unplaced)

  /** The lines, and the id the next line made will take. */
  datatype Order = Order(lines: seq<Line>, nextId: nat)

  function Components(ctx: Context, product: nat): seq<Component> {
    if product in ctx.catalog then ctx.catalog[product] else []
  }

  function FactsOf(line: Line): LineFacts { LineFacts(line.quantity, line.unitPrice, line.reverses, line.parent.Some?) }

  function PlanOf(ctx: Context, line: Line): Result<BundlePlan, Refusal> {
    ExpansionOf(FactsOf(line), Components(ctx, line.product))
  }

  /** The place among `products` of the one the line's renewal is for; -1 without a renewal. */
  function RenewalComponent(ctx: Context, renews: Option<int>, products: seq<nat>): Result<int, Stop> {
    if renews.None? then Ok(-1)
    else if renews.value !in ctx.targets then Refused(TargetNotFound)
    else
      var pick := PickRenewalComponent(ctx.targets[renews.value], products);
      if pick.Ok? then Ok(pick.value as int) else Refused(TargetUnplaced(pick.reason))
  }

  /** A bundle line turned into a heading for its children, its own amounts cleared. */
  function AsParent(line: Line): Line { line.(rollup := true, discount := 0, charge := 0, tax := 0) }

  predicate IsChildOf(line: Line, id: nat) { line.parent == Some(id) }

  /** Where the children of a line are among the first `n` lines. */
  function Children(lines: seq<Line>, n: nat, id: nat): (at: seq<nat>)
    requires n <= |lines|
    ensures forall k :: 0 <= k < |at| ==> at[k] < n && IsChildOf(lines[at[k]], id)
    ensures Ascending(at)
    ensures forall j :: 0 <= j < n && IsChildOf(lines[j], id) ==> j in at
  {
    if n == 0 then []
    else
      var before := Children(lines, n - 1, id);
      if IsChildOf(lines[n - 1], id) then before + [n - 1] else before
  }

  function ProductsAt(lines: seq<Line>, at: seq<nat>): (products: seq<nat>)
    requires Within(at, |lines|)
    ensures |products| == |at|
  {
    seq(|at|, k requires 0 <= k < |at| => lines[at[k]].product)
  }

  // ─── Matching planned children to existing ones ───────────────────────────

  predicate Within(s: seq<nat>, n: nat) { forall k :: 0 <= k < |s| ==> s[k] < n }

  /** The first unmatched row of a product, or -1. */
  function FirstOf(products: seq<nat>, unmatched: seq<nat>, product: nat): (i: int)
    requires Within(unmatched, |products|)
    ensures -1 <= i < |unmatched|
  {
    if unmatched == [] then -1
    else if products[unmatched[0]] == product then 0
    else
      var rest := FirstOf(products, unmatched[1..], product);
      if rest < 0 then -1 else rest + 1
  }

  function Without(s: seq<nat>, i: nat): (rest: seq<nat>)
    requires i < |s|
    ensures forall n :: Within(s, n) ==> Within(rest, n)
  {
    s[..i] + s[i + 1..]
  }

  /** The planned child each existing row is brought up to: a planned child takes the first row of its product
      that none before it took. */
  function Assigned(products: seq<nat>, planned: seq<PlannedChild>, unmatched: seq<nat>, so: seq<Option<PlannedChild>>)
    : (end: seq<Option<PlannedChild>>)
    requires |so| == |products| && Within(unmatched, |products|)
    ensures |end| == |products|
    decreases planned
  {
    if planned == [] then so
    else
      var i := FirstOf(products, unmatched, planned[0].product);
      if i < 0 then Assigned(products, planned[1..], unmatched, so)
      else Assigned(products, planned[1..], Without(unmatched, i), so[unmatched[i] := Some(planned[0])])
  }

  function Assignment(products: seq<nat>, planned: seq<PlannedChild>): (end: seq<Option<PlannedChild>>)
    ensures |end| == |products|
  {
    Assigned(products, planned, Indices(|products|), seq(|products|, _ => None))
  }

  /** A child follows its planned quantity and price unless they were set by hand. */
  function Followed(row: Line, child: Option<PlannedChild>): Line {
    if child.None? then row
    else row.(quantity := if row.quantityOverridden then row.quantity else child.value.quantity,
              unitPrice := if row.priceOverridden then row.unitPrice else child.value.unitPrice)
  }

  function Inherited(ctx: Context, fields: Fields, row: Line, target: bool): Fields {
    InheritedFields(fields, row.product in ctx.subscriptions, target)
  }

  /** An existing child brought up to date with its bundle line. */
  function RefreshedRow(ctx: Context, parent: Line, row: Line, was: bool, renewing: bool, child: Option<PlannedChild>): Line {
    var changes := RefreshOf(row.fields, Inherited(ctx, parent.saved, row, was), Inherited(ctx, parent.fields, row, renewing));
    var followed := Followed(row.(fields := WithChanges(row.fields, changes)), child);
    if parent.acknowledges then followed.(acknowledges := true, reason := parent.reason) else followed
  }

  /** The children at `at`, each brought up to date. */
  function Refreshed(ctx: Context, lines: seq<Line>, parent: Line, at: seq<nat>, was: int, renewing: int, planned: seq<PlannedChild>)
    : (after: seq<Line>)
    requires Within(at, |lines|)
    ensures |after| == |lines|
  {
    var products := ProductsAt(lines, at);
    seq(|lines|, j requires 0 <= j < |lines| =>
      if j !in at then lines[j]
      else
        var k := Rank(at, j);
        RefreshedRow(ctx, parent, lines[j], k == was, k == renewing, Assignment(products, planned)[k]))
  }

  function Rank(at: seq<nat>, j: nat): (k: nat)
    requires j in at
    ensures k < |at| && at[k] == j && forall i :: 0 <= i < k ==> at[i] != j
  {
    if at[0] == j then 0
    else
      assert j in at[1..];
      1 + Rank(at[1..], j)
  }

  lemma {:induction false} RankIs(at: seq<nat>, k: nat)
    requires k < |at| && Ascending(at)
    ensures at[k] in at && Rank(at, at[k]) == k
  {
    if k > 0 {
      RankIs(at[1..], k - 1);
      assert at[1..][k - 1] == at[k] && at[0] < at[k];
    }
  }

  predicate Ascending(at: seq<nat>) { forall i, j :: 0 <= i < j < |at| ==> at[i] < at[j] }

  lemma RefreshedAt(ctx: Context, lines: seq<Line>, parent: Line, at: seq<nat>, was: int, renewing: int, planned: seq<PlannedChild>, k: nat)
    requires Within(at, |lines|) && Ascending(at) && k < |at|
    ensures Refreshed(ctx, lines, parent, at, was, renewing, planned)[at[k]]
         == RefreshedRow(ctx, parent, lines[at[k]], k == was, k == renewing, Assignment(ProductsAt(lines, at), planned)[k])
  {
    hide Assignment, RefreshedRow;
    RankIs(at, k);
  }

  lemma RefreshedElsewhere(ctx: Context, lines: seq<Line>, parent: Line, at: seq<nat>, was: int, renewing: int, planned: seq<PlannedChild>)
    requires Within(at, |lines|)
    ensures forall j :: 0 <= j < |lines| && j !in at ==> Refreshed(ctx, lines, parent, at, was, renewing, planned)[j] == lines[j]
  {
    hide Assignment, RefreshedRow;
  }

  /** A child line made for a planned component. */
  function Made(ctx: Context, parent: Line, child: PlannedChild, id: nat, renewing: bool): Line {
    var blank := Fields(None, None, None, None, None, None);
    var row := Line(id, child.product, child.quantity, child.unitPrice, false, Some(parent.id), false,
                    false, false, parent.acknowledges, parent.reason, 0, 0, 0, blank, blank);
    row.(fields := Inherited(ctx, parent.fields, row, renewing))
  }

  function AllMade(ctx: Context, parent: Line, planned: seq<PlannedChild>, nextId: nat, renewing: int): (made: seq<Line>)
    ensures |made| == |planned|
  {
    seq(|planned|, k requires 0 <= k < |planned| => Made(ctx, parent, planned[k], nextId + k, k == renewing))
  }

  function ProductsOf(planned: seq<PlannedChild>): (products: seq<nat>)
    ensures |products| == |planned|
  {
    seq(|planned|, k requires 0 <= k < |planned| => planned[k].product)
  }

  /** Expand the `i`th of the first `n` lines, or bring its children up to date. */
  function ExpandAt(ctx: Context, order: Order, n: nat, i: nat): (result: Result<Order, Stop>)
    requires i < n <= |order.lines|
    ensures result.Ok? ==> |result.value.lines| >= |order.lines|
  {
    var line := order.lines[i];
    var plan := PlanOf(ctx, line);
    if plan.Refused? then (if plan.reason.NestedBundle? then Refused(Nested) else Ok(order))
    else
      var lines, parent := order.lines[i := AsParent(line)], AsParent(line);
      var at := Children(lines, n, line.id);
      if at != [] then
        var products := ProductsAt(lines, at);
        var was := RenewalComponent(ctx, parent.saved.renews, products);
        var renewing := RenewalComponent(ctx, parent.fields.renews, products);
        if was.Refused? then Refused(was.reason)
        else if renewing.Refused? then Refused(renewing.reason)
        else Ok(order.(lines := Refreshed(ctx, lines, parent, at, was.value, renewing.value, plan.value.children)))
      else
        var planned := plan.value.children;
        var renewing := RenewalComponent(ctx, parent.fields.renews, ProductsOf(planned));
        if renewing.Refused? then Refused(renewing.reason)
        else Ok(Order(lines + AllMade(ctx, parent, planned, order.nextId, renewing.value), order.nextId + |planned|))
  }

  /** Every one of the first `n` lines from the `i`th on, in order; lines made on the way are not expanded. */
  function ExpandFrom(ctx: Context, order: Order, n: nat, i: nat): (result: Result<Order, Stop>)
    requires i <= n <= |order.lines|
    decreases n - i
  {
    if i == n then Ok(order)
    else
      var next := ExpandAt(ctx, order, n, i);
      if next.Refused? then next else ExpandFrom(ctx, next.value, n, i + 1)
  }

  function Expand(ctx: Context, order: Order): Result<Order, Stop> { ExpandFrom(ctx, order, |order.lines|, 0) }

  /** Saving makes each line's values those it was last saved with. */
  function Save(order: Order): Order {
    order.(lines := seq(|order.lines|, i requires 0 <= i < |order.lines| => order.lines[i].(saved := order.lines[i].fields)))
  }

  // ─── The ripple over stored lines ─────────────────────────────────────────

  /** How many of a product one bundle holds, as the ripple reads it: the last item listed for it. */
  function PerBundle(items: seq<Component>, product: nat): Option<int> {
    if items == [] then None
    else
      var last := items[|items| - 1];
      if last.product == product then Some(last.quantity) else PerBundle(items[..|items| - 1], product)
  }

  /** A child line once its parent's quantity has rippled to it. */
  function RippledLine(line: Line, parent: nat, quantity: int, items: seq<Component>): Line {
    var per := PerBundle(items, line.product);
    if !IsChildOf(line, parent) || line.quantityOverridden || per.None? then line
    else line.(quantity := ChildQuantity(quantity, per.value))
  }

  function RippledLines(lines: seq<Line>, parent: nat, quantity: int, items: seq<Component>): (after: seq<Line>)
    ensures |after| == |lines|
  {
    seq(|lines|, j requires 0 <= j < |lines| => RippledLine(lines[j], parent, quantity, items))
  }

  /** How many of the lines a ripple changes. */
  function ChangedCount(lines: seq<Line>, parent: nat, quantity: int, items: seq<Component>): nat {
    if lines == [] then 0
    else
      var last := lines[|lines| - 1];
      (if RippledLine(last, parent, quantity, items) != last then 1 else 0) + ChangedCount(lines[..|lines| - 1], parent, quantity, items)
  }

  // ─── The lines, expanded in place ─────────────────────────────────────────

  class OrderLines {
    var lines: seq<Line>
    var nextId: nat

    constructor (order: Order)
      ensures Order(lines, nextId) == order
    {
      lines, nextId := order.lines, order.nextId;
    }

    /** Match each planned child to the first row of its product still unmatched. */
    method MatchChildren(products: seq<nat>, planned: seq<PlannedChild>) returns (so: seq<Option<PlannedChild>>)
      ensures so == Assignment(products, planned)
    {
      so := seq(|products|, _ => None);
      var unmatched: seq<nat> := Indices(|products|);
      for c := 0 to |planned|
        invariant |so| == |products| && Within(unmatched, |products|)
        invariant Assigned(products, planned[c..], unmatched, so) == Assignment(products, planned)
      {
        assert planned[c..][0] == planned[c] && planned[c..][1..] == planned[c + 1..];
        var i := FirstOf(products, unmatched, planned[c].product);
        if i < 0 { continue; }
        so := so[unmatched[i] := Some(planned[c])];
        unmatched := Without(unmatched, i);
      }
    }

    /** Refresh the children a bundle line already has from what it holds now. */
    method RefreshChildren(ctx: Context, i: nat, n: nat, planned: seq<PlannedChild>) returns (stop: Option<Stop>)
      requires i < n <= |lines|
      modifies this`lines
      ensures var at, parent := Children(old(lines), n, old(lines)[i].id), old(lines)[i];
              var was := RenewalComponent(ctx, parent.saved.renews, ProductsAt(old(lines), at));
              var renewing := RenewalComponent(ctx, parent.fields.renews, ProductsAt(old(lines), at));
              if was.Refused? then stop == Some(was.reason) && lines == old(lines)
              else if renewing.Refused? then stop == Some(renewing.reason) && lines == old(lines)
              else stop == None && lines == Refreshed(ctx, old(lines), parent, at, was.value, renewing.value, planned)
    {
      hide RenewalComponent, Assignment, RefreshedRow;
      var at, parent := Children(lines, n, lines[i].id), lines[i];
      var products := ProductsAt(lines, at);
      var was := RenewalComponent(ctx, parent.saved.renews, products);
      if was.Refused? { return Some(was.reason); }
      var renewing := RenewalComponent(ctx, parent.fields.renews, products);
      if renewing.Refused? { return Some(renewing.reason); }
      WriteRefreshed(ctx, parent, at, was.value, renewing.value, planned);
      stop := None;
    }

    method WriteRefreshed(ctx: Context, parent: Line, at: seq<nat>, was: int, renewing: int, planned: seq<PlannedChild>)
      requires Within(at, |lines|) && Ascending(at)
      modifies this`lines
      ensures lines == Refreshed(ctx, old(lines), parent, at, was, renewing, planned)
    {
      hide Refreshed, RefreshedRow, Assignment;
      var products := ProductsAt(lines, at);
      var so := MatchChildren(products, planned);
      ghost var target := Refreshed(ctx, lines, parent, at, was, renewing, planned);
      RefreshedElsewhere(ctx, lines, parent, at, was, renewing, planned);
      for k := 0 to |at|
        invariant |lines| == |old(lines)| == |target|
        invariant forall m :: 0 <= m < k ==> lines[at[m]] == target[at[m]]
        invariant forall m :: k <= m < |at| ==> lines[at[m]] == old(lines)[at[m]]
        invariant forall j :: 0 <= j < |lines| && j !in at ==> lines[j] == target[j]
      {
        RefreshedAt(ctx, old(lines), parent, at, was, renewing, planned, k);
        lines := lines[at[k] := RefreshedRow(ctx, parent, lines[at[k]], k == was, k == renewing, so[k])];
      }
    }

    /** Expand every bundle line, appending its children, or bring the children it has up to date. On a stop
        some lines may already be changed. */
    method ExpandBundleLines(ctx: Context) returns (stop: Option<Stop>)
      modifies this
      ensures match Expand(ctx, old(Order(lines, nextId)))
              case Ok(order) => stop == None && Order(lines, nextId) == order
              case Refused(reason) => stop == Some(reason)
    {
      var n := |lines|;
      for i := 0 to n
        invariant n <= |lines|
        invariant ExpandFrom(ctx, Order(lines, nextId), n, i) == Expand(ctx, old(Order(lines, nextId)))
      {
        stop := ExpandLine(ctx, n, i);
        if stop.Some? { return; }
      }
      stop := None;
    }

    method ExpandLine(ctx: Context, n: nat, i: nat) returns (stop: Option<Stop>)
      requires i < n <= |lines|
      modifies this
      ensures match ExpandAt(ctx, old(Order(lines, nextId)), n, i)
              case Ok(order) => stop == None && Order(lines, nextId) == order
              case Refused(reason) => stop == Some(reason)
    {
      hide RenewalComponent, ExpansionOf, Refreshed, Made;
      var line := lines[i];
      var plan := PlanBundleExpansion(FactsOf(line), Components(ctx, line.product));
      if plan.Refused? { return if plan.reason.NestedBundle? then Some(Nested) else None; }
      lines := lines[i := AsParent(line)];
      if Children(lines, n, line.id) != [] {
        stop := RefreshChildren(ctx, i, n, plan.value.children);
        return;
      }
      var renewing := RenewalComponent(ctx, line.fields.renews, ProductsOf(plan.value.children));
      if renewing.Refused? { return Some(renewing.reason); }
      ghost var parents := lines;
      ghost var made := AllMade(ctx, AsParent(line), plan.value.children, nextId, renewing.value);
      for k := 0 to |plan.value.children|
        invariant lines == parents + made[..k] && nextId == old(nextId) + k
      {
        assert made[..k + 1] == made[..k] + [made[k]];
        lines := lines + [Made(ctx, AsParent(line), plan.value.children[k], nextId, k == renewing.value)];
        nextId := nextId + 1;
      }
      assert made[..|plan.value.children|] == made;
      stop := None;
    }
  
    /** Apply a bundle line's quantity to its children; one whose quantity was set by hand keeps it. */
    method RippleBundleQuantity(parent: nat, quantity: int, items: seq<Component>) returns (changed: nat)
      modifies this`lines
      ensures lines == RippledLines(old(lines), parent, quantity, items)
      ensures changed == ChangedCount(old(lines), parent, quantity, items)
    {
      hide PerBundle;
      changed := 0;
      for j := 0 to |lines|
        invariant |lines| == |old(lines)|
        invariant forall k :: 0 <= k < j ==> lines[k] == RippledLine(old(lines)[k], parent, quantity, items)
        invariant forall k :: j <= k < |lines| ==> lines[k] == old(lines)[k]
        invariant changed == ChangedCount(old(lines)[..j], parent, quantity, items)
      {
        var child := lines[j];
        assert old(lines)[..j + 1][..j] == old(lines)[..j];
        if !IsChildOf(child, parent) || child.quantityOverridden { continue; }
        var per := PerBundle(items, child.product);
        if per.None? { continue; }
        var target := ChildQuantity(quantity, per.value);
        if target == child.quantity { continue; }
        lines := lines[j := child.(quantity := target)];
        changed := changed + 1;
      }
      assert old(lines)[..|lines|] == old(lines);
    }
  }
}
