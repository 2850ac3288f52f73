/** What expanding an order's bundles answers, written out: the bundle lines, the children made and those refreshed, the
    lines left alone, which order stops it, and what a ripple writes. */
module BundleEngineResults {
  import opened Outcomes
  import opened Rounding
  import opened BundleBehavior
  import opened BundleEngine
  import opened BundleEngineProofs
  import opened BundleRuns
  import BundleProofs
  import BundleResults

  // ─── Lines that expand ────────────────────────────────────────────────────

  /** A bundle sold on a line of its own, with something to sell. */
  predicate Expands(ctx: Context, line: Line) {
    line.product in ctx.catalog && ctx.catalog[line.product] != [] && !line.reverses && line.parent.None? && line.quantity > 0
  }

  /** A bundle inside a bundle. */
  predicate Nests(ctx: Context, line: Line) {
    line.product in ctx.catalog && ctx.catalog[line.product] != [] && !line.reverses && line.parent.Some?
  }

  lemma PlanIs(ctx: Context, line: Line)
    ensures PlanOf(ctx, line).Ok? <==> Expands(ctx, line)
    ensures PlanOf(ctx, line) == Refused(NestedBundle) <==> Nests(ctx, line)
  {
    hide ChildrenOf, SplitOf, AllocationWeights;
  }

  /** What a line that expands plans: a child for each component the catalog lists, in order, so many as the line's own
      quantity makes of it, at its part of what the line comes to or at its own price. */
  lemma PlannedIs(ctx: Context, line: Line) returns (total: int)
    requires Expands(ctx, line)
    ensures PlanOf(ctx, line).Ok? && IsRounded(total, line.unitPrice * line.quantity, 10000)
    ensures var items, planned := ctx.catalog[line.product], PlanOf(ctx, line).value.children;
            && |planned| == |items|
            && forall k :: 0 <= k < |items| ==>
                 BundleResults.IsChild(LineFacts(line.quantity, line.unitPrice, false, false), items[k],
                                       SplitOf(total, AllocationWeights(items))[k], planned[k])
  {
    hide SplitOf, AllocationWeights, BundleResults.IsChild;
    PlanIs(ctx, line);
    total := BundleResults.ExpansionIs(FactsOf(line), Components(ctx, line.product));
  }

  // ─── The bundle lines ─────────────────────────────────────────────────────

  lemma StepParent(ctx: Context, order: Order, n: nat, i: nat)
    requires i < n <= |order.lines| && ExpandAt(ctx, order, n, i).Ok? && PlanOf(ctx, order.lines[i]).Ok?
    ensures var after := ExpandAt(ctx, order, n, i).value.lines;
            i < |after| && after[i] == order.lines[i].(rollup := true, discount := 0, charge := 0, tax := 0)
  {
    hide Refreshed, RenewalComponent, ExpansionOf;
    var line, plan := order.lines[i], PlanOf(ctx, order.lines[i]);
    var lines, parent := order.lines[i := AsParent(line)], AsParent(line);
    var at := Children(lines, n, line.id);
    PlannedHasNoParent(ctx, line);
    if at != [] {
      var products := ProductsAt(lines, at);
      RefreshedElsewhere(ctx, lines, parent, at, RenewalComponent(ctx, line.saved.renews, products).value,
                         RenewalComponent(ctx, line.fields.renews, products).value, plan.value.children);
    }
  }

  lemma {:induction false} PassParent(ctx: Context, order: Order, n: nat, a: nat, i: nat)
    requires a <= i < n <= |order.lines| && Identified(order) && PlanOf(ctx, order.lines[i]).Ok? && ExpandFrom(ctx, order, n, a).Ok?
    ensures var after := ExpandFrom(ctx, order, n, a).value.lines;
            i < |after| && after[i] == order.lines[i].(rollup := true, discount := 0, charge := 0, tax := 0)
    decreases n - a
  {
    hide ExpandAt, Children, ExpansionOf;
    PlannedHasNoParent(ctx, order.lines[i]);
    var next := ExpandAt(ctx, order, n, a).value;
    if a < i {
      StepKeeps(ctx, order, n, a, i);
      PassParent(ctx, next, n, a + 1, i);
    } else {
      StepParent(ctx, order, n, i);
      ExpandSteps(ctx, order, n, i);
      StaysIdentified(order, next, n, i);
      PassKeeps(ctx, next, n, i + 1, i);
    }
  }

  /** A bundle line that expands becomes a heading: it keeps everything but its own amounts. */
  lemma ParentIs(ctx: Context, order: Order, i: nat)
    requires Identified(order) && Expand(ctx, order).Ok? && i < |order.lines| && Expands(ctx, order.lines[i])
    ensures var after := Expand(ctx, order).value.lines;
            i < |after| && after[i] == order.lines[i].(rollup := true, discount := 0, charge := 0, tax := 0)
  {
    hide ExpandFrom, ExpansionOf;
    PlanIs(ctx, order.lines[i]);
    PassParent(ctx, order, |order.lines|, 0, i);
  }

  // ─── The lines left alone ─────────────────────────────────────────────────

  /** The line neither expands nor belongs to one that does. */
  predicate Apart(ctx: Context, lines: seq<Line>, j: nat)
    requires j < |lines|
  {
    !Expands(ctx, lines[j]) && forall i :: 0 <= i < |lines| && Expands(ctx, lines[i]) ==> lines[j].parent != Some(lines[i].id)
  }

  lemma {:induction false} PassLeaves(ctx: Context, order: Order, n: nat, a: nat, j: nat)
    requires a <= n <= |order.lines| && j < n && ExpandFrom(ctx, order, n, a).Ok?
    requires Identified(order) && !Expands(ctx, order.lines[j])
    requires forall i :: a <= i < n && Expands(ctx, order.lines[i]) ==> order.lines[j].parent != Some(order.lines[i].id)
    ensures var after := ExpandFrom(ctx, order, n, a).value.lines; j < |after| && after[j] == order.lines[j]
    decreases n - a
  {
    if a < n {
      hide ExpandAt, ExpansionOf, Expands;
      PlanIs(ctx, order.lines[a]);
      var next := ExpandAt(ctx, order, n, a).value;
      ExpandSteps(ctx, order, n, a);
      StaysIdentified(order, next, n, a);
      PlainRefusal(ctx, order, n, a);
      assert next.lines[j] == order.lines[j];
      forall i | a + 1 <= i < n && Expands(ctx, next.lines[i]) ensures next.lines[j].parent != Some(next.lines[i].id) {
        StillExpands(ctx, order, next, n, a, i);
      }
      PassLeaves(ctx, next, n, a + 1, j);
    }
  }

  lemma PlainRefusal(ctx: Context, order: Order, n: nat, a: nat)
    requires a < n <= |order.lines| && ExpandAt(ctx, order, n, a).Ok?
    ensures PlanOf(ctx, order.lines[a]).Refused? ==> ExpandAt(ctx, order, n, a).value == order
  {
  }

  /** A step on another line neither starts nor stops a top line expanding. */
  lemma StillExpands(ctx: Context, order: Order, next: Order, n: nat, a: nat, i: nat)
    requires a < n <= |order.lines| && i < n && i != a && Stepped(order, next, n, a)
    ensures next.lines[i].id == order.lines[i].id
    ensures Expands(ctx, next.lines[i]) <==> Expands(ctx, order.lines[i])
    ensures Nests(ctx, next.lines[i]) <==> Nests(ctx, order.lines[i])
  {
    assert SameLine(order.lines[i], next.lines[i]);
    if order.lines[i].parent.None? { assert next.lines[i] == order.lines[i]; }
  }

  /** A line that neither expands nor belongs to a line that does stays exactly as it is. */
  lemma ApartIsLeft(ctx: Context, order: Order, j: nat)
    requires Identified(order) && Expand(ctx, order).Ok? && j < |order.lines| && Apart(ctx, order.lines, j)
    ensures var after := Expand(ctx, order).value.lines; j < |after| && after[j] == order.lines[j]
  {
    PassLeaves(ctx, order, |order.lines|, 0, j);
  }

  // ─── The children made ────────────────────────────────────────────────────

  /** A child line just made of a component: what it sells and for how much as planned, in the bundle line's name, with
      its acknowledgment and what it inherits, and nothing set by hand. */
  predicate IsMade(ctx: Context, line: Line, child: PlannedChild, row: Line) {
    && row.product == child.product && row.quantity == child.quantity && row.unitPrice == child.unitPrice
    && row.parent == Some(line.id) && !row.reverses && !row.rollup && !row.quantityOverridden && !row.priceOverridden
    && row.acknowledges == line.acknowledges && row.reason == line.reason
    && row.discount == 0 && row.charge == 0 && row.tax == 0
    && row.fields.organization == line.fields.organization && row.fields.person == line.fields.person
    && row.fields.address == line.fields.address
    && row.fields.start == (if row.product in ctx.subscriptions then line.fields.start else None)
    && row.fields.action == (if row.product in ctx.subscriptions then line.fields.action else None)
    && row.fields.renews == (if line.fields.renews.Some? && line.fields.renews.value in ctx.targets
                                && ctx.targets[line.fields.renews.value] == row.product then line.fields.renews else None)
  }

  /** Where a renewal goes when it can be placed: to the one component that sells its product. */
  lemma RenewalIs(ctx: Context, renews: Option<int>, products: seq<nat>, k: nat)
    requires RenewalComponent(ctx, renews, products).Ok? && k < |products|
    ensures RenewalComponent(ctx, renews, products).value == k
       <==> renews.Some? && renews.value in ctx.targets && ctx.targets[renews.value] == products[k]
  {
    if renews.Some? {
      var at := RenewalComponent(ctx, renews, products).value;
      assert at >= 0;
      BundleProofs.RenewalPlacedExactlyWhen(ctx.targets[renews.value], products, at);
      hide PickRenewalComponent;
    }
  }

  lemma MadeIs(ctx: Context, line: Line, planned: seq<PlannedChild>, nextId: nat, k: nat)
    requires k < |planned| && RenewalComponent(ctx, line.fields.renews, ProductsOf(planned)).Ok?
    ensures var renewing := RenewalComponent(ctx, line.fields.renews, ProductsOf(planned)).value;
            var row := AllMade(ctx, AsParent(line), planned, nextId, renewing)[k];
            IsMade(ctx, line, planned[k], row) && row.id == nextId + k
  {
    RenewalIs(ctx, line.fields.renews, ProductsOf(planned), k);
    hide RenewalComponent;
  }

  lemma StepMakesEach(ctx: Context, order: Order, n: nat, i: nat)
    requires i < n <= |order.lines| && Identified(order) && MadeBefore(order.lines, n, i)
    requires PlanOf(ctx, order.lines[i]).Ok? && ExpandAt(ctx, order, n, i).Ok?
    requires Children(order.lines, |order.lines|, order.lines[i].id) == []
    ensures var after, planned := ExpandAt(ctx, order, n, i).value, PlanOf(ctx, order.lines[i]).value.children;
            && |order.lines| + |planned| == |after.lines|
            && Children(after.lines, |after.lines|, order.lines[i].id) == From(|order.lines|, |order.lines| + |planned|)
            && forall k :: 0 <= k < |planned| ==> IsMade(ctx, order.lines[i], planned[k], after.lines[|order.lines| + k])
  {
    hide RenewalComponent, ExpansionOf, AllMade, IsMade;
    var line, plan := order.lines[i], PlanOf(ctx, order.lines[i]);
    var lines, parent, planned := order.lines[i := AsParent(line)], AsParent(line), plan.value.children;
    FamilyAmongFirst(order, n, i);
    var renewing := RenewalComponent(ctx, line.fields.renews, ProductsOf(planned)).value;
    var made := AllMade(ctx, parent, planned, order.nextId, renewing);
    PlannedHasNoParent(ctx, line);
    SameChildren(lines, order.lines, |lines|, line.id);
    var after := ExpandAt(ctx, order, n, i).value;
    assert after.lines == lines + made;
    forall k | 0 <= k < |made|
      ensures IsChildOf(made[k], line.id) && IsMade(ctx, line, planned[k], after.lines[|order.lines| + k])
    {
      MadeIs(ctx, line, planned, order.nextId, k);
      MadeField(ctx, parent, planned, order.nextId, renewing, k);
      assert after.lines[|order.lines| + k] == made[k];
    }
    Appended(lines, made, line.id);
  }

  /** The children at `at` are those just made of `planned`, in its order. */
  ghost predicate MadeOf(ctx: Context, lines: seq<Line>, line: Line, planned: seq<PlannedChild>) {
    var at := Children(lines, |lines|, line.id);
    |at| == |planned| && forall k :: 0 <= k < |at| ==> IsMade(ctx, line, planned[k], lines[at[k]])
  }

  lemma SameFamilyMade(ctx: Context, a: seq<Line>, b: seq<Line>, line: Line, planned: seq<PlannedChild>)
    requires SameFamily(a, b, line.id) && MadeOf(ctx, a, line, planned)
    requires forall j: nat :: BundleRuns.IsChild(a, line.id, j) ==> j < |b| && b[j] == a[j]
    ensures MadeOf(ctx, b, line, planned)
  {
    hide Children, IsMade;
    var at := Children(a, |a|, line.id);
    forall k | 0 <= k < |at| ensures IsMade(ctx, line, planned[k], b[at[k]]) { assert BundleRuns.IsChild(a, line.id, at[k]); }
  }

  lemma {:induction false} PassMakesEach(ctx: Context, order: Order, n: nat, a: nat, i: nat)
    requires a <= i < n <= |order.lines| && Identified(order) && MadeBefore(order.lines, n, a)
    requires PlanOf(ctx, order.lines[i]).Ok? && ExpandFrom(ctx, order, n, a).Ok?
    requires Children(order.lines, |order.lines|, order.lines[i].id) == []
    ensures MadeOf(ctx, ExpandFrom(ctx, order, n, a).value.lines, order.lines[i], PlanOf(ctx, order.lines[i]).value.children)
    decreases n - a
  {
    hide ExpandAt, Children, ExpansionOf, IsMade;
    PlannedHasNoParent(ctx, order.lines[i]);
    var next := ExpandAt(ctx, order, n, a).value;
    ExpandSteps(ctx, order, n, a);
    if a < i {
      StepKeeps(ctx, order, n, a, i);
      StaysMadeBefore(order, next, n, a);
      PassMakesEach(ctx, next, n, a + 1, i);
    } else {
      StepMakesEach(ctx, order, n, i);
      StepParent(ctx, order, n, i);
      StaysIdentified(order, next, n, i);
      PassKeeps(ctx, next, n, i + 1, i);
      SameFamilyMade(ctx, next.lines, ExpandFrom(ctx, order, n, a).value.lines, order.lines[i], PlanOf(ctx, order.lines[i]).value.children);
    }
  }

  /** A bundle line without children yet gets one for each component, in order, each as planned and in the line's name. */
  lemma ChildrenMade(ctx: Context, order: Order, i: nat)
    requires Identified(order) && Expand(ctx, order).Ok? && i < |order.lines| && Expands(ctx, order.lines[i])
    requires Children(order.lines, |order.lines|, order.lines[i].id) == []
    ensures PlanOf(ctx, order.lines[i]).Ok?
    ensures MadeOf(ctx, Expand(ctx, order).value.lines, order.lines[i], PlanOf(ctx, order.lines[i]).value.children)
  {
    hide ExpandFrom, ExpansionOf, Children, MadeOf;
    PlanIs(ctx, order.lines[i]);
    PassMakesEach(ctx, order, |order.lines|, 0, i);
  }

  // ─── The children refreshed ───────────────────────────────────────────────

  predicate PlansOnce(planned: seq<PlannedChild>) {
    forall a, b :: 0 <= a < b < |planned| ==> planned[a].product != planned[b].product
  }

  predicate FirstRow(products: seq<nat>, k: nat) { k < |products| && forall r :: 0 <= r < k ==> products[r] != products[k] }

  function PlannedFor(planned: seq<PlannedChild>, product: nat): Option<PlannedChild> {
    if planned == [] then None else if planned[0].product == product then Some(planned[0]) else PlannedFor(planned[1..], product)
  }

  predicate AscendingWithin(unmatched: seq<nat>, n: nat) {
    Within(unmatched, n) && forall a, b :: 0 <= a < b < |unmatched| ==> unmatched[a] < unmatched[b]
  }

  lemma {:induction false} FirstOfIs(products: seq<nat>, unmatched: seq<nat>, product: nat)
    requires AscendingWithin(unmatched, |products|)
    ensures var i := FirstOf(products, unmatched, product);
            && (i < 0 ==> forall a :: 0 <= a < |unmatched| ==> products[unmatched[a]] != product)
            && (i >= 0 ==> products[unmatched[i]] == product && forall a :: 0 <= a < i ==> products[unmatched[a]] != product)
  {
    if unmatched != [] && products[unmatched[0]] != product {
      FirstOfIs(products, unmatched[1..], product);
      assert forall a :: 1 <= a < |unmatched| ==> unmatched[a] == unmatched[1..][a - 1];
    }
  }

  /** Rows of the products still to be matched are all unmatched. */
  predicate StillOpen(products: seq<nat>, planned: seq<PlannedChild>, unmatched: seq<nat>) {
    forall r :: 0 <= r < |products| && PlannedFor(planned, products[r]).Some? ==> r in unmatched
  }

  lemma {:induction false} NotPlanned(planned: seq<PlannedChild>, product: nat)
    requires forall a :: 0 <= a < |planned| ==> planned[a].product != product
    ensures PlannedFor(planned, product).None?
  {
    if planned != [] { NotPlanned(planned[1..], product); }
  }

  lemma OpenRows(products: seq<nat>, unmatched: seq<nat>, product: nat, i: nat, r: nat)
    requires AscendingWithin(unmatched, |products|) && i <= |unmatched| && r in unmatched && r < |products| && products[r] == product
    requires forall a :: 0 <= a < i ==> products[unmatched[a]] != product
    ensures i < |unmatched| && unmatched[i] <= r
  {
    var a :| 0 <= a < |unmatched| && unmatched[a] == r;
    assert a >= i;
  }

  lemma MatchedRow(products: seq<nat>, planned: seq<PlannedChild>, unmatched: seq<nat>, i: nat)
    requires planned != [] && AscendingWithin(unmatched, |products|) && StillOpen(products, planned, unmatched)
    requires i < |unmatched| && FirstOf(products, unmatched, planned[0].product) == i
    ensures products[unmatched[i]] == planned[0].product && FirstRow(products, unmatched[i])
  {
    FirstOfIs(products, unmatched, planned[0].product);
    forall r | 0 <= r < |products| && products[r] == planned[0].product ensures unmatched[i] <= r {
      assert r in unmatched;
      OpenRows(products, unmatched, planned[0].product, i, r);
    }
  }

  lemma WithoutOne(unmatched: seq<nat>, n: nat, i: nat)
    requires AscendingWithin(unmatched, n) && i < |unmatched|
    ensures AscendingWithin(Without(unmatched, i), n)
    ensures forall r :: r in unmatched && r != unmatched[i] ==> r in Without(unmatched, i)
  {
    var rest := Without(unmatched, i);
    forall a | 0 <= a < |rest| ensures rest[a] == unmatched[if a < i then a else a + 1] {}
    forall r | r in unmatched && r != unmatched[i] ensures r in rest {
      var a :| 0 <= a < |unmatched| && unmatched[a] == r;
      assert r == if a < i then rest[a] else rest[a - 1];
    }
  }

  lemma OthersOpen(products: seq<nat>, planned: seq<PlannedChild>, unmatched: seq<nat>, i: nat)
    requires planned != [] && PlansOnce(planned) && AscendingWithin(unmatched, |products|) && StillOpen(products, planned, unmatched)
    requires i < |unmatched| && products[unmatched[i]] == planned[0].product
    ensures AscendingWithin(Without(unmatched, i), |products|) && StillOpen(products, planned[1..], Without(unmatched, i))
  {
    WithoutOne(unmatched, |products|, i);
    NotPlanned(planned[1..], planned[0].product);
    hide Without;
    forall r | 0 <= r < |products| && PlannedFor(planned[1..], products[r]).Some? ensures r in Without(unmatched, i) {
      assert products[r] != planned[0].product && PlannedFor(planned, products[r]).Some?;
    }
  }

  /** What a row is matched to, the products being planned once each: its product's child when it is the first of it. */
  function MatchOf(products: seq<nat>, planned: seq<PlannedChild>, k: nat): Option<PlannedChild>
    requires k < |products|
  {
    if FirstRow(products, k) then PlannedFor(planned, products[k]) else None
  }

  lemma {:induction false} AssignedIs(products: seq<nat>, planned: seq<PlannedChild>, unmatched: seq<nat>, so: seq<Option<PlannedChild>>, k: nat)
    requires |so| == |products| && k < |products| && PlansOnce(planned)
    requires AscendingWithin(unmatched, |products|) && StillOpen(products, planned, unmatched)
    ensures Assigned(products, planned, unmatched, so)[k]
         == if MatchOf(products, planned, k).Some? then MatchOf(products, planned, k) else so[k]
    decreases planned
  {
    if planned != [] {
      var i := FirstOf(products, unmatched, planned[0].product);
      FirstOfIs(products, unmatched, planned[0].product);
      NotPlanned(planned[1..], planned[0].product);
      if i < 0 {
        NoneOpen(products, planned, unmatched);
        AssignedIs(products, planned[1..], unmatched, so, k);
      } else {
        MatchedRow(products, planned, unmatched, i);
        OthersOpen(products, planned, unmatched, i);
        AssignedIs(products, planned[1..], Without(unmatched, i), so[unmatched[i] := Some(planned[0])], k);
        if products[k] == planned[0].product { FirstRowUnique(products, unmatched[i], k); }
      }
    }
  }

  lemma NoneOpen(products: seq<nat>, planned: seq<PlannedChild>, unmatched: seq<nat>)
    requires planned != [] && AscendingWithin(unmatched, |products|) && StillOpen(products, planned, unmatched)
    requires forall a :: 0 <= a < |unmatched| ==> products[unmatched[a]] != planned[0].product
    ensures forall r :: 0 <= r < |products| ==> products[r] != planned[0].product
  {
    assert PlannedFor(planned, planned[0].product).Some?;
    assert forall r :: r in unmatched ==> products[r] != planned[0].product;
  }

  lemma FirstRowUnique(products: seq<nat>, r: nat, k: nat)
    requires FirstRow(products, r) && k < |products| && products[k] == products[r]
    ensures FirstRow(products, k) <==> k == r
  {
  }

  lemma AssignmentIs(products: seq<nat>, planned: seq<PlannedChild>, k: nat)
    requires k < |products| && PlansOnce(planned)
    ensures Assignment(products, planned)[k] == MatchOf(products, planned, k)
  {
    forall r | 0 <= r < |products| ensures r in Indices(|products|) { assert Indices(|products|)[r] == r; }
    AssignedIs(products, planned, Indices(|products|), seq(|products|, _ => None), k);
  }

  /** A child after its bundle line was expanded again: what was not set by hand is as planned for the first of its
      product, an acknowledged overlap reaches it, and all else but its inherited values is as it was. */
  predicate IsRefreshed(line: Line, own: Option<PlannedChild>, before: Line, after: Line) {
    after == before.(
      quantity := if own.Some? && !before.quantityOverridden then own.value.quantity else before.quantity,
      unitPrice := if own.Some? && !before.priceOverridden then own.value.unitPrice else before.unitPrice,
      acknowledges := line.acknowledges || before.acknowledges,
      reason := if line.acknowledges then line.reason else before.reason,
      fields := after.fields)
  }

  lemma RefreshedIs(ctx: Context, line: Line, row: Line, was: bool, renewing: bool, own: Option<PlannedChild>)
    ensures IsRefreshed(line, own, row, RefreshedRow(ctx, AsParent(line), row, was, renewing, own))
  {
    hide RefreshOf, Inherited;
  }

  lemma StepRefreshesEach(ctx: Context, order: Order, n: nat, i: nat, j: nat)
    requires i < n <= |order.lines| && Identified(order) && MadeBefore(order.lines, n, i)
    requires PlanOf(ctx, order.lines[i]).Ok? && ExpandAt(ctx, order, n, i).Ok? && PlansOnce(PlanOf(ctx, order.lines[i]).value.children)
    requires BundleRuns.IsChild(order.lines, order.lines[i].id, j)
    ensures RefreshedAs(ctx, order.lines, ExpandAt(ctx, order, n, i).value.lines, order.lines[i], j)
  {
    hide RefreshedRow, Refreshed, RenewalComponent, ExpansionOf, Assignment, Inherited, MatchOf;
    var line, plan := order.lines[i], PlanOf(ctx, order.lines[i]);
    var lines, parent := order.lines[i := AsParent(line)], AsParent(line);
    FamilyAmongFirst(order, n, i);
    var at := Children(lines, n, line.id);
    assert j in Children(order.lines, |order.lines|, line.id);
    var products := ProductsAt(lines, at);
    var was, renewing := RenewalComponent(ctx, line.saved.renews, products).value, RenewalComponent(ctx, line.fields.renews, products).value;
    var after := ExpandAt(ctx, order, n, i).value;
    assert after.lines == Refreshed(ctx, lines, parent, at, was, renewing, plan.value.children);
    PlannedHasNoParent(ctx, line);
    var k := Rank(at, j);
    RefreshedAt(ctx, lines, parent, at, was, renewing, plan.value.children, k);
    AssignmentIs(products, plan.value.children, k);
    RefreshedIs(ctx, line, order.lines[j], k == was, k == renewing, Assignment(products, plan.value.children)[k]);
  }

  /** The `j`th line, a child of `line`, refreshed as its place among the children says. */
  predicate RefreshedAs(ctx: Context, before: seq<Line>, after: seq<Line>, line: Line, j: nat) {
    && BundleRuns.IsChild(before, line.id, j) && PlanOf(ctx, line).Ok?
    && var at := Children(before, |before|, line.id);
       j < |after| && IsRefreshed(line, MatchOf(ProductsAt(before, at), PlanOf(ctx, line).value.children, Rank(at, j)), before[j], after[j])
  }

  lemma {:induction false} PassRefreshesEach(ctx: Context, order: Order, n: nat, a: nat, i: nat, j: nat)
    requires a <= i < n <= |order.lines| && Identified(order) && MadeBefore(order.lines, n, a)
    requires PlanOf(ctx, order.lines[i]).Ok? && ExpandFrom(ctx, order, n, a).Ok? && PlansOnce(PlanOf(ctx, order.lines[i]).value.children)
    requires BundleRuns.IsChild(order.lines, order.lines[i].id, j)
    ensures RefreshedAs(ctx, order.lines, ExpandFrom(ctx, order, n, a).value.lines, order.lines[i], j)
    decreases n - a
  {
    hide ExpandAt, Children, ExpansionOf, IsRefreshed, MatchOf;
    PlannedHasNoParent(ctx, order.lines[i]);
    var next := ExpandAt(ctx, order, n, a).value;
    ExpandSteps(ctx, order, n, a);
    if a < i {
      StepKeeps(ctx, order, n, a, i);
      StaysMadeBefore(order, next, n, a);
      assert next.lines[j] == order.lines[j];
      PassRefreshesEach(ctx, next, n, a + 1, i, j);
    } else {
      StepRefreshesEach(ctx, order, n, i, j);
      StepMoves(ctx, order, n, i, j, ShipToOrganization);
      StepParent(ctx, order, n, i);
      StaysIdentified(order, next, n, i);
      PassKeeps(ctx, next, n, i + 1, i);
      SameFamilyProduct(order.lines, next.lines, order.lines[i].id, j);
    }
  }

  /** What a plan holds when the bundle lists each component once. */
  lemma PlannedOnce(ctx: Context, line: Line)
    requires PlanOf(ctx, line).Ok? && forall a, b :: 0 <= a < b < |Components(ctx, line.product)| ==>
               Components(ctx, line.product)[a].product != Components(ctx, line.product)[b].product
    ensures PlansOnce(PlanOf(ctx, line).value.children)
  {
    hide SplitOf, AllocationWeights, BundleTotal;
  }

  /** Every child a bundle line had is refreshed from what the line holds now, and keeps all that is its own. */
  lemma ChildRefreshed(ctx: Context, order: Order, i: nat, j: nat)
    requires Identified(order) && Expand(ctx, order).Ok? && i < |order.lines| && Expands(ctx, order.lines[i])
    requires BundleRuns.IsChild(order.lines, order.lines[i].id, j)
    requires forall a, b :: 0 <= a < b < |ctx.catalog[order.lines[i].product]| ==>
               ctx.catalog[order.lines[i].product][a].product != ctx.catalog[order.lines[i].product][b].product
    ensures RefreshedAs(ctx, order.lines, Expand(ctx, order).value.lines, order.lines[i], j)
  {
    hide ExpandFrom, ExpansionOf, Children, IsRefreshed;
    PlanIs(ctx, order.lines[i]);
    PlannedOnce(ctx, order.lines[i]);
    PassRefreshesEach(ctx, order, |order.lines|, 0, i, j);
  }

  // ─── What stops an expansion ──────────────────────────────────────────────

  /** A renewal with no one place among the products: its product is not known, or not sold by exactly one of them. */
  predicate Unplaceable(ctx: Context, renews: Option<int>, products: seq<nat>) {
    && renews.Some?
    && (renews.value !in ctx.targets || ctx.targets[renews.value] !in products || BundleResults.SoldTwice(ctx.targets[renews.value], products))
  }

  lemma UnplaceableIs(ctx: Context, renews: Option<int>, products: seq<nat>)
    ensures RenewalComponent(ctx, renews, products).Refused? <==> Unplaceable(ctx, renews, products)
  {
    if renews.Some? && renews.value in ctx.targets {
      BundleResults.UnplacedExactlyWhen(ctx.targets[renews.value], products);
      hide PickRenewalComponent;
      var pick := PickRenewalComponent(ctx.targets[renews.value], products);
      assert pick.Refused? ==> pick.reason == NoComponentSellsTarget || pick.reason == SeveralComponentsSellTarget;
    }
  }

  /** The products a line's renewal is placed among: its children's, or its components' while it has none; and for the
      children what it renewed when last saved has to have its place too. */
  predicate Stops(ctx: Context, lines: seq<Line>, i: nat)
    requires i < |lines|
  {
    var line, at := lines[i], Children(lines, |lines|, lines[i].id);
    || Nests(ctx, line)
    || (Expands(ctx, line) && PlanOf(ctx, line).Ok?
        && if at == [] then Unplaceable(ctx, line.fields.renews, ProductsOf(PlanOf(ctx, line).value.children))
           else Unplaceable(ctx, line.saved.renews, ProductsAt(lines, at)) || Unplaceable(ctx, line.fields.renews, ProductsAt(lines, at)))
  }

  lemma StepStops(ctx: Context, order: Order, n: nat, i: nat)
    requires i < n <= |order.lines| && Identified(order) && MadeBefore(order.lines, n, i)
    ensures ExpandAt(ctx, order, n, i).Refused? <==> Stops(ctx, order.lines, i)
  {
    hide Refreshed, RenewalComponent, ExpansionOf, AllMade, Unplaceable;
    var line, plan := order.lines[i], PlanOf(ctx, order.lines[i]);
    PlanIs(ctx, line);
    FamilyAmongFirst(order, n, i);
    if plan.Ok? {
      var lines := order.lines[i := AsParent(line)];
      var at := Children(lines, n, line.id);
      if at == [] {
        UnplaceableIs(ctx, line.fields.renews, ProductsOf(plan.value.children));
      } else {
        UnplaceableIs(ctx, line.saved.renews, ProductsAt(lines, at));
        UnplaceableIs(ctx, line.fields.renews, ProductsAt(lines, at));
      }
    }
    hide Expands, Nests;
  }

  lemma StillStops(ctx: Context, order: Order, next: Order, n: nat, a: nat, i: nat)
    requires a < i < n <= |order.lines| && Identified(order) && ExpandAt(ctx, order, n, a) == Ok(next)
    ensures i < |next.lines| && (Stops(ctx, next.lines, i) <==> Stops(ctx, order.lines, i))
  {
    hide ExpandAt, Children, ExpansionOf, Unplaceable, Expands, Nests;
    ExpandSteps(ctx, order, n, a);
    StillExpands(ctx, order, next, n, a, i);
    if order.lines[i].parent.None? { StepKeeps(ctx, order, n, a, i); }
    TopOnly(ctx, order.lines[i]);
    TopOnly(ctx, next.lines[i]);
    assert SameLine(order.lines[i], next.lines[i]);
  }

  lemma TopOnly(ctx: Context, line: Line)
    ensures Expands(ctx, line) ==> line.parent.None?
  {
  }

  predicate StopsFrom(ctx: Context, lines: seq<Line>, a: nat, n: nat)
    requires n <= |lines|
  {
    exists i :: a <= i < n && Stops(ctx, lines, i)
  }

  lemma StepOn(ctx: Context, order: Order, n: nat, a: nat)
    requires a < n <= |order.lines| && Identified(order) && MadeBefore(order.lines, n, a) && !Stops(ctx, order.lines, a)
    ensures ExpandAt(ctx, order, n, a).Ok?
    ensures var next := ExpandAt(ctx, order, n, a).value;
            && n <= |next.lines| && Identified(next) && MadeBefore(next.lines, n, a + 1)
            && (StopsFrom(ctx, next.lines, a + 1, n) <==> StopsFrom(ctx, order.lines, a + 1, n))
  {
    hide ExpandAt, Stops, Identified, MadeBefore, Stepped;
    StepStops(ctx, order, n, a);
    var next := ExpandAt(ctx, order, n, a).value;
    ExpandSteps(ctx, order, n, a);
    StaysIdentified(order, next, n, a);
    StaysMadeBefore(order, next, n, a);
    StepGrows(order, next, n, a);
    forall i | a < i < n ensures Stops(ctx, next.lines, i) <==> Stops(ctx, order.lines, i) { StillStops(ctx, order, next, n, a, i); }
  }

  lemma StepGrows(order: Order, next: Order, n: nat, a: nat)
    requires a < n <= |order.lines| && Stepped(order, next, n, a)
    ensures |order.lines| <= |next.lines|
  {
  }

  lemma {:induction false} PassStops(ctx: Context, order: Order, n: nat, a: nat)
    requires a <= n <= |order.lines| && Identified(order) && MadeBefore(order.lines, n, a)
    ensures ExpandFrom(ctx, order, n, a).Refused? <==> StopsFrom(ctx, order.lines, a, n)
    decreases n - a
  {
    hide ExpandAt, Stops, Identified, MadeBefore;
    if a < n {
      StepStops(ctx, order, n, a);
      if !Stops(ctx, order.lines, a) {
        StepOn(ctx, order, n, a);
        PassStops(ctx, ExpandAt(ctx, order, n, a).value, n, a + 1);
      }
    }
  }

  /** An order is refused exactly when one of its lines is a bundle inside a bundle, or one that expands renews a
      subscription that has no one place among its children. */
  lemma RefusedExactlyWhen(ctx: Context, order: Order)
    requires Identified(order)
    ensures Expand(ctx, order).Refused? <==> exists i :: 0 <= i < |order.lines| && Stops(ctx, order.lines, i)
  {
    hide ExpandFrom, Stops;
    PassStops(ctx, order, |order.lines|, 0);
  }

  /** Expanded, an order's ids are still each its own. */
  lemma {:induction false} PassIdentified(ctx: Context, order: Order, n: nat, a: nat)
    requires a <= n <= |order.lines| && Identified(order) && ExpandFrom(ctx, order, n, a).Ok?
    ensures Identified(ExpandFrom(ctx, order, n, a).value)
    decreases n - a
  {
    if a < n {
      hide ExpandAt;
      ExpandSteps(ctx, order, n, a);
      StaysIdentified(order, ExpandAt(ctx, order, n, a).value, n, a);
      PassIdentified(ctx, ExpandAt(ctx, order, n, a).value, n, a + 1);
    }
  }

  // ─── What a ripple writes ─────────────────────────────────────────────────

  /** A line of a ripple: a child of the bundle line that follows takes, for a product the bundle lists, so many as the
      bundles hold now; every other line stays as it is. */
  predicate RippledAs(line: Line, parent: nat, quantity: int, items: seq<Component>, after: Line) {
    if line.parent == Some(parent) && !line.quantityOverridden && exists c :: c in items && c.product == line.product
    then after == line.(quantity := after.quantity)
         && exists c :: c in items && c.product == line.product && IsRounded(after.quantity, quantity * c.quantity, 10000)
    else after == line
  }

  lemma RippledIs(lines: seq<Line>, parent: nat, quantity: int, items: seq<Component>, j: nat)
    requires j < |lines|
    ensures RippledAs(lines[j], parent, quantity, items, RippledLines(lines, parent, quantity, items)[j])
  {
    PerBundleIs(items, lines[j].product);
    hide PerBundle;
  }

  function Moves(lines: seq<Line>, after: seq<Line>): (moved: seq<int>)
    requires |after| == |lines|
    ensures |moved| == |lines|
  {
    seq(|lines|, j requires 0 <= j < |lines| => if after[j] != lines[j] then 1 else 0)
  }

  /** And it counts the lines it changed. */
  lemma {:induction false} RippleCounts(lines: seq<Line>, parent: nat, quantity: int, items: seq<Component>)
    ensures ChangedCount(lines, parent, quantity, items) == Sum(Moves(lines, RippledLines(lines, parent, quantity, items)))
  {
    if lines != [] {
      var n := |lines| - 1;
      RippleCounts(lines[..n], parent, quantity, items);
      var all, before := RippledLines(lines, parent, quantity, items), RippledLines(lines[..n], parent, quantity, items);
      assert all[..n] == before;
      var moved := Moves(lines, all);
      assert moved[..n] == Moves(lines[..n], before) && moved[..n + 1] == moved;
      SumPrefix(moved, n);
    }
  }
}
