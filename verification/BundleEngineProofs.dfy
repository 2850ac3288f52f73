/** Expanding bundles at every save: a second pass changes nothing, hand edits survive, and a child never edited
    holds what its bundle line gives it now. */
module BundleEngineProofs {
  import opened Outcomes
  import opened Rounding
  import opened BundleBehavior
  import opened BundleEngine

  // ─── Settled lines ────────────────────────────────────────────────────────

  /** A child holds its planned values where they were not set by hand, and its parent's acknowledgment. */
  predicate SettledChild(parent: Line, row: Line, child: Option<PlannedChild>) {
    Followed(row, child) == row && (parent.acknowledges ==> row.acknowledges && row.reason == parent.reason)
  }

  /** A line expansion has nothing left to do on: no bundle, or a parent whose children are all settled. */
  ghost predicate SettledLine(ctx: Context, lines: seq<Line>, i: nat)
    requires i < |lines|
  {
    var plan := PlanOf(ctx, lines[i]);
    if plan.Refused? then !plan.reason.NestedBundle?
    else SettledParent(ctx, lines, lines[i], plan.value.children)
  }

  ghost predicate SettledParent(ctx: Context, lines: seq<Line>, parent: Line, planned: seq<PlannedChild>) {
    var at := Children(lines, |lines|, parent.id);
    && AsParent(parent) == parent && at != []
    && RenewalComponent(ctx, parent.fields.renews, ProductsAt(lines, at)).Ok?
    && forall k :: 0 <= k < |at| ==> SettledChild(parent, lines[at[k]], Assignment(ProductsAt(lines, at), planned)[k])
  }

  predicate IsSaved(lines: seq<Line>) { forall i :: 0 <= i < |lines| ==> lines[i].saved == lines[i].fields }

  lemma NothingToRefresh(fields: Fields, given: Fields)
    ensures WithChanges(fields, RefreshOf(fields, given, given)) == fields
  {
    assert RefreshOf(fields, given, given) == map[];
  }

  lemma SettledRowStays(ctx: Context, parent: Line, row: Line, renewing: bool, child: Option<PlannedChild>)
    requires parent.saved == parent.fields && SettledChild(parent, row, child)
    ensures RefreshedRow(ctx, parent, row, renewing, renewing, child) == row
  {
    NothingToRefresh(row.fields, Inherited(ctx, parent.fields, row, renewing));
  }

  /** A settled line of a saved order is left as it is. */
  lemma SettledStays(ctx: Context, order: Order, i: nat)
    requires i < |order.lines| && IsSaved(order.lines) && SettledLine(ctx, order.lines, i)
    ensures ExpandAt(ctx, order, |order.lines|, i) == Ok(order)
  {
    hide Assignment, RefreshedRow, SettledChild, ExpansionOf, RenewalComponent;
    var lines, line := order.lines, order.lines[i];
    var plan := PlanOf(ctx, line);
    if plan.Ok? {
      assert lines[i := AsParent(line)] == lines;
      var at := Children(lines, |lines|, line.id);
      var products := ProductsAt(lines, at);
      var renewing := RenewalComponent(ctx, line.fields.renews, products).value;
      var after := Refreshed(ctx, lines, line, at, renewing, renewing, plan.value.children);
      RefreshedElsewhere(ctx, lines, line, at, renewing, renewing, plan.value.children);
      forall j | 0 <= j < |lines| ensures after[j] == lines[j] {
        if j in at {
          var k := Rank(at, j);
          RefreshedAt(ctx, lines, line, at, renewing, renewing, plan.value.children, k);
          SettledRowStays(ctx, line, lines[j], k == renewing, Assignment(products, plan.value.children)[k]);
        }
      }
      assert after == lines;
    }
  }

  // ─── What a step leaves alone ─────────────────────────────────────────────

  /** The same line but for what a bundle line gives its child. */
  predicate SameLine(a: Line, b: Line) {
    a.id == b.id && a.product == b.product && a.reverses == b.reverses && a.parent == b.parent
    && a.quantityOverridden == b.quantityOverridden && a.priceOverridden == b.priceOverridden
    && (a.quantityOverridden ==> a.quantity == b.quantity) && (a.priceOverridden ==> a.unitPrice == b.unitPrice)
  }

  /** After the `i`th line is expanded: the lines there were are the same lines, only it and its children may
      differ at all, and those made are its children. */
  ghost predicate Stepped(before: Order, after: Order, n: nat, i: nat)
    requires i < n <= |before.lines|
  {
    && |before.lines| <= |after.lines| && before.nextId <= after.nextId
    && (forall j :: 0 <= j < |before.lines| ==> SameLine(before.lines[j], after.lines[j]))
    && (forall j :: 0 <= j < |before.lines| && j != i && !(j < n && IsChildOf(before.lines[j], before.lines[i].id)) ==>
          after.lines[j] == before.lines[j])
    && forall j :: |before.lines| <= j < |after.lines| ==>
         && after.lines[j].parent == Some(before.lines[i].id) && !after.lines[j].reverses
         && after.lines[j].id == before.nextId + (j - |before.lines|) < after.nextId
  }

  lemma RowSame(ctx: Context, parent: Line, row: Line, was: bool, renewing: bool, child: Option<PlannedChild>)
    ensures SameLine(row, RefreshedRow(ctx, parent, row, was, renewing, child))
  {
  }

  lemma RefreshSteps(ctx: Context, order: Order, n: nat, i: nat, was: int, renewing: int, planned: seq<PlannedChild>)
    requires i < n <= |order.lines| && order.lines[i].parent.None?
    ensures var line := order.lines[i];
            var lines := order.lines[i := AsParent(line)];
            Stepped(order, order.(lines := Refreshed(ctx, lines, AsParent(line), Children(lines, n, line.id), was, renewing, planned)), n, i)
  {
    hide Assignment, RefreshedRow, Refreshed;
    var line := order.lines[i];
    var lines := order.lines[i := AsParent(line)];
    var at := Children(lines, n, line.id);
    var after := Refreshed(ctx, lines, AsParent(line), at, was, renewing, planned);
    RefreshedElsewhere(ctx, lines, AsParent(line), at, was, renewing, planned);
    forall j | 0 <= j < |lines| ensures SameLine(order.lines[j], after[j]) {
      if j in at {
        var k := Rank(at, j);
        RefreshedAt(ctx, lines, AsParent(line), at, was, renewing, planned, k);
        RowSame(ctx, AsParent(line), lines[j], k == was, k == renewing, Assignment(ProductsAt(lines, at), planned)[k]);
      }
    }
    hide SameLine;
  }

  function Sold(components: seq<Component>): (products: seq<nat>)
    ensures |products| == |components|
  {
    seq(|components|, k requires 0 <= k < |components| => components[k].product)
  }

  lemma PlannedHasNoParent(ctx: Context, line: Line)
    ensures PlanOf(ctx, line).Ok? ==> line.parent.None? && !line.reverses && |PlanOf(ctx, line).value.children| > 0
    ensures PlanOf(ctx, line).Ok? ==> ProductsOf(PlanOf(ctx, line).value.children) == Sold(Components(ctx, line.product))
    ensures PlanOf(ctx, line) == Refused(NestedBundle) <==> Components(ctx, line.product) != [] && !line.reverses && line.parent.Some?
  {
  }

  lemma ExpandSteps(ctx: Context, order: Order, n: nat, i: nat)
    requires i < n <= |order.lines| && ExpandAt(ctx, order, n, i).Ok?
    ensures Stepped(order, ExpandAt(ctx, order, n, i).value, n, i)
  {
    hide Refreshed, RenewalComponent, ExpansionOf;
    var line := order.lines[i];
    var plan := PlanOf(ctx, line);
    PlannedHasNoParent(ctx, line);
    if plan.Ok? {
      var lines := order.lines[i := AsParent(line)];
      var at := Children(lines, n, line.id);
      if at != [] {
        var products := ProductsAt(lines, at);
        RefreshSteps(ctx, order, n, i, RenewalComponent(ctx, line.saved.renews, products).value,
                     RenewalComponent(ctx, line.fields.renews, products).value, plan.value.children);
      }
    }
  }

  // ─── Hand edits ───────────────────────────────────────────────────────────

  lemma StepSame(ctx: Context, order: Order, n: nat, i: nat, j: nat)
    requires i < n <= |order.lines| && ExpandAt(ctx, order, n, i).Ok? && j < |order.lines|
    ensures j < |ExpandAt(ctx, order, n, i).value.lines| && SameLine(order.lines[j], ExpandAt(ctx, order, n, i).value.lines[j])
  {
    hide ExpandAt;
    ExpandSteps(ctx, order, n, i);
  }

  lemma SameLineTransitive(a: Line, b: Line, c: Line)
    requires SameLine(a, b) && SameLine(b, c)
    ensures SameLine(a, c)
  {
  }

  /** A quantity or price set by hand is as it was after any expansion. */
  lemma {:induction false} HandEditsSurvive(ctx: Context, order: Order, n: nat, i: nat, j: nat)
    requires i <= n <= |order.lines| && ExpandFrom(ctx, order, n, i).Ok? && j < |order.lines|
    ensures j < |ExpandFrom(ctx, order, n, i).value.lines|
    ensures SameLine(order.lines[j], ExpandFrom(ctx, order, n, i).value.lines[j])
    decreases n - i
  {
    if i < n {
      hide ExpandAt;
      var next := ExpandAt(ctx, order, n, i).value;
      StepSame(ctx, order, n, i, j);
      HandEditsSurvive(ctx, next, n, i + 1, j);
      hide SameLine;
      SameLineTransitive(order.lines[j], next.lines[j], ExpandFrom(ctx, next, n, i + 1).value.lines[j]);
    }
  }

  // ─── Settling ─────────────────────────────────────────────────────────────

  /** Ids are distinct and below the next one. */
  predicate Identified(order: Order) {
    && (forall j :: 0 <= j < |order.lines| ==> order.lines[j].id < order.nextId)
    && forall j, k :: 0 <= j < k < |order.lines| ==> order.lines[j].id != order.lines[k].id
  }

  /** The lines made on the way belong to lines already expanded. */
  predicate MadeBefore(lines: seq<Line>, n: nat, i: nat) {
    forall m, j :: n <= m < |lines| && i <= j < n <= |lines| ==> lines[m].parent.Some? && lines[m].parent.value != lines[j].id
  }

  /** Before the `i`th of `n` lines is expanded, those before it are settled. */
  ghost predicate Stage(ctx: Context, order: Order, n: nat, i: nat) {
    && i <= n <= |order.lines| && Identified(order) && MadeBefore(order.lines, n, i)
    && forall j :: 0 <= j < i ==> SettledLine(ctx, order.lines, j)
  }

  lemma {:induction false} SameChildren(a: seq<Line>, b: seq<Line>, n: nat, id: nat)
    requires n <= |a| && n <= |b| && forall j :: 0 <= j < n ==> (IsChildOf(a[j], id) <==> IsChildOf(b[j], id))
    ensures Children(a, n, id) == Children(b, n, id)
  {
    if n > 0 { SameChildren(a, b, n - 1, id); }
  }

  lemma {:induction false} NoMoreChildren(lines: seq<Line>, n: nat, m: nat, id: nat)
    requires n <= m <= |lines| && forall j :: n <= j < m ==> !IsChildOf(lines[j], id)
    ensures Children(lines, m, id) == Children(lines, n, id)
    decreases m
  {
    if m > n { NoMoreChildren(lines, n, m - 1, id); }
  }

  lemma StillPlanned(ctx: Context, before: Line, after: Line)
    requires SameLine(before, after) && (before == after || before.parent.Some?)
    requires PlanOf(ctx, before).Refused? ==> !PlanOf(ctx, before).reason.NestedBundle?
    ensures PlanOf(ctx, after) == PlanOf(ctx, before)
  {
    if before != after {
      assert Components(ctx, before.product) == [] || before.reverses;
    }
  }

  /** Being settled depends on the children only. */
  lemma SameRowsSettled(ctx: Context, before: seq<Line>, after: seq<Line>, parent: Line, planned: seq<PlannedChild>)
    requires SettledParent(ctx, before, parent, planned)
    requires Children(after, |after|, parent.id) == Children(before, |before|, parent.id)
    requires forall j :: j in Children(before, |before|, parent.id) ==> after[j] == before[j]
    ensures SettledParent(ctx, after, parent, planned)
  {
    hide Assignment, RenewalComponent, SettledChild;
    var at := Children(before, |before|, parent.id);
    assert forall k :: 0 <= k < |at| ==> at[k] in at;
    assert ProductsAt(after, at) == ProductsAt(before, at);
  }

  /** A step on another line leaves a settled parent settled. */
  lemma ParentStaysSettled(ctx: Context, order: Order, after: Order, n: nat, i: nat, j: nat, planned: seq<PlannedChild>)
    requires i < n <= |order.lines| && j < n && j != i && Identified(order) && order.lines[i].parent.None?
    requires Stepped(order, after, n, i) && SettledParent(ctx, order.lines, order.lines[j], planned)
    ensures SettledParent(ctx, after.lines, order.lines[j], planned)
  {
    hide SettledParent, SameLine;
    var line := order.lines[j];
    ChildrenKept(order, after, n, i, j);
    var at := Children(order.lines, |order.lines|, line.id);
    forall m | m in at ensures after.lines[m] == order.lines[m] {
      assert IsChildOf(order.lines[m], line.id) && line.id != order.lines[i].id;
    }
    SameRowsSettled(ctx, order.lines, after.lines, line, planned);
  }

  /** A step on another line leaves a settled line settled. */
  lemma OthersStaySettled(ctx: Context, order: Order, after: Order, n: nat, i: nat, j: nat)
    requires i < n <= |order.lines| && j < n && j != i && Identified(order)
    requires Stepped(order, after, n, i) && SettledLine(ctx, order.lines, j)
    requires PlanOf(ctx, order.lines[i]).Ok? || after == order
    ensures SettledLine(ctx, after.lines, j)
  {
    if after != order {
      hide SettledParent, ExpansionOf;
      var line, plan := order.lines[j], PlanOf(ctx, order.lines[j]);
      PlannedHasNoParent(ctx, line);
      PlannedHasNoParent(ctx, order.lines[i]);
      assert SameLine(line, after.lines[j]);
      StillPlanned(ctx, line, after.lines[j]);
      if plan.Ok? { ParentStaysSettled(ctx, order, after, n, i, j, plan.value.children); }
    }
  }

  lemma ChildrenKept(order: Order, after: Order, n: nat, i: nat, j: nat)
    requires i < n <= |order.lines| && j < n && j != i && Identified(order) && Stepped(order, after, n, i)
    ensures Children(after.lines, |after.lines|, order.lines[j].id) == Children(order.lines, |order.lines|, order.lines[j].id)
  {
    var id := order.lines[j].id;
    assert id != order.lines[i].id;
    forall m | 0 <= m < |order.lines| ensures IsChildOf(after.lines[m], id) <==> IsChildOf(order.lines[m], id) {
      assert SameLine(order.lines[m], after.lines[m]);
    }
    SameChildren(after.lines, order.lines, |order.lines|, id);
    NoMoreChildren(after.lines, |order.lines|, |after.lines|, id);
  }

  /** A refreshed child is settled. */
  lemma RefreshedSettles(ctx: Context, parent: Line, row: Line, was: bool, renewing: bool, child: Option<PlannedChild>)
    ensures SettledChild(parent, RefreshedRow(ctx, parent, row, was, renewing, child), child)
  {
  }

  /** A line whose children are brought up to date is settled. */
  lemma RefreshSettles(ctx: Context, order: Order, n: nat, i: nat)
    requires i < n <= |order.lines| && Identified(order) && MadeBefore(order.lines, n, i)
    requires ExpandAt(ctx, order, n, i).Ok? && PlanOf(ctx, order.lines[i]).Ok?
    requires Children(order.lines[i := AsParent(order.lines[i])], n, order.lines[i].id) != []
    ensures SettledLine(ctx, ExpandAt(ctx, order, n, i).value.lines, i)
  {
    hide Assignment, RefreshedRow, Refreshed, RenewalComponent, ExpansionOf, SettledChild;
    var line, plan := order.lines[i], PlanOf(ctx, order.lines[i]);
    var lines, parent := order.lines[i := AsParent(line)], AsParent(line);
    var at, after := Children(lines, n, line.id), ExpandAt(ctx, order, n, i).value;
    var products := ProductsAt(lines, at);
    var was, renewing := RenewalComponent(ctx, line.saved.renews, products).value, RenewalComponent(ctx, line.fields.renews, products).value;
    ExpandSteps(ctx, order, n, i);
    PlannedHasNoParent(ctx, line);
    RefreshedElsewhere(ctx, lines, parent, at, was, renewing, plan.value.children);
    assert after.lines[i] == parent;
    SameChildrenAfter(order, after, n, i);
    forall k | 0 <= k < |at| ensures SettledChild(parent, after.lines[at[k]], Assignment(products, plan.value.children)[k]) {
      RefreshedAt(ctx, lines, parent, at, was, renewing, plan.value.children, k);
      RefreshedSettles(ctx, parent, lines[at[k]], k == was, k == renewing, Assignment(products, plan.value.children)[k]);
    }
    assert ProductsAt(after.lines, at) == products by {
      forall k | 0 <= k < |at| ensures after.lines[at[k]].product == lines[at[k]].product {
        assert SameLine(order.lines[at[k]], after.lines[at[k]]);
      }
    }
  }

  /** When nothing was appended, a line's children are where they were. */
  lemma SameChildrenAfter(order: Order, after: Order, n: nat, i: nat)
    requires i < n <= |order.lines| && MadeBefore(order.lines, n, i) && Stepped(order, after, n, i)
    requires |after.lines| == |order.lines|
    ensures Children(after.lines, |after.lines|, order.lines[i].id)
         == Children(order.lines[i := AsParent(order.lines[i])], n, order.lines[i].id)
  {
    var id, lines := order.lines[i].id, order.lines[i := AsParent(order.lines[i])];
    forall j | 0 <= j < |order.lines| ensures IsChildOf(after.lines[j], id) <==> IsChildOf(lines[j], id) {
      assert SameLine(order.lines[j], after.lines[j]);
    }
    SameChildren(after.lines, lines, |order.lines|, id);
    NoMoreChildren(lines, n, |lines|, id);
  }

  // ─── Children just made ───────────────────────────────────────────────────

  function From(n: nat, m: nat): (s: seq<nat>)
    requires n <= m
    ensures |s| == m - n && forall i :: 0 <= i < m - n ==> s[i] == n + i
  {
    seq(m - n, i requires 0 <= i < m - n => n + i)
  }

  lemma FromSnoc(n: nat, m: nat)
    requires n < m
    ensures From(n, m) == From(n, m - 1) + [m - 1]
  {
  }

  lemma {:induction false} MadeAreChildren(lines: seq<Line>, n: nat, m: nat, id: nat)
    requires n <= m <= |lines| && Children(lines, n, id) == [] && forall j :: n <= j < m ==> IsChildOf(lines[j], id)
    ensures Children(lines, m, id) == From(n, m)
    decreases m
  {
    if m > n {
      hide From, IsChildOf;
      MadeAreChildren(lines, n, m - 1, id);
      FromSnoc(n, m);
    }
  }

  /** Matched against the list they were made from, children take their own plan, even when products repeat. */
  lemma {:induction false} AssignsSelf(planned: seq<PlannedChild>, c: nat, so: seq<Option<PlannedChild>>)
    requires c <= |planned| == |so| && forall k :: 0 <= k < c ==> so[k] == Some(planned[k])
    ensures var unmatched := From(c, |planned|);
            Within(unmatched, |planned|)
            && Assigned(ProductsOf(planned), planned[c..], unmatched, so) == seq(|planned|, k requires 0 <= k < |planned| =>
                 if k < c then so[k] else Some(planned[k]))
    decreases |planned| - c
  {
    if c < |planned| {
      var unmatched := From(c, |planned|);
      var next := so[c := Some(planned[c])];
      assert Within(unmatched, |planned|) && unmatched[0] == c && planned[c..][0] == planned[c] && planned[c..][1..] == planned[c + 1..];
      assert FirstOf(ProductsOf(planned), unmatched, planned[c].product) == 0;
      assert Without(unmatched, 0) == From(c + 1, |planned|);
      AssignsSelf(planned, c + 1, next);
    }
  }

  lemma AssignmentOfSelf(planned: seq<PlannedChild>, k: nat)
    requires k < |planned|
    ensures Assignment(ProductsOf(planned), planned)[k] == Some(planned[k])
  {
    AssignsSelf(planned, 0, seq(|planned|, _ => None));
    assert planned[0..] == planned && From(0, |planned|) == Indices(|planned|);
  }

  lemma MadeIsSettled(ctx: Context, parent: Line, child: PlannedChild, id: nat, renewing: bool)
    ensures SettledChild(parent, Made(ctx, parent, child, id, renewing), Some(child))
    ensures Made(ctx, parent, child, id, renewing).product == child.product
    ensures IsChildOf(Made(ctx, parent, child, id, renewing), parent.id)
  {
  }

  lemma AppendedProducts(lines: seq<Line>, made: seq<Line>, planned: seq<PlannedChild>)
    requires |made| == |planned| && forall k :: 0 <= k < |made| ==> made[k].product == planned[k].product
    ensures Within(From(|lines|, |lines| + |made|), |lines + made|)
    ensures ProductsAt(lines + made, From(|lines|, |lines| + |made|)) == ProductsOf(planned)
  {
  }

  lemma Appended(lines: seq<Line>, made: seq<Line>, id: nat)
    requires Children(lines, |lines|, id) == [] && forall k :: 0 <= k < |made| ==> IsChildOf(made[k], id)
    ensures Children(lines + made, |lines + made|, id) == From(|lines|, |lines| + |made|)
  {
    var all := lines + made;
    SameChildren(all, lines, |lines|, id);
    hide Children;
    forall j | |lines| <= j < |all| ensures IsChildOf(all[j], id) { assert all[j] == made[j - |lines|]; }
    MadeAreChildren(all, |lines|, |all|, id);
  }

  lemma MadeRow(ctx: Context, parent: Line, planned: seq<PlannedChild>, nextId: nat, renewing: int, k: nat)
    requires k < |planned|
    ensures var row := AllMade(ctx, parent, planned, nextId, renewing)[k];
            && IsChildOf(row, parent.id) && row.product == planned[k].product
            && SettledChild(parent, row, Assignment(ProductsOf(planned), planned)[k])
  {
    hide Assignment, SettledChild, Made;
    MadeIsSettled(ctx, parent, planned[k], nextId + k, k == renewing);
    AssignmentOfSelf(planned, k);
  }

  /** A parent whose children were just appended, in the plan's order, is settled. */
  lemma MadeParentSettled(ctx: Context, lines: seq<Line>, made: seq<Line>, parent: Line, planned: seq<PlannedChild>)
    requires AsParent(parent) == parent && |made| == |planned| > 0 && Children(lines, |lines|, parent.id) == []
    requires RenewalComponent(ctx, parent.fields.renews, ProductsOf(planned)).Ok?
    requires forall k :: 0 <= k < |made| ==> IsChildOf(made[k], parent.id) && made[k].product == planned[k].product
    requires forall k :: 0 <= k < |made| ==> SettledChild(parent, made[k], Assignment(ProductsOf(planned), planned)[k])
    ensures SettledParent(ctx, lines + made, parent, planned)
  {
    hide Assignment, SettledChild, RenewalComponent, IsChildOf, Children, ProductsAt, ProductsOf;
    Appended(lines, made, parent.id);
    AppendedProducts(lines, made, planned);
    var at := From(|lines|, |lines| + |made|);
    forall k | 0 <= k < |at| ensures (lines + made)[at[k]] == made[k] {}
  }

  /** A line just expanded is settled. */
  lemma MadeSettles(ctx: Context, order: Order, n: nat, i: nat)
    requires i < n <= |order.lines| && Identified(order) && MadeBefore(order.lines, n, i)
    requires ExpandAt(ctx, order, n, i).Ok? && PlanOf(ctx, order.lines[i]).Ok?
    requires Children(order.lines[i := AsParent(order.lines[i])], n, order.lines[i].id) == []
    ensures SettledLine(ctx, ExpandAt(ctx, order, n, i).value.lines, i)
  {
    hide Assignment, RenewalComponent, ExpansionOf, AllMade, SettledChild, SettledParent;
    var line, plan := order.lines[i], PlanOf(ctx, order.lines[i]);
    var lines, parent, planned := order.lines[i := AsParent(line)], AsParent(line), plan.value.children;
    var renewing := RenewalComponent(ctx, line.fields.renews, ProductsOf(planned)).value;
    var made := AllMade(ctx, parent, planned, order.nextId, renewing);
    PlannedHasNoParent(ctx, line);
    NoMoreChildren(lines, n, |lines|, line.id);
    forall k | 0 <= k < |made|
      ensures IsChildOf(made[k], parent.id) && made[k].product == planned[k].product
      ensures SettledChild(parent, made[k], Assignment(ProductsOf(planned), planned)[k])
    {
      MadeRow(ctx, parent, planned, order.nextId, renewing, k);
    }
    MadeParentSettled(ctx, lines, made, parent, planned);
    assert ExpandAt(ctx, order, n, i).value.lines == lines + made && (lines + made)[i] == parent;
  }

  lemma StaysIdentified(order: Order, after: Order, n: nat, i: nat)
    requires i < n <= |order.lines| && Identified(order) && Stepped(order, after, n, i)
    ensures Identified(after)
  {
    forall j | 0 <= j < |order.lines| ensures after.lines[j].id == order.lines[j].id {
      assert SameLine(order.lines[j], after.lines[j]);
    }
  }

  /** A line made when the `i`th is expanded, or before, belongs to no line after it. */
  lemma MadeForEarlier(order: Order, after: Order, n: nat, i: nat, m: nat, j: nat)
    requires i < j < n <= |order.lines| && Identified(order) && MadeBefore(order.lines, n, i) && Stepped(order, after, n, i)
    requires n <= m < |after.lines|
    ensures after.lines[m].parent.Some? && after.lines[m].parent.value != after.lines[j].id
  {
    assert SameLine(order.lines[j], after.lines[j]) && order.lines[i].id != order.lines[j].id;
    if m < |order.lines| {
      assert SameLine(order.lines[m], after.lines[m]);
      assert order.lines[m].parent.value != order.lines[j].id;
    }
  }

  lemma StaysMadeBefore(order: Order, after: Order, n: nat, i: nat)
    requires i < n <= |order.lines| && Identified(order) && MadeBefore(order.lines, n, i) && Stepped(order, after, n, i)
    ensures MadeBefore(after.lines, n, i + 1)
  {
    forall m, j | n <= m < |after.lines| && i + 1 <= j < n <= |after.lines|
      ensures after.lines[m].parent.Some? && after.lines[m].parent.value != after.lines[j].id
    {
      MadeForEarlier(order, after, n, i, m, j);
    }
  }

  lemma ExpandSettles(ctx: Context, order: Order, n: nat, i: nat)
    requires i < n && Stage(ctx, order, n, i) && ExpandAt(ctx, order, n, i).Ok?
    ensures Stage(ctx, ExpandAt(ctx, order, n, i).value, n, i + 1)
  {
    hide SettledLine, Refreshed, RenewalComponent, ExpansionOf;
    var after, plan := ExpandAt(ctx, order, n, i).value, PlanOf(ctx, order.lines[i]);
    ExpandSteps(ctx, order, n, i);
    StaysIdentified(order, after, n, i);
    StaysMadeBefore(order, after, n, i);
    StepSettles(ctx, order, n, i);
    forall j | 0 <= j < i ensures SettledLine(ctx, after.lines, j) { OthersStaySettled(ctx, order, after, n, i, j); }
  }

  lemma StepSettles(ctx: Context, order: Order, n: nat, i: nat)
    requires i < n && Stage(ctx, order, n, i) && ExpandAt(ctx, order, n, i).Ok?
    ensures |ExpandAt(ctx, order, n, i).value.lines| > i && SettledLine(ctx, ExpandAt(ctx, order, n, i).value.lines, i)
  {
    hide Refreshed, RenewalComponent, ExpansionOf, SettledParent;
    if PlanOf(ctx, order.lines[i]).Ok? {
      if Children(order.lines[i := AsParent(order.lines[i])], n, order.lines[i].id) != [] {
        RefreshSettles(ctx, order, n, i);
      } else {
        MadeSettles(ctx, order, n, i);
      }
    }
  }

  /** Expansion leaves every line there was settled: a parent for display only, and children that hold what it
      gives them but where they were edited by hand. */
  lemma {:induction false} ExpandFromSettles(ctx: Context, order: Order, n: nat, i: nat)
    requires Stage(ctx, order, n, i) && ExpandFrom(ctx, order, n, i).Ok?
    ensures Stage(ctx, ExpandFrom(ctx, order, n, i).value, n, n)
    decreases n - i
  {
    if i < n {
      hide ExpandAt, Stage;
      ExpandSettles(ctx, order, n, i);
      ExpandFromSettles(ctx, ExpandAt(ctx, order, n, i).value, n, i + 1);
    }
  }

  /** Every line of an order as it comes in, once expansion has been through it. */
  lemma ExpandedIsSettled(ctx: Context, order: Order, i: nat)
    requires Identified(order) && Expand(ctx, order).Ok? && i < |order.lines|
    ensures Stage(ctx, Expand(ctx, order).value, |order.lines|, |order.lines|)
    ensures SettledLine(ctx, Expand(ctx, order).value.lines, i)
  {
    ExpandFromSettles(ctx, order, |order.lines|, 0);
  }

  // ─── The second save ──────────────────────────────────────────────────────

  lemma {:induction false} SavedChildren(lines: seq<Line>, saved: seq<Line>, n: nat, id: nat)
    requires n <= |lines| == |saved| && forall i :: 0 <= i < |lines| ==> saved[i] == lines[i].(saved := lines[i].fields)
    ensures Children(saved, n, id) == Children(lines, n, id)
  {
    SameChildren(saved, lines, n, id);
  }

  lemma SaveKeepsSettled(ctx: Context, order: Order, i: nat)
    requires i < |order.lines| && SettledLine(ctx, order.lines, i)
    ensures SettledLine(ctx, Save(order).lines, i)
  {
    hide Assignment, RenewalComponent, ExpansionOf;
    var lines, saved := order.lines, Save(order).lines;
    var plan := PlanOf(ctx, lines[i]);
    assert FactsOf(saved[i]) == FactsOf(lines[i]) && PlanOf(ctx, saved[i]) == plan;
    if plan.Ok? {
      SavedChildren(lines, saved, |lines|, lines[i].id);
      var at := Children(lines, |lines|, lines[i].id);
      assert ProductsAt(saved, at) == ProductsAt(lines, at);
      assert forall k :: 0 <= k < |at| ==> SettledChild(lines[i], lines[at[k]], Assignment(ProductsAt(lines, at), plan.value.children)[k]);
    }
  }

  lemma {:induction false} SettledExpandsToItself(ctx: Context, order: Order, i: nat)
    requires i <= |order.lines| && IsSaved(order.lines) && forall j :: 0 <= j < |order.lines| ==> SettledLine(ctx, order.lines, j)
    ensures ExpandFrom(ctx, order, |order.lines|, i) == Ok(order)
    decreases |order.lines| - i
  {
    if i < |order.lines| {
      hide ExpandAt, SettledLine;
      SettledStays(ctx, order, i);
      SettledExpandsToItself(ctx, order, i + 1);
    }
  }

  /** A line that is a bundle inside another stops any expansion that comes to it. */
  lemma {:induction false} NestedStops(ctx: Context, order: Order, n: nat, i: nat, j: nat)
    requires i <= j < n <= |order.lines|
    requires var line := order.lines[j]; Components(ctx, line.product) != [] && !line.reverses && line.parent.Some?
    ensures ExpandFrom(ctx, order, n, i).Refused?
    decreases n - i
  {
    if i < j && ExpandAt(ctx, order, n, i).Ok? {
      hide ExpandAt;
      ExpandSteps(ctx, order, n, i);
      assert SameLine(order.lines[j], ExpandAt(ctx, order, n, i).value.lines[j]);
      NestedStops(ctx, ExpandAt(ctx, order, n, i).value, n, i + 1, j);
    } else if i == j {
      PlannedHasNoParent(ctx, order.lines[j]);
    }
  }

  lemma {:induction false} MadeLines(ctx: Context, order: Order, n: nat, i: nat, m: nat)
    requires i <= n <= |order.lines| <= m && ExpandFrom(ctx, order, n, i).Ok? && m < |ExpandFrom(ctx, order, n, i).value.lines|
    ensures ExpandFrom(ctx, order, n, i).value.lines[m].parent.Some? && !ExpandFrom(ctx, order, n, i).value.lines[m].reverses
    decreases n - i
  {
    if i < n {
      hide ExpandAt;
      ExpandSteps(ctx, order, n, i);
      var next := ExpandAt(ctx, order, n, i).value;
      if m < |next.lines| {
        HandEditsSurvive(ctx, next, n, i + 1, m);
        assert SameLine(next.lines[m], ExpandFrom(ctx, next, n, i + 1).value.lines[m]);
      } else {
        MadeLines(ctx, next, n, i + 1, m);
      }
    }
  }

  lemma NoBundleSettled(ctx: Context, lines: seq<Line>, i: nat)
    requires i < |lines| && Components(ctx, lines[i].product) == []
    ensures SettledLine(ctx, lines, i)
  {
  }

  /** Saved and expanded again, an order is exactly what it was, unless a child made the first time is a bundle
      itself: then the second save is refused, though the first was not. */
  lemma SecondSaveExactlyWhen(ctx: Context, order: Order)
    requires Identified(order) && Expand(ctx, order).Ok?
    ensures var after := Expand(ctx, order).value;
            var made := after.lines[Min(|order.lines|, |after.lines|)..];
            && (Expand(ctx, Save(after)) == Ok(Save(after)) <==> forall m :: m in made ==> Components(ctx, m.product) == [])
            && (Expand(ctx, Save(after)).Refused? <==> exists m :: m in made && Components(ctx, m.product) != [])
  {
    hide ExpandFrom, SettledLine;
    var n, after := |order.lines|, Expand(ctx, order).value;
    ExpandFromSettles(ctx, order, n, 0);
    var made := after.lines[n..];
    if m :| m in made && Components(ctx, m.product) != [] {
      var k :| 0 <= k < |made| && made[k] == m;
      MadeLines(ctx, order, n, 0, n + k);
      NestedStops(ctx, Save(after), |after.lines|, 0, n + k);
    } else {
      forall j | 0 <= j < |after.lines| ensures SettledLine(ctx, Save(after).lines, j) {
        if j >= n {
          assert after.lines[j] == made[j - n] && made[j - n] in made;
          NoBundleSettled(ctx, after.lines, j);
        }
        SaveKeepsSettled(ctx, after, j);
      }
      SettledExpandsToItself(ctx, Save(after), 0);
    }
  }

  /** A bundle of one component that is a bundle itself: the order saves once and then never again. */
  lemma InnerBundleStopsSecondSave(outer: nat, inner: nat) returns (ctx: Context, order: Order)
    requires outer != inner
    ensures Identified(order) && Expand(ctx, order).Ok? && Expand(ctx, Save(Expand(ctx, order).value)).Refused?
  {
    var one := Component(inner, UNIT, true, 1, None);
    var blank := Fields(None, None, None, None, None, None);
    ctx := Context(map[outer := [one], inner := [one.(product := outer)]], {}, map[]);
    var line := Line(0, outer, UNIT, 100, false, None, false, false, false, false, None, 0, 0, 0, blank, blank);
    order := Order([line], 1);
    assert PlanOf(ctx, line).Ok?;
    var planned := PlanOf(ctx, line).value.children;
    assert |planned| == 1 && planned[0].product == inner;
    assert Children([AsParent(line)], 1, 0) == [];
    assert order.lines[0 := AsParent(line)] == [AsParent(line)];
    assert ExpandAt(ctx, order, 1, 0).Ok?;
    var after := ExpandAt(ctx, order, 1, 0).value;
    assert Expand(ctx, order) == Ok(after);
    assert after.lines[1].product == inner;
    SecondSaveExactlyWhen(ctx, order);
    assert after.lines[1..][0] == after.lines[1] && after.lines[1] in after.lines[1..];
  }

  // ─── What a child holds ───────────────────────────────────────────────────

  /** Each row is assigned nothing, or a planned child of its own product. */
  predicate AssignsOwn(products: seq<nat>, planned: seq<PlannedChild>, so: seq<Option<PlannedChild>>) {
    |so| == |products| && forall k :: 0 <= k < |so| && so[k].Some? ==> so[k].value in planned && so[k].value.product == products[k]
  }

  lemma {:induction false} FirstOfIs(products: seq<nat>, unmatched: seq<nat>, product: nat)
    requires Within(unmatched, |products|)
    ensures var i := FirstOf(products, unmatched, product); i >= 0 ==> products[unmatched[i]] == product
  {
    if unmatched != [] && products[unmatched[0]] != product { FirstOfIs(products, unmatched[1..], product); }
  }

  lemma {:induction false} AssignedOwn(products: seq<nat>, all: seq<PlannedChild>, planned: seq<PlannedChild>, unmatched: seq<nat>,
                                       so: seq<Option<PlannedChild>>)
    requires AssignsOwn(products, all, so) && Within(unmatched, |products|) && forall c :: c in planned ==> c in all
    ensures AssignsOwn(products, all, Assigned(products, planned, unmatched, so))
    decreases planned
  {
    if planned != [] {
      assert planned[0] in planned && forall c :: c in planned[1..] ==> c in planned;
      FirstOfIs(products, unmatched, planned[0].product);
      var i := FirstOf(products, unmatched, planned[0].product);
      if i < 0 {
        AssignedOwn(products, all, planned[1..], unmatched, so);
      } else {
        AssignedOwn(products, all, planned[1..], Without(unmatched, i), so[unmatched[i] := Some(planned[0])]);
      }
    }
  }

  /** After expansion every child matched to the bundle's plan holds, where it was not edited by hand, the quantity
      and the unit price the bundle line's own quantity and price give a component of its product now. */
  lemma UneditedHoldsPlan(ctx: Context, order: Order, i: nat, k: nat)
    requires Identified(order) && Expand(ctx, order).Ok? && i < |order.lines| <= |Expand(ctx, order).value.lines|
    requires PlanOf(ctx, Expand(ctx, order).value.lines[i]).Ok?
    requires var lines := Expand(ctx, order).value.lines; k < |Children(lines, |lines|, lines[i].id)|
    ensures var lines := Expand(ctx, order).value.lines;
            var planned, at := PlanOf(ctx, lines[i]).value.children, Children(lines, |lines|, lines[i].id);
            var child, own := lines[at[k]], Assignment(ProductsAt(lines, at), planned)[k];
            own.Some? ==>
              (own.value in planned && own.value.product == child.product
               && (child.quantityOverridden || child.quantity == own.value.quantity)
               && (child.priceOverridden || child.unitPrice == own.value.unitPrice))
  {
    hide Expand, Assigned, RenewalComponent, ExpansionOf;
    ExpandedIsSettled(ctx, order, i);
    var lines := Expand(ctx, order).value.lines;
    var planned, at := PlanOf(ctx, lines[i]).value.children, Children(lines, |lines|, lines[i].id);
    var products := ProductsAt(lines, at);
    AssignedOwn(products, planned, planned, Indices(|products|), seq(|products|, _ => None));
    assert SettledChild(lines[i], lines[at[k]], Assignment(products, planned)[k]);
  }

  // ─── Totals ───────────────────────────────────────────────────────────────

  function PricedLines(lines: seq<Line>, amounts: seq<int>): (priced: seq<Priced>)
    requires |lines| == |amounts|
    ensures |priced| == |lines|
  {
    seq(|lines|, i requires 0 <= i < |lines| => Priced(lines[i].rollup, amounts[i]))
  }

  lemma {:induction false} TotalIgnoresRollups(lines: seq<Line>, a: seq<int>, b: seq<int>)
    requires |lines| == |a| == |b| && forall i :: 0 <= i < |lines| && !lines[i].rollup ==> a[i] == b[i]
    ensures RollupTotal(PricedLines(lines, a)) == RollupTotal(PricedLines(lines, b))
  {
    if lines != [] {
      TotalIgnoresRollups(lines[1..], a[1..], b[1..]);
      assert PricedLines(lines, a)[1..] == PricedLines(lines[1..], a[1..]);
      assert PricedLines(lines, b)[1..] == PricedLines(lines[1..], b[1..]);
    }
  }

  /** Whatever amounts expanded bundle lines show, they add nothing to the order's total. */
  lemma BundleLinesAddNothing(ctx: Context, order: Order, a: seq<int>, b: seq<int>)
    requires Identified(order) && Expand(ctx, order).Ok?
    requires |a| == |b| == |Expand(ctx, order).value.lines|
    requires forall i :: 0 <= i < |a| && a[i] != b[i] ==> i < |order.lines| && PlanOf(ctx, Expand(ctx, order).value.lines[i]).Ok?
    ensures RollupTotal(PricedLines(Expand(ctx, order).value.lines, a)) == RollupTotal(PricedLines(Expand(ctx, order).value.lines, b))
  {
    hide Expand;
    var lines := Expand(ctx, order).value.lines;
    forall i | 0 <= i < |lines| && !lines[i].rollup ensures a[i] == b[i] {
      if a[i] != b[i] { ExpandedIsSettled(ctx, order, i); }
    }
    TotalIgnoresRollups(lines, a, b);
  }

  // ─── The ripple ───────────────────────────────────────────────────────────

  lemma {:induction false} PerBundleIs(items: seq<Component>, product: nat)
    ensures match PerBundle(items, product)
            case Some(quantity) => exists c :: c in items && c.product == product && c.quantity == quantity
            case None => forall c :: c in items ==> c.product != product
  {
    if items != [] {
      PerBundleIs(items[..|items| - 1], product);
      assert items[|items| - 1] in items && forall c :: c in items[..|items| - 1] ==> c in items;
      assert forall c :: c in items ==> c in items[..|items| - 1] || c == items[|items| - 1];
    }
  }

  lemma {:induction false} PerBundleFinds(items: seq<Component>, c: Component)
    requires c in items && forall d :: d in items && d.product == c.product ==> d.quantity == c.quantity
    ensures PerBundle(items, c.product) == Some(c.quantity)
  {
    PerBundleIs(items, c.product);
  }

  /** A bundle lists a product once: the table holds each bundle and component pair once. */
  predicate ListedOnce(items: seq<Component>) {
    forall c, d :: c in items && d in items && c.product == d.product ==> c == d
  }

  /** So the ripple reads every component's own quantity, though it keeps one for each product. */
  lemma RippleReadsEach(items: seq<Component>, c: Component)
    requires ListedOnce(items) && c in items
    ensures PerBundle(items, c.product) == Some(c.quantity)
  {
    PerBundleFinds(items, c);
  }

  /** What the child would hold for `quantity` bundles of what was sold to the customer. */
  predicate HoldsSold(child: Line, quantity: int, sold: seq<Component>) {
    exists c :: c in sold && c.product == child.product && child.quantity == ChildQuantity(quantity, c.quantity)
  }

  /** The catalog's component of this product still comes to the same quantity; or it was dropped, and the new
      quantity of bundles comes to the same as the old one. */
  predicate SameToday(product: nat, was: int, quantity: int, sold: seq<Component>, today: seq<Component>) {
    forall c :: c in sold && c.product == product ==> (
      if exists d :: d in today && d.product == product
      then exists d :: d in today && d.product == product && ChildQuantity(quantity, d.quantity) == ChildQuantity(quantity, c.quantity)
      else ChildQuantity(was, c.quantity) == ChildQuantity(quantity, c.quantity))
  }

  lemma ChildKeepsSoldExactlyWhen(child: Line, parent: nat, was: int, quantity: int, sold: seq<Component>, today: seq<Component>)
    requires ListedOnce(sold) && ListedOnce(today) && IsChildOf(child, parent) && !child.quantityOverridden
    requires HoldsSold(child, was, sold)
    ensures HoldsSold(RippledLine(child, parent, quantity, today), quantity, sold) <==> SameToday(child.product, was, quantity, sold, today)
  {
    var c :| c in sold && c.product == child.product && child.quantity == ChildQuantity(was, c.quantity);
    PerBundleIs(today, child.product);
    if d :| d in today && d.product == child.product { RippleReadsEach(today, d); }
    hide ChildQuantity, PerBundle;
  }

  predicate Rippling(line: Line, parent: nat) { IsChildOf(line, parent) && !line.quantityOverridden }

  /** The ripple reads today's catalog: children sold under an earlier one all come to what was sold exactly when
      every one of their components still comes to the same quantity. */
  lemma RippleKeepsSoldExactlyWhen(lines: seq<Line>, parent: nat, was: int, quantity: int, sold: seq<Component>, today: seq<Component>)
    requires ListedOnce(sold) && ListedOnce(today)
    requires forall l :: l in lines && Rippling(l, parent) ==> HoldsSold(l, was, sold)
    ensures (forall j :: 0 <= j < |lines| && Rippling(lines[j], parent) ==>
               HoldsSold(RippledLines(lines, parent, quantity, today)[j], quantity, sold))
       <==> (forall j :: 0 <= j < |lines| && Rippling(lines[j], parent) ==> SameToday(lines[j].product, was, quantity, sold, today))
  {
    hide HoldsSold, SameToday, RippledLine;
    forall j | 0 <= j < |lines| && Rippling(lines[j], parent)
      ensures HoldsSold(RippledLines(lines, parent, quantity, today)[j], quantity, sold)
         <==> SameToday(lines[j].product, was, quantity, sold, today)
    {
      ChildKeepsSoldExactlyWhen(lines[j], parent, was, quantity, sold, today);
    }
  }

  /** One of a component in each bundle when it was sold and two today: for two bundles the ripple makes four. */
  lemma RippleFollowsTheCatalog(outer: nat, part: nat) returns (ctx: Context, order: Order, today: seq<Component>)
    requires outer != part
    ensures Identified(order) && Expand(ctx, order).Ok? && |Expand(ctx, order).value.lines| == 2 && ListedOnce(today)
    ensures var child := Expand(ctx, order).value.lines[1];
            var after := RippledLines(Expand(ctx, order).value.lines, 0, 2 * UNIT, today)[1];
            Rippling(child, 0) && child.quantity == UNIT && after.quantity == 4 * UNIT
            && !HoldsSold(after, 2 * UNIT, Components(ctx, outer))
  {
    ctx, order := OneBundle(outer, part);
    var one := Component(part, UNIT, true, 1, None);
    today := [one.(quantity := 2 * UNIT)];
    hide Expand;
    RoundDivExact(2 * UNIT, UNIT);
    RoundDivExact(4 * UNIT, UNIT);
    assert today[0] in today;
    RippleReadsEach(today, today[0]);
    hide RoundDiv, PerBundle;
  }

  /** One bundle of one component, expanded into one child. */
  lemma OneBundle(outer: nat, part: nat) returns (ctx: Context, order: Order)
    requires outer != part
    ensures Components(ctx, outer) == [Component(part, UNIT, true, 1, None)] && Identified(order) && Expand(ctx, order).Ok?
    ensures var lines := Expand(ctx, order).value.lines;
            |lines| == 2 && Rippling(lines[1], 0) && lines[1].product == part && lines[1].quantity == UNIT
  {
    var one := Component(part, UNIT, true, 1, None);
    var blank := Fields(None, None, None, None, None, None);
    ctx := Context(map[outer := [one]], {}, map[]);
    var line := Line(0, outer, UNIT, 100, false, None, false, false, false, false, None, 0, 0, 0, blank, blank);
    order := Order([line], 1);
    RoundDivExact(UNIT, UNIT);
    assert PlanOf(ctx, line).Ok?;
    var planned := PlanOf(ctx, line).value.children;
    assert |planned| == 1 && planned[0].product == part && planned[0].quantity == UNIT;
    hide RoundDiv, ExpansionOf;
    assert Children([AsParent(line)], 1, 0) == [];
    assert order.lines[0 := AsParent(line)] == [AsParent(line)];
    assert Expand(ctx, order) == ExpandAt(ctx, order, 1, 0);
  }
}
