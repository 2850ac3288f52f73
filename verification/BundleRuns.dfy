/** What a bundle line's children hold over any run of edits, expansions and saves: a value never set by hand is the
    one the line gives now, and one set by hand stays. */
module BundleRuns {
  import opened Outcomes
  import opened Rounding
  import opened BundleBehavior
  import opened BundleEngine
  import BundleProofs
  import opened BundleEngineProofs

  /** Which child of a line its renewal goes to, as the lines stand. */
  function TargetOf(ctx: Context, lines: seq<Line>, id: nat, renews: Option<int>): Result<int, Stop> {
    RenewalComponent(ctx, renews, ProductsAt(lines, Children(lines, |lines|, id)))
  }

  predicate IsChild(lines: seq<Line>, id: nat, j: nat) { j < |lines| && IsChildOf(lines[j], id) }

  /** What line `id` gives its `j`th line, a child of it, in a field when its own values are `given`. */
  function GivenTo(ctx: Context, lines: seq<Line>, id: nat, given: Fields, j: nat, f: Field): Option<int>
    requires IsChild(lines, id, j) && TargetOf(ctx, lines, id, given.renews).Ok?
  {
    var at := Children(lines, |lines|, id);
    At(Inherited(ctx, given, lines[j], Rank(at, j) == TargetOf(ctx, lines, id, given.renews).value), f)
  }

  /** The child holds just what the line gives it. */
  predicate Follows(ctx: Context, lines: seq<Line>, id: nat, given: Fields, j: nat, f: Field) {
    && IsChild(lines, id, j) && TargetOf(ctx, lines, id, given.renews).Ok?
    && At(lines[j].fields, f) == GivenTo(ctx, lines, id, given, j, f)
  }

  // ─── The same children ────────────────────────────────────────────────────

  /** The same children of a line, with the same products. */
  predicate SameFamily(a: seq<Line>, b: seq<Line>, id: nat) {
    && Children(a, |a|, id) == Children(b, |b|, id)
    && ProductsAt(a, Children(a, |a|, id)) == ProductsAt(b, Children(b, |b|, id))
  }

  lemma SameFamilyProduct(a: seq<Line>, b: seq<Line>, id: nat, j: nat)
    requires SameFamily(a, b, id) && IsChild(a, id, j)
    ensures IsChild(b, id, j) && a[j].product == b[j].product
  {
    var at := Children(a, |a|, id);
    assert j in at;
    var k := Rank(at, j);
    assert ProductsAt(a, at)[k] == ProductsAt(b, at)[k];
  }

  lemma SameFamilyGives(ctx: Context, a: seq<Line>, b: seq<Line>, id: nat, given: Fields, j: nat, f: Field)
    requires SameFamily(a, b, id) && IsChild(a, id, j) && TargetOf(ctx, a, id, given.renews).Ok?
    ensures IsChild(b, id, j) && TargetOf(ctx, b, id, given.renews) == TargetOf(ctx, a, id, given.renews)
    ensures GivenTo(ctx, b, id, given, j, f) == GivenTo(ctx, a, id, given, j, f)
  {
    SameFamilyProduct(a, b, id, j);
    hide RenewalComponent, Children;
  }

  /** A step on another line leaves a line and its children as they were. */
  lemma OthersKeepFamily(order: Order, after: Order, n: nat, m: nat, i: nat)
    requires m < n <= |order.lines| && i < n && m != i && Identified(order)
    requires Stepped(order, after, n, m) && order.lines[i].parent.None? && order.lines[m].parent.None?
    ensures after.lines[i] == order.lines[i] && SameFamily(order.lines, after.lines, order.lines[i].id)
    ensures forall j: nat :: IsChild(order.lines, order.lines[i].id, j) ==> after.lines[j] == order.lines[j]
  {
    hide Children, SameLine;
    var id := order.lines[i].id;
    ChildrenKept(order, after, n, m, i);
    assert id != order.lines[m].id;
    forall j: nat | IsChild(order.lines, id, j) ensures after.lines[j] == order.lines[j] {
      assert order.lines[j].parent == Some(id) && j != m;
    }
    var at := Children(order.lines, |order.lines|, id);
    assert forall k :: 0 <= k < |at| ==> IsChild(order.lines, id, at[k]);
  }

  // ─── One step of the pass ─────────────────────────────────────────────────

  /** What a refreshed child holds in a field. */
  lemma RefreshedField(ctx: Context, parent: Line, row: Line, was: bool, renewing: bool, child: Option<PlannedChild>, f: Field)
    ensures var after := RefreshedRow(ctx, parent, row, was, renewing, child);
            var before, now := Inherited(ctx, parent.saved, row, was), Inherited(ctx, parent.fields, row, renewing);
            && after.product == row.product && after.parent == row.parent
            && At(after.fields, f) == if FieldFollows(row.fields, before, now, f) then At(now, f) else At(row.fields, f)
  {
    BundleProofs.RefreshedAt(row.fields, Inherited(ctx, parent.saved, row, was), Inherited(ctx, parent.fields, row, renewing), f);
    hide RefreshOf, Inherited;
  }

  /** A child that had the line's saved value takes its new one; any other value stays. */
  predicate Moved(ctx: Context, before: seq<Line>, after: seq<Line>, parent: Line, j: nat, f: Field) {
    && IsChild(before, parent.id, j) && IsChild(after, parent.id, j)
    && TargetOf(ctx, before, parent.id, parent.saved.renews).Ok? && TargetOf(ctx, before, parent.id, parent.fields.renews).Ok?
    && At(after[j].fields, f) == if Follows(ctx, before, parent.id, parent.saved, j, f)
                                 then GivenTo(ctx, before, parent.id, parent.fields, j, f) else At(before[j].fields, f)
  }

  lemma FamilyAmongFirst(order: Order, n: nat, i: nat)
    requires i < n <= |order.lines| && MadeBefore(order.lines, n, i)
    ensures var lines := order.lines[i := AsParent(order.lines[i])];
            && Children(lines, n, order.lines[i].id) == Children(order.lines, |order.lines|, order.lines[i].id)
            && ProductsAt(lines, Children(lines, n, order.lines[i].id))
            == ProductsAt(order.lines, Children(order.lines, |order.lines|, order.lines[i].id))
  {
    var lines, id := order.lines[i := AsParent(order.lines[i])], order.lines[i].id;
    SameChildren(lines, order.lines, |order.lines|, id);
    NoMoreChildren(lines, n, |lines|, id);
  }

  /** The step that brings a line's own children up to date. */
  lemma StepMoves(ctx: Context, order: Order, n: nat, i: nat, j: nat, f: Field)
    requires i < n <= |order.lines| && Identified(order) && MadeBefore(order.lines, n, i)
    requires PlanOf(ctx, order.lines[i]).Ok? && ExpandAt(ctx, order, n, i).Ok? && IsChild(order.lines, order.lines[i].id, j)
    ensures var after := ExpandAt(ctx, order, n, i).value;
            && |after.lines| == |order.lines| && after.lines[i] == AsParent(order.lines[i])
            && SameFamily(order.lines, after.lines, order.lines[i].id)
            && Moved(ctx, order.lines, after.lines, order.lines[i], j, f)
  {
    hide RefreshedRow, Refreshed, RenewalComponent, ExpansionOf, Assignment, Inherited, FieldFollows;
    var line, plan := order.lines[i], PlanOf(ctx, order.lines[i]);
    var lines, parent := order.lines[i := AsParent(line)], AsParent(line);
    FamilyAmongFirst(order, n, i);
    var at := Children(lines, n, line.id);
    assert j in Children(order.lines, |order.lines|, line.id);
    assert at != [];
    var products := ProductsAt(lines, at);
    var was, renewing := RenewalComponent(ctx, line.saved.renews, products).value, RenewalComponent(ctx, line.fields.renews, products).value;
    var after := ExpandAt(ctx, order, n, i).value;
    assert after.lines == Refreshed(ctx, lines, parent, at, was, renewing, plan.value.children);
    PlannedHasNoParent(ctx, line);
    ExpandSteps(ctx, order, n, i);
    RefreshedElsewhere(ctx, lines, parent, at, was, renewing, plan.value.children);
    SameChildrenAfter(order, after, n, i);
    forall k | 0 <= k < |at| ensures after.lines[at[k]].product == order.lines[at[k]].product {
      assert SameLine(order.lines[at[k]], after.lines[at[k]]);
    }
    assert ProductsAt(after.lines, at) == ProductsAt(order.lines, at);
    var k := Rank(at, j);
    RefreshedAt(ctx, lines, parent, at, was, renewing, plan.value.children, k);
    RefreshedField(ctx, parent, lines[j], k == was, k == renewing, Assignment(products, plan.value.children)[k], f);
    FollowsOrNot(ctx, order.lines, line, j, f, at, k, was, renewing);
  }

  lemma FollowsOrNot(ctx: Context, lines: seq<Line>, line: Line, j: nat, f: Field, at: seq<nat>, k: nat, was: int, renewing: int)
    requires IsChild(lines, line.id, j) && at == Children(lines, |lines|, line.id) && j in at && k == Rank(at, j)
    requires TargetOf(ctx, lines, line.id, line.saved.renews) == Ok(was)
    requires TargetOf(ctx, lines, line.id, line.fields.renews) == Ok(renewing)
    ensures var before, now := Inherited(ctx, line.saved, lines[j], k == was), Inherited(ctx, line.fields, lines[j], k == renewing);
            (if FieldFollows(lines[j].fields, before, now, f) then At(now, f) else At(lines[j].fields, f))
            == if Follows(ctx, lines, line.id, line.saved, j, f) then GivenTo(ctx, lines, line.id, line.fields, j, f) else At(lines[j].fields, f)
  {
    hide Inherited, RenewalComponent, Children;
  }

  // ─── The whole pass ───────────────────────────────────────────────────────

  lemma PlainStep(ctx: Context, order: Order, n: nat, m: nat)
    requires m < n <= |order.lines| && ExpandAt(ctx, order, n, m).Ok?
    ensures order.lines[m].parent.Some? ==> ExpandAt(ctx, order, n, m) == Ok(order)
  {
    PlannedHasNoParent(ctx, order.lines[m]);
  }

  /** Once a line is behind the pass it and its children stay as they are. */
  lemma {:induction false} PassKeeps(ctx: Context, order: Order, n: nat, a: nat, i: nat)
    requires i < a <= n <= |order.lines| && Identified(order) && order.lines[i].parent.None?
    requires ExpandFrom(ctx, order, n, a).Ok?
    ensures var after := ExpandFrom(ctx, order, n, a).value;
            && |after.lines| >= |order.lines| && after.lines[i] == order.lines[i]
            && SameFamily(order.lines, after.lines, order.lines[i].id)
            && forall j: nat :: IsChild(order.lines, order.lines[i].id, j) ==> after.lines[j] == order.lines[j]
    decreases n - a
  {
    if a < n {
      hide ExpandAt, Children;
      var next := ExpandAt(ctx, order, n, a).value;
      StepKeeps(ctx, order, n, a, i);
      PassKeeps(ctx, next, n, a + 1, i);
      forall j: nat | IsChild(order.lines, order.lines[i].id, j)
        ensures ExpandFrom(ctx, order, n, a).value.lines[j] == order.lines[j]
      {
        assert IsChild(next.lines, next.lines[i].id, j);
      }
    }
  }

  lemma StepKeeps(ctx: Context, order: Order, n: nat, m: nat, i: nat)
    requires m < n <= |order.lines| && i < n && m != i && Identified(order) && order.lines[i].parent.None?
    requires ExpandAt(ctx, order, n, m).Ok?
    ensures var next := ExpandAt(ctx, order, n, m).value;
            && |next.lines| >= |order.lines| && Identified(next)
            && next.lines[i] == order.lines[i] && SameFamily(order.lines, next.lines, order.lines[i].id)
            && forall j: nat :: IsChild(order.lines, order.lines[i].id, j) ==> next.lines[j] == order.lines[j]
  {
    hide ExpandAt;
    PlainStep(ctx, order, n, m);
    ExpandSteps(ctx, order, n, m);
    StaysIdentified(order, ExpandAt(ctx, order, n, m).value, n, m);
    if order.lines[m].parent.None? { OthersKeepFamily(order, ExpandAt(ctx, order, n, m).value, n, m, i); }
  }

  lemma MovedThrough(ctx: Context, a: seq<Line>, b: seq<Line>, c: seq<Line>, parent: Line, j: nat, f: Field)
    requires SameFamily(a, b, parent.id) && IsChild(a, parent.id, j) && j < |b| && b[j] == a[j] && Moved(ctx, b, c, parent, j, f)
    ensures Moved(ctx, a, c, parent, j, f)
  {
    hide Children, RenewalComponent, GivenTo, TargetOf;
    SameTarget(ctx, a, b, parent.id, parent.saved.renews);
    SameTarget(ctx, a, b, parent.id, parent.fields.renews);
    SameFamilyGives(ctx, a, b, parent.id, parent.saved, j, f);
    SameFamilyGives(ctx, a, b, parent.id, parent.fields, j, f);
  }

  lemma SameTarget(ctx: Context, a: seq<Line>, b: seq<Line>, id: nat, renews: Option<int>)
    requires SameFamily(a, b, id)
    ensures TargetOf(ctx, a, id, renews) == TargetOf(ctx, b, id, renews)
  {
  }

  /** The pass moves a line's children as the step on that line does. */
  lemma {:induction false} PassMoves(ctx: Context, order: Order, n: nat, a: nat, i: nat, j: nat, f: Field)
    requires a <= i < n <= |order.lines| && Identified(order) && MadeBefore(order.lines, n, a)
    requires PlanOf(ctx, order.lines[i]).Ok? && ExpandFrom(ctx, order, n, a).Ok? && IsChild(order.lines, order.lines[i].id, j)
    ensures var after := ExpandFrom(ctx, order, n, a).value;
            && |after.lines| >= |order.lines| && after.lines[i] == AsParent(order.lines[i])
            && SameFamily(order.lines, after.lines, order.lines[i].id)
            && Moved(ctx, order.lines, after.lines, order.lines[i], j, f)
    decreases n - a
  {
    hide ExpandAt, Children, ExpansionOf, Moved;
    PlannedHasNoParent(ctx, order.lines[i]);
    var next := ExpandAt(ctx, order, n, a).value;
    if a < i {
      StepKeeps(ctx, order, n, a, i);
      ExpandSteps(ctx, order, n, a);
      StaysMadeBefore(order, next, n, a);
      assert IsChild(next.lines, next.lines[i].id, j);
      PassMoves(ctx, next, n, a + 1, i, j, f);
      MovedThrough(ctx, order.lines, next.lines, ExpandFrom(ctx, order, n, a).value.lines, order.lines[i], j, f);
    } else {
      StepMoves(ctx, order, n, i, j, f);
      ExpandSteps(ctx, order, n, i);
      StaysIdentified(order, next, n, i);
      PassKeeps(ctx, next, n, i + 1, i);
      MovedOn(ctx, order.lines, next.lines, ExpandFrom(ctx, order, n, a).value.lines, order.lines[i], j, f);
    }
  }

  lemma MovedOn(ctx: Context, a: seq<Line>, b: seq<Line>, c: seq<Line>, parent: Line, j: nat, f: Field)
    requires Moved(ctx, a, b, parent, j, f) && j < |c| && (IsChild(b, parent.id, j) ==> c[j] == b[j])
    ensures Moved(ctx, a, c, parent, j, f)
  {
  }

  // ─── Children just made ───────────────────────────────────────────────────

  /** Every child of the line holds what the line gives it, in every field. */
  ghost predicate AllFollow(ctx: Context, lines: seq<Line>, id: nat, given: Fields) {
    forall j: nat, f :: IsChild(lines, id, j) ==> Follows(ctx, lines, id, given, j, f)
  }

  lemma MadeField(ctx: Context, parent: Line, planned: seq<PlannedChild>, nextId: nat, renewing: int, k: nat)
    requires k < |planned|
    ensures var row := AllMade(ctx, parent, planned, nextId, renewing)[k];
            && IsChildOf(row, parent.id) && row.product == planned[k].product
            && row.fields == Inherited(ctx, parent.fields, row, k == renewing)
  {
  }

  lemma AppendedFollow(ctx: Context, lines: seq<Line>, made: seq<Line>, parent: Line, planned: seq<PlannedChild>, renewing: int)
    requires |made| == |planned| > 0 && Children(lines, |lines|, parent.id) == []
    requires RenewalComponent(ctx, parent.fields.renews, ProductsOf(planned)) == Ok(renewing)
    requires forall k :: 0 <= k < |made| ==> IsChildOf(made[k], parent.id) && made[k].product == planned[k].product
    requires forall k :: 0 <= k < |made| ==> made[k].fields == Inherited(ctx, parent.fields, made[k], k == renewing)
    ensures AllFollow(ctx, lines + made, parent.id, parent.fields)
  {
    hide RenewalComponent, Children, ProductsAt, ProductsOf, Inherited;
    Appended(lines, made, parent.id);
    AppendedProducts(lines, made, planned);
    var all, at := lines + made, From(|lines|, |lines| + |made|);
    forall j: nat, f | IsChild(all, parent.id, j) ensures Follows(ctx, all, parent.id, parent.fields, j, f) {
      assert j in at;
      var k := Rank(at, j);
      assert all[j] == made[k];
    }
  }

  lemma StepMakes(ctx: Context, order: Order, n: nat, i: nat)
    requires i < n <= |order.lines| && Identified(order) && MadeBefore(order.lines, n, i)
    requires PlanOf(ctx, order.lines[i]).Ok? && ExpandAt(ctx, order, n, i).Ok?
    requires Children(order.lines, |order.lines|, order.lines[i].id) == []
    ensures var after := ExpandAt(ctx, order, n, i).value;
            && |after.lines| > i && after.lines[i] == AsParent(order.lines[i])
            && AllFollow(ctx, after.lines, order.lines[i].id, order.lines[i].fields)
  {
    hide RenewalComponent, ExpansionOf, AllMade, AllFollow;
    var line, plan := order.lines[i], PlanOf(ctx, order.lines[i]);
    var lines, parent, planned := order.lines[i := AsParent(line)], AsParent(line), plan.value.children;
    FamilyAmongFirst(order, n, i);
    var renewing := RenewalComponent(ctx, line.fields.renews, ProductsOf(planned)).value;
    var made := AllMade(ctx, parent, planned, order.nextId, renewing);
    PlannedHasNoParent(ctx, line);
    SameChildren(lines, order.lines, |lines|, line.id);
    forall k | 0 <= k < |made|
      ensures IsChildOf(made[k], parent.id) && made[k].product == planned[k].product
      ensures made[k].fields == Inherited(ctx, parent.fields, made[k], k == renewing)
    {
      MadeField(ctx, parent, planned, order.nextId, renewing, k);
    }
    AppendedFollow(ctx, lines, made, parent, planned, renewing);
    assert ExpandAt(ctx, order, n, i).value.lines == lines + made && (lines + made)[i] == parent;
  }

  lemma FamilyFollows(ctx: Context, a: seq<Line>, b: seq<Line>, id: nat, given: Fields)
    requires SameFamily(a, b, id) && AllFollow(ctx, a, id, given)
    requires forall j: nat :: IsChild(a, id, j) ==> j < |b| && b[j].fields == a[j].fields
    ensures AllFollow(ctx, b, id, given)
  {
    hide Children, RenewalComponent, GivenTo, TargetOf;
    forall j: nat, f | IsChild(b, id, j) ensures Follows(ctx, b, id, given, j, f) {
      SameFamilyProduct(b, a, id, j);
      assert Follows(ctx, a, id, given, j, f);
      SameFamilyGives(ctx, a, b, id, given, j, f);
    }
  }

  lemma {:induction false} PassMakes(ctx: Context, order: Order, n: nat, a: nat, i: nat)
    requires a <= i < n <= |order.lines| && Identified(order) && MadeBefore(order.lines, n, a)
    requires PlanOf(ctx, order.lines[i]).Ok? && ExpandFrom(ctx, order, n, a).Ok?
    requires Children(order.lines, |order.lines|, order.lines[i].id) == []
    ensures var after := ExpandFrom(ctx, order, n, a).value;
            && |after.lines| > i && after.lines[i] == AsParent(order.lines[i])
            && AllFollow(ctx, after.lines, order.lines[i].id, order.lines[i].fields)
    decreases n - a
  {
    hide ExpandAt, Children, ExpansionOf, AllFollow;
    PlannedHasNoParent(ctx, order.lines[i]);
    var next := ExpandAt(ctx, order, n, a).value;
    ExpandSteps(ctx, order, n, a);
    if a < i {
      StepKeeps(ctx, order, n, a, i);
      StaysMadeBefore(order, next, n, a);
      PassMakes(ctx, next, n, a + 1, i);
    } else {
      StepMakes(ctx, order, n, i);
      StaysIdentified(order, next, n, i);
      PassKeeps(ctx, next, n, i + 1, i);
      FamilyFollows(ctx, next.lines, ExpandFrom(ctx, order, n, a).value.lines, order.lines[i].id, order.lines[i].fields);
    }
  }

  // ─── Runs of edits and saves ──────────────────────────────────────────────

  /** A saved line's child holds what the line's own values give it. */
  predicate HoldsGiven(ctx: Context, order: Order, i: nat, j: nat, f: Field) {
    && i < |order.lines| && order.lines[i].saved == order.lines[i].fields
    && Follows(ctx, order.lines, order.lines[i].id, order.lines[i].fields, j, f)
  }

  lemma SavedFamily(order: Order, id: nat)
    ensures SameFamily(order.lines, Save(order).lines, id)
  {
    var lines, saved := order.lines, Save(order).lines;
    SavedChildren(lines, saved, |lines|, id);
    assert ProductsAt(saved, Children(lines, |lines|, id)) == ProductsAt(lines, Children(lines, |lines|, id));
  }

  lemma SavedFollows(ctx: Context, order: Order, i: nat, j: nat, f: Field)
    requires i < |order.lines| && Follows(ctx, order.lines, order.lines[i].id, order.lines[i].fields, j, f)
    ensures HoldsGiven(ctx, Save(order), i, j, f)
  {
    hide Children, RenewalComponent, GivenTo, TargetOf;
    var id := order.lines[i].id;
    SavedFamily(order, id);
    SameFamilyGives(ctx, order.lines, Save(order).lines, id, order.lines[i].fields, j, f);
  }

  /** The children a bundle line is first expanded into hold what it gives them, in every field. */
  lemma MadeChildrenFollow(ctx: Context, order: Order, i: nat, j: nat, f: Field)
    requires Identified(order) && Expand(ctx, order).Ok? && i < |order.lines| && PlanOf(ctx, order.lines[i]).Ok?
    requires Children(order.lines, |order.lines|, order.lines[i].id) == []
    requires IsChild(Expand(ctx, order).value.lines, order.lines[i].id, j)
    ensures HoldsGiven(ctx, Save(Expand(ctx, order).value), i, j, f)
  {
    hide ExpandFrom, ExpansionOf, Children, Follows;
    PassMakes(ctx, order, |order.lines|, 0, i);
    SavedFollows(ctx, Expand(ctx, order).value, i, j, f);
  }

  /** Between one save and the next anything may change but what the lines are and, of a field of one child, its
      value. Lines may be added, but not to this line's children. */
  predicate Edited(saved: Order, edited: Order, i: nat, j: nat, f: Field) {
    && i < |saved.lines| <= |edited.lines| && j < |saved.lines| && Identified(edited)
    && (forall m :: 0 <= m < |saved.lines| ==> SameEntry(saved.lines[m], edited.lines[m]))
    && (forall m :: |saved.lines| <= m < |edited.lines| ==> !IsChildOf(edited.lines[m], saved.lines[i].id))
    && At(edited.lines[j].fields, f) == At(saved.lines[j].fields, f)
  }

  predicate SameEntry(a: Line, b: Line) { a.id == b.id && a.product == b.product && a.parent == b.parent && a.saved == b.saved }

  /** The catalog may change meanwhile; what sells a subscription does not. */
  predicate SameRules(a: Context, b: Context) { a.subscriptions == b.subscriptions && a.targets == b.targets }

  lemma EditedFamily(saved: Order, edited: Order, i: nat, j: nat, f: Field)
    requires Edited(saved, edited, i, j, f)
    ensures SameFamily(saved.lines, edited.lines, saved.lines[i].id)
  {
    var id, n := saved.lines[i].id, |saved.lines|;
    forall m | 0 <= m < n ensures IsChildOf(edited.lines[m], id) <==> IsChildOf(saved.lines[m], id) {
      assert SameEntry(saved.lines[m], edited.lines[m]);
    }
    SameChildren(edited.lines, saved.lines, n, id);
    NoMoreChildren(edited.lines, n, |edited.lines|, id);
    var at := Children(saved.lines, n, id);
    forall k | 0 <= k < |at| ensures edited.lines[at[k]].product == saved.lines[at[k]].product {
      assert SameEntry(saved.lines[at[k]], edited.lines[at[k]]);
    }
    assert ProductsAt(edited.lines, at) == ProductsAt(saved.lines, at);
  }

  lemma SameRulesGive(a: Context, b: Context, lines: seq<Line>, id: nat, given: Fields, j: nat, f: Field)
    requires SameRules(a, b)
    ensures Follows(a, lines, id, given, j, f) == Follows(b, lines, id, given, j, f)
  {
    hide Children;
  }

  /** One edit, expansion and save: a child that held what it was given holds what it is given now, and one that
      did not is as it was. */
  lemma ResaveMoves(ctx: Context, saved: Order, edited: Order, i: nat, j: nat, f: Field)
    requires Edited(saved, edited, i, j, f) && saved.lines[i].saved == saved.lines[i].fields
    requires Expand(ctx, edited).Ok? && PlanOf(ctx, edited.lines[i]).Ok? && IsChild(saved.lines, saved.lines[i].id, j)
    ensures var after := Save(Expand(ctx, edited).value);
            && |after.lines| >= |edited.lines| && after.lines[i].id == saved.lines[i].id && IsChild(after.lines, saved.lines[i].id, j)
            && after.lines[i].fields == after.lines[i].saved == edited.lines[i].fields
            && if HoldsGiven(ctx, saved, i, j, f) then HoldsGiven(ctx, after, i, j, f)
               else At(after.lines[j].fields, f) == At(saved.lines[j].fields, f)
  {
    hide ExpandFrom, ExpansionOf, Children, GivenTo, TargetOf, RenewalComponent;
    var id := saved.lines[i].id;
    assert SameEntry(saved.lines[i], edited.lines[i]) && SameEntry(saved.lines[j], edited.lines[j]);
    EditedFamily(saved, edited, i, j, f);
    PassMoves(ctx, edited, |edited.lines|, 0, i, j, f);
    var passed := Expand(ctx, edited).value;
    SavedFamily(passed, id);
    if Follows(ctx, saved.lines, id, saved.lines[i].fields, j, f) {
      SameFamilyGives(ctx, saved.lines, edited.lines, id, saved.lines[i].saved, j, f);
      SameFamilyGives(ctx, edited.lines, passed.lines, id, edited.lines[i].fields, j, f);
      SavedFollows(ctx, passed, i, j, f);
    } else if Follows(ctx, edited.lines, id, edited.lines[i].saved, j, f) {
      SameTarget(ctx, edited.lines, saved.lines, id, saved.lines[i].saved.renews);
      SameFamilyGives(ctx, edited.lines, saved.lines, id, saved.lines[i].saved, j, f);
      assert false;
    }
  }

  /** A run of edits, each expanded and saved while the line is still a bundle that expands. */
  ghost predicate Run(ctxs: seq<Context>, orders: seq<Order>, edits: seq<Order>, i: nat, j: nat, f: Field) {
    && |orders| == |edits| + 1 && |ctxs| == |orders|
    && forall t :: 0 <= t < |edits| ==> Resaved(ctxs[t], ctxs[t + 1], orders[t], edits[t], orders[t + 1], i, j, f)
  }

  ghost predicate Resaved(before: Context, ctx: Context, saved: Order, edited: Order, after: Order, i: nat, j: nat, f: Field) {
    && SameRules(before, ctx) && Edited(saved, edited, i, j, f)
    && PlanOf(ctx, edited.lines[i]).Ok? && Expand(ctx, edited).Ok? && after == Save(Expand(ctx, edited).value)
  }

  lemma ResavedFollows(before: Context, ctx: Context, saved: Order, edited: Order, after: Order, i: nat, j: nat, f: Field)
    requires Resaved(before, ctx, saved, edited, after, i, j, f) && HoldsGiven(before, saved, i, j, f)
    ensures HoldsGiven(ctx, after, i, j, f)
  {
    hide Expand, Follows, Edited;
    var line := saved.lines[i];
    SameRulesGive(before, ctx, saved.lines, line.id, line.fields, j, f);
    FollowsChild(ctx, saved.lines, line.id, line.fields, j, f);
    ResaveMoves(ctx, saved, edited, i, j, f);
  }

  /** Over any run a child's field that was never set by hand holds, after every save, what the bundle line's own
      values then give it. */
  lemma {:induction false} RunFollows(ctxs: seq<Context>, orders: seq<Order>, edits: seq<Order>, i: nat, j: nat, f: Field, t: nat)
    requires Run(ctxs, orders, edits, i, j, f) && t < |orders| && HoldsGiven(ctxs[0], orders[0], i, j, f)
    ensures HoldsGiven(ctxs[t], orders[t], i, j, f)
  {
    hide HoldsGiven, Resaved;
    if t > 0 {
      RunFollows(ctxs, orders, edits, i, j, f, t - 1);
      ResavedFollows(ctxs[t - 1], ctxs[t], orders[t - 1], edits[t - 1], orders[t], i, j, f);
    }
  }

  lemma FollowsChild(ctx: Context, lines: seq<Line>, id: nat, given: Fields, j: nat, f: Field)
    requires Follows(ctx, lines, id, given, j, f)
    ensures IsChild(lines, id, j)
  {
  }

  ghost predicate SetByHand(ctxs: seq<Context>, orders: seq<Order>, i: nat, j: nat, f: Field)
    requires |ctxs| == |orders|
  {
    forall t :: 0 <= t < |orders| ==> !HoldsGiven(ctxs[t], orders[t], i, j, f)
  }

  /** A saved line with the `j`th line among its children. */
  predicate SavedParent(order: Order, i: nat, j: nat) {
    && i < |order.lines| && order.lines[i].saved == order.lines[i].fields && IsChild(order.lines, order.lines[i].id, j)
  }

  lemma ResavedKeeps(before: Context, ctx: Context, saved: Order, edited: Order, after: Order, i: nat, j: nat, f: Field)
    requires Resaved(before, ctx, saved, edited, after, i, j, f) && !HoldsGiven(before, saved, i, j, f) && SavedParent(saved, i, j)
    ensures SavedParent(after, i, j) && At(after.lines[j].fields, f) == At(saved.lines[j].fields, f)
  {
    hide Expand, Follows;
    var line := saved.lines[i];
    SameRulesGive(before, ctx, saved.lines, line.id, line.fields, j, f);
    ResaveMoves(ctx, saved, edited, i, j, f);
  }

  /** And a field set to what the line at no save gives it stays as it was set. */
  lemma {:induction false} RunKeepsSetValue(ctxs: seq<Context>, orders: seq<Order>, edits: seq<Order>, i: nat, j: nat, f: Field, t: nat)
    requires Run(ctxs, orders, edits, i, j, f) && t < |orders| && SetByHand(ctxs, orders, i, j, f)
    requires SavedParent(orders[0], i, j)
    ensures SavedParent(orders[t], i, j) && At(orders[t].lines[j].fields, f) == At(orders[0].lines[j].fields, f)
  {
    hide HoldsGiven, Resaved, At;
    if t > 0 {
      RunKeepsSetValue(ctxs, orders, edits, i, j, f, t - 1);
      hide SavedParent;
      ResavedKeeps(ctxs[t - 1], ctxs[t], orders[t - 1], edits[t - 1], orders[t], i, j, f);
    }
  }

  // ─── A save that does not expand the line ─────────────────────────────────

  /** A top line the pass has nothing to expand on stays as it is, with its children. */
  lemma {:induction false} PassSkips(ctx: Context, order: Order, n: nat, a: nat, i: nat)
    requires a <= n <= |order.lines| && i < n && Identified(order) && order.lines[i].parent.None?
    requires PlanOf(ctx, order.lines[i]).Refused? && ExpandFrom(ctx, order, n, a).Ok?
    ensures var after := ExpandFrom(ctx, order, n, a).value;
            && |after.lines| >= |order.lines| && after.lines[i] == order.lines[i]
            && SameFamily(order.lines, after.lines, order.lines[i].id)
            && forall j: nat :: IsChild(order.lines, order.lines[i].id, j) ==> after.lines[j] == order.lines[j]
    decreases n - a
  {
    if a < n {
      hide Children, ExpansionOf;
      var next := ExpandAt(ctx, order, n, a).value;
      if a == i { assert next == order; } else { StepKeeps(ctx, order, n, a, i); }
      PassSkips(ctx, next, n, a + 1, i);
      forall j: nat | IsChild(order.lines, order.lines[i].id, j)
        ensures ExpandFrom(ctx, order, n, a).value.lines[j] == order.lines[j]
      {
        assert IsChild(next.lines, next.lines[i].id, j);
      }
    }
  }

  /** Saved while its product has no components, a line leaves its children behind exactly when an edit changed
      what it gives them: no later save makes that up, as it compares with the value saved here. */
  lemma SkippedSaveFollowsExactlyWhen(ctx: Context, saved: Order, edited: Order, i: nat, j: nat, f: Field)
    requires Edited(saved, edited, i, j, f) && HoldsGiven(ctx, saved, i, j, f) && edited.lines[i].parent.None?
    requires PlanOf(ctx, edited.lines[i]).Refused? && Expand(ctx, edited).Ok?
    requires TargetOf(ctx, saved.lines, saved.lines[i].id, edited.lines[i].fields.renews).Ok?
    ensures var id := saved.lines[i].id;
            HoldsGiven(ctx, Save(Expand(ctx, edited).value), i, j, f)
            <==> GivenTo(ctx, saved.lines, id, edited.lines[i].fields, j, f) == GivenTo(ctx, saved.lines, id, saved.lines[i].fields, j, f)
  {
    hide ExpandFrom, ExpansionOf, Children, GivenTo, TargetOf, RenewalComponent;
    var id, now := saved.lines[i].id, edited.lines[i].fields;
    assert SameEntry(saved.lines[i], edited.lines[i]) && SameEntry(saved.lines[j], edited.lines[j]);
    EditedFamily(saved, edited, i, j, f);
    PassSkips(ctx, edited, |edited.lines|, 0, i);
    var passed := Expand(ctx, edited).value;
    SavedFamily(passed, id);
    SameFamilyProduct(saved.lines, edited.lines, id, j);
    SameTarget(ctx, saved.lines, edited.lines, id, now.renews);
    SameTarget(ctx, edited.lines, passed.lines, id, now.renews);
    SameFamilyGives(ctx, saved.lines, edited.lines, id, now, j, f);
    SameFamilyGives(ctx, edited.lines, passed.lines, id, now, j, f);
    SameFamilyGives(ctx, passed.lines, Save(passed).lines, id, now, j, f);
  }
}
