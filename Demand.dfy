/** The ingredient demand of a meal plan: every slot, every item of the slot, every
    ingredient of the item's recipe, each scaled by the item's multiplier. Both the
    shopping list (`generateList`) and the cook workflow (`openCookModal`) in index.tsx
    walk the plan in this order and key what they accumulate by the exact ingredient name. */
module Demand {
  import opened Types

  /** One use of an ingredient by a planned item: `Scale(ing.amount, item.multiplier)` of `ing.unit`. */
  datatype Line = Line(name: string, qty: real, unit: string)

  /** `recipes.find(r => r.id === id)`. */
  function FindRecipe(recipes: seq<Recipe>, id: string): Option<Recipe>
  {
    if recipes == [] then None
    else if recipes[0].id == id then Some(recipes[0])
    else FindRecipe(recipes[1..], id)
  }

  /** The recipe found carries the id asked for and is one of the recipes; none is found
      exactly when no recipe has that id. */
  lemma {:induction false} FindRecipeFacts(recipes: seq<Recipe>, id: string)
    ensures var r := FindRecipe(recipes, id);
      && (r.Some? ==> r.value.id == id && r.value in recipes)
      && (r.None? <==> forall k :: 0 <= k < |recipes| ==> recipes[k].id != id)
  {
    if recipes != [] && recipes[0].id != id {
      FindRecipeFacts(recipes[1..], id);
      assert forall k :: 1 <= k < |recipes| ==> recipes[k] == recipes[1..][k - 1];
    }
  }

  /** "Recipe Base * Item Multiplier": the quantity one planned item needs. */
  function Scale(amount: real, multiplier: real): real
  {
    amount * multiplier
  }

  function IngredientLines(ings: seq<Ingredient>, multiplier: real): seq<Line>
  {
    if ings == [] then []
    else
      var ing := ings[|ings| - 1];
      IngredientLines(ings[..|ings| - 1], multiplier) + [Line(ing.name, Scale(ing.amount, multiplier), ing.unit)]
  }

  /** The lines of one planned item; an item whose recipe is gone contributes nothing. */
  function ItemLines(item: MealItem, recipes: seq<Recipe>): seq<Line>
  {
    match FindRecipe(recipes, item.recipeId)
    case None => []
    case Some(r) => IngredientLines(r.ingredients, item.multiplier)
  }

  function ItemsLines(items: seq<MealItem>, recipes: seq<Recipe>): seq<Line>
  {
    if items == [] then [] else ItemLines(items[0], recipes) + ItemsLines(items[1..], recipes)
  }

  function PlanLines(slots: seq<MealSlot>, recipes: seq<Recipe>): seq<Line>
  {
    if slots == [] then [] else ItemsLines(slots[0].items, recipes) + PlanLines(slots[1..], recipes)
  }

  lemma IngredientLinesSnoc(ings: seq<Ingredient>, k: nat, multiplier: real)
    requires k < |ings|
    ensures IngredientLines(ings[..k + 1], multiplier)
      == IngredientLines(ings[..k], multiplier) + [Line(ings[k].name, Scale(ings[k].amount, multiplier), ings[k].unit)]
  {
    assert ings[..k + 1][..k] == ings[..k];
  }

  lemma ItemsLinesSnoc(items: seq<MealItem>, j: nat, recipes: seq<Recipe>)
    requires j < |items|
    ensures ItemsLines(items[..j + 1], recipes) == ItemsLines(items[..j], recipes) + ItemLines(items[j], recipes)
  {
    assert items[..j + 1] == items[..j] + [items[j]];
    ItemsLinesAppend(items[..j], [items[j]], recipes);
    assert ItemsLines([items[j]], recipes) == ItemLines(items[j], recipes) + [];
  }

  lemma PlanLinesSnoc(plans: seq<MealSlot>, i: nat, recipes: seq<Recipe>)
    requires i < |plans|
    ensures PlanLines(plans[..i + 1], recipes) == PlanLines(plans[..i], recipes) + ItemsLines(plans[i].items, recipes)
  {
    assert plans[..i + 1] == plans[..i] + [plans[i]];
    PlanLinesAppend(plans[..i], [plans[i]], recipes);
    assert PlanLines([plans[i]], recipes) == ItemsLines(plans[i].items, recipes) + [];
  }

  /** The total quantity of `name` over `lines`. */
  function SumFor(lines: seq<Line>, name: string): real
  {
    if lines == [] then 0.0
    else SumFor(lines[..|lines| - 1], name) + (if lines[|lines| - 1].name == name then lines[|lines| - 1].qty else 0.0)
  }

  /** The unit of the last line for `name` (empty when there is none). */
  function LastUnit(lines: seq<Line>, name: string): string
  {
    if lines == [] then ""
    else if lines[|lines| - 1].name == name then lines[|lines| - 1].unit
    else LastUnit(lines[..|lines| - 1], name)
  }

  /** The index of the first line for `name` (`|lines|` when there is none). */
  function FirstLine(lines: seq<Line>, name: string): (r: nat)
    ensures r <= |lines|
    ensures r < |lines| ==> lines[r].name == name
    ensures forall k :: 0 <= k < r ==> lines[k].name != name
  {
    if lines == [] then 0
    else if lines[0].name == name then 0
    else 1 + FirstLine(lines[1..], name)
  }

  /** Some line is for `name`. */
  predicate Named(lines: seq<Line>, name: string)
  {
    FirstLine(lines, name) < |lines|
  }

  /** An entry of the `needed` map of `generateList`. */
  datatype Need = Need(name: string, amount: real, unit: string)

  /** `needed.get(name)`, as the position of the entry. */
  function FindNeed(m: seq<Need>, name: string): (r: Option<nat>)
    ensures r.Some? ==> r.value < |m| && m[r.value].name == name
  {
    if m == [] then None
    else if m[0].name == name then Some(0)
    else match FindNeed(m[1..], name)
      case None => None
      case Some(i) => Some(i + 1)
  }

  lemma {:induction false} FindNeedFacts(m: seq<Need>, name: string)
    ensures FindNeed(m, name).None? <==> forall i :: 0 <= i < |m| ==> m[i].name != name
  {
    if m != [] && m[0].name != name {
      FindNeedFacts(m[1..], name);
      assert forall i :: 1 <= i < |m| ==> m[i] == m[1..][i - 1];
    }
  }

  /** `needed.set(ing.name, ...)`: add to the entry of the same name, taking the line's
      unit, or append a new entry (a JavaScript `Map` keeps first-insertion order). */
  function AddLine(m: seq<Need>, l: Line): seq<Need>
  {
    match FindNeed(m, l.name)
    case Some(i) => m[i := Need(l.name, m[i].amount + l.qty, l.unit)]
    case None => m + [Need(l.name, l.qty, l.unit)]
  }

  /** The map `m` after accumulating `lines` into it in order. */
  function AddAll(m: seq<Need>, lines: seq<Line>): seq<Need>
  {
    if lines == [] then m else AddLine(AddAll(m, lines[..|lines| - 1]), lines[|lines| - 1])
  }

  /** The `needed` map after accumulating `lines` in order, starting empty. */
  function Aggregate(lines: seq<Line>): seq<Need>
  {
    AddAll([], lines)
  }

  lemma AddAllSnoc(m: seq<Need>, lines: seq<Line>, l: Line)
    ensures AddAll(m, lines + [l]) == AddLine(AddAll(m, lines), l)
  {
    assert (lines + [l])[..|lines|] == lines;
  }

  lemma {:induction false} AddAllAppend(m: seq<Need>, a: seq<Line>, b: seq<Line>)
    ensures AddAll(m, a + b) == AddAll(AddAll(m, a), b)
    decreases |b|
  {
    if b == [] {
      assert a + b == a;
    } else {
      var b' := b[..|b| - 1];
      assert (a + b)[..|a + b| - 1] == a + b';
      AddAllAppend(m, a, b');
    }
  }

  /** One more ingredient of a recipe adds one more line to the map. */
  lemma AddIngredientStep(m: seq<Need>, ings: seq<Ingredient>, k: nat, multiplier: real)
    requires k < |ings|
    ensures AddAll(m, IngredientLines(ings[..k + 1], multiplier))
      == AddLine(AddAll(m, IngredientLines(ings[..k], multiplier)),
                 Line(ings[k].name, Scale(ings[k].amount, multiplier), ings[k].unit))
  {
    IngredientLinesSnoc(ings, k, multiplier);
    AddAllSnoc(m, IngredientLines(ings[..k], multiplier), Line(ings[k].name, Scale(ings[k].amount, multiplier), ings[k].unit));
  }

  /** One more planned item adds its recipe's lines to the map, or nothing when the
      recipe is gone. */
  lemma AddItemStep(m: seq<Need>, items: seq<MealItem>, j: nat, recipes: seq<Recipe>)
    requires j < |items|
    ensures AddAll(m, ItemsLines(items[..j + 1], recipes))
      == match FindRecipe(recipes, items[j].recipeId)
         case Some(r) => AddAll(AddAll(m, ItemsLines(items[..j], recipes)), IngredientLines(r.ingredients, items[j].multiplier))
         case None => AddAll(m, ItemsLines(items[..j], recipes))
  {
    ItemsLinesSnoc(items, j, recipes);
    AddAllAppend(m, ItemsLines(items[..j], recipes), ItemLines(items[j], recipes));
    if FindRecipe(recipes, items[j].recipeId).None? {
      assert ItemsLines(items[..j], recipes) + ItemLines(items[j], recipes) == ItemsLines(items[..j], recipes);
    }
  }

  /** One more slot adds its items' lines to the map. */
  lemma AddSlotStep(plans: seq<MealSlot>, i: nat, recipes: seq<Recipe>)
    requires i < |plans|
    ensures Aggregate(PlanLines(plans[..i + 1], recipes))
      == AddAll(Aggregate(PlanLines(plans[..i], recipes)), ItemsLines(plans[i].items, recipes))
  {
    PlanLinesSnoc(plans, i, recipes);
    AddAllAppend([], PlanLines(plans[..i], recipes), ItemsLines(plans[i].items, recipes));
  }

  predicate DistinctNames(m: seq<Need>)
  {
    forall i, j :: 0 <= i < j < |m| ==> m[i].name != m[j].name
  }

  /** Every entry is for a name some line uses. */
  predicate OnlyUsed(lines: seq<Line>, a: seq<Need>)
  {
    forall i :: 0 <= i < |a| ==> Named(lines, a[i].name)
  }

  /** Every name a line uses has an entry. */
  predicate Covers(lines: seq<Line>, a: seq<Need>)
  {
    forall k :: 0 <= k < |lines| ==> exists i :: 0 <= i < |a| && a[i].name == lines[k].name
  }

  predicate Totals(lines: seq<Line>, a: seq<Need>)
  {
    forall i :: 0 <= i < |a| ==> a[i].amount == SumFor(lines, a[i].name)
  }

  predicate LastUnits(lines: seq<Line>, a: seq<Need>)
  {
    forall i :: 0 <= i < |a| ==> a[i].unit == LastUnit(lines, a[i].name)
  }

  predicate FirstUseOrder(lines: seq<Line>, a: seq<Need>)
  {
    forall i, j :: 0 <= i < j < |a| ==> FirstLine(lines, a[i].name) < FirstLine(lines, a[j].name)
  }

  /** What the accumulated map means: one entry per ingredient name used, holding that
      name's total quantity and its last unit, in the order the names first occur. */
  predicate Aggregates(lines: seq<Line>, a: seq<Need>)
  {
    DistinctNames(a) && OnlyUsed(lines, a) && Covers(lines, a) && Totals(lines, a)
    && LastUnits(lines, a) && FirstUseOrder(lines, a)
  }

  lemma {:induction false} FirstLineSnoc(lines: seq<Line>, l: Line, name: string)
    ensures FirstLine(lines + [l], name)
      == if FirstLine(lines, name) < |lines| then FirstLine(lines, name)
         else if l.name == name then |lines| else |lines| + 1
  {
    if lines == [] {
      assert lines + [l] == [l];
    } else {
      assert (lines + [l])[0] == lines[0];
      assert (lines + [l])[1..] == lines[1..] + [l];
      if lines[0].name != name { FirstLineSnoc(lines[1..], l, name); }
    }
  }

  lemma {:induction false} SumForUnnamed(lines: seq<Line>, name: string)
    requires !Named(lines, name)
    ensures SumFor(lines, name) == 0.0
  {
    if lines != [] {
      var init := lines[..|lines| - 1];
      assert init + [lines[|lines| - 1]] == lines;
      FirstLineSnoc(init, lines[|lines| - 1], name);
      SumForUnnamed(init, name);
    }
  }

  /** `AddLine` renames nothing: an existing entry keeps its name, and a new one is for the line. */
  lemma AddLineNames(a0: seq<Need>, l: Line)
    ensures var a := AddLine(a0, l);
      && |a| >= |a0|
      && (forall i :: 0 <= i < |a0| ==> a[i].name == a0[i].name)
      && (FindNeed(a0, l.name).Some? ==> |a| == |a0|)
      && (FindNeed(a0, l.name).None? ==> |a| == |a0| + 1 && a[|a0|] == Need(l.name, l.qty, l.unit))
  {
  }

  lemma StepDistinct(a0: seq<Need>, l: Line)
    requires DistinctNames(a0)
    ensures DistinctNames(AddLine(a0, l))
  {
    AddLineNames(a0, l);
    FindNeedFacts(a0, l.name);
  }

  lemma StepOnlyUsed(init: seq<Line>, l: Line, a0: seq<Need>)
    requires OnlyUsed(init, a0)
    ensures OnlyUsed(init + [l], AddLine(a0, l))
  {
    var a := AddLine(a0, l);
    AddLineNames(a0, l);
    forall i | 0 <= i < |a| ensures Named(init + [l], a[i].name) {
      FirstLineSnoc(init, l, a[i].name);
    }
  }

  lemma StepCovers(init: seq<Line>, l: Line, a0: seq<Need>)
    requires Covers(init, a0)
    ensures Covers(init + [l], AddLine(a0, l))
  {
    var lines, a := init + [l], AddLine(a0, l);
    AddLineNames(a0, l);
    forall k | 0 <= k < |lines| ensures exists i :: 0 <= i < |a| && a[i].name == lines[k].name {
      if k < |init| {
        assert lines[k] == init[k];
        var i :| 0 <= i < |a0| && a0[i].name == init[k].name;
        assert a[i].name == a0[i].name;
      } else if FindNeed(a0, l.name).Some? {
        assert a[FindNeed(a0, l.name).value].name == lines[k].name;
      } else {
        assert a[|a0|].name == lines[k].name;
      }
    }
  }

  /** A name that has no entry yet is used by no line yet. */
  lemma NewNameUnused(init: seq<Line>, l: Line, a0: seq<Need>)
    requires Covers(init, a0)
    requires FindNeed(a0, l.name).None?
    ensures !Named(init, l.name)
  {
    FindNeedFacts(a0, l.name);
    forall k | 0 <= k < |init| ensures init[k].name != l.name {
      var i :| 0 <= i < |a0| && a0[i].name == init[k].name;
    }
  }

  lemma StepTotals(init: seq<Line>, l: Line, a0: seq<Need>)
    requires DistinctNames(a0) && Covers(init, a0) && Totals(init, a0)
    ensures Totals(init + [l], AddLine(a0, l))
  {
    var lines, a := init + [l], AddLine(a0, l);
    assert lines[..|lines| - 1] == init;
    AddLineNames(a0, l);
    match FindNeed(a0, l.name)
    case Some(i0) =>
      assert a == a0[i0 := Need(l.name, a0[i0].amount + l.qty, l.unit)];
    case None =>
      FindNeedFacts(a0, l.name);
      NewNameUnused(init, l, a0);
      SumForUnnamed(init, l.name);
  }

  lemma StepLastUnits(init: seq<Line>, l: Line, a0: seq<Need>)
    requires DistinctNames(a0) && LastUnits(init, a0)
    ensures LastUnits(init + [l], AddLine(a0, l))
  {
    var lines, a := init + [l], AddLine(a0, l);
    assert lines[..|lines| - 1] == init;
    AddLineNames(a0, l);
    match FindNeed(a0, l.name)
    case Some(i0) =>
      assert a == a0[i0 := Need(l.name, a0[i0].amount + l.qty, l.unit)];
    case None =>
      FindNeedFacts(a0, l.name);
  }

  lemma StepFirstUseOrder(init: seq<Line>, l: Line, a0: seq<Need>)
    requires OnlyUsed(init, a0) && Covers(init, a0) && FirstUseOrder(init, a0)
    ensures FirstUseOrder(init + [l], AddLine(a0, l))
  {
    var lines, a := init + [l], AddLine(a0, l);
    AddLineNames(a0, l);
    forall i | 0 <= i < |a0| ensures FirstLine(lines, a[i].name) == FirstLine(init, a0[i].name) < |init| {
      FirstLineSnoc(init, l, a0[i].name);
    }
    if FindNeed(a0, l.name).None? {
      NewNameUnused(init, l, a0);
      FirstLineSnoc(init, l, l.name);
    }
  }

  /** The accumulated `needed` map sums each exact ingredient name over all lines, keeps
      the last unit seen for it, and lists the names in order of first use. */
  lemma {:induction false} AggregateCorrect(lines: seq<Line>)
    ensures Aggregates(lines, Aggregate(lines))
  {
    if lines != [] {
      var init, l := lines[..|lines| - 1], lines[|lines| - 1];
      var a0 := Aggregate(init);
      AggregateCorrect(init);
      assert init + [l] == lines;
      StepDistinct(a0, l);
      StepOnlyUsed(init, l, a0);
      StepCovers(init, l, a0);
      StepTotals(init, l, a0);
      StepLastUnits(init, l, a0);
      StepFirstUseOrder(init, l, a0);
    }
  }

  lemma {:induction false} ItemsLinesAppend(a: seq<MealItem>, b: seq<MealItem>, recipes: seq<Recipe>)
    ensures ItemsLines(a + b, recipes) == ItemsLines(a, recipes) + ItemsLines(b, recipes)
  {
    if a == [] {
      assert a + b == b;
    } else {
      assert (a + b)[0] == a[0] && (a + b)[1..] == a[1..] + b;
      ItemsLinesAppend(a[1..], b, recipes);
      var head, f1, f2 := ItemLines(a[0], recipes), ItemsLines(a[1..], recipes), ItemsLines(b, recipes);
      assert head + (f1 + f2) == (head + f1) + f2;
    }
  }

  lemma {:induction false} PlanLinesAppend(a: seq<MealSlot>, b: seq<MealSlot>, recipes: seq<Recipe>)
    ensures PlanLines(a + b, recipes) == PlanLines(a, recipes) + PlanLines(b, recipes)
  {
    if a == [] {
      assert a + b == b;
    } else {
      assert (a + b)[0] == a[0] && (a + b)[1..] == a[1..] + b;
      PlanLinesAppend(a[1..], b, recipes);
      var head, f1, f2 := ItemsLines(a[0].items, recipes), PlanLines(a[1..], recipes), PlanLines(b, recipes);
      assert head + (f1 + f2) == (head + f1) + f2;
    }
  }

  /** Replacing a slot by one whose items yield the same lines leaves the plan's lines alone. */
  lemma {:induction false} PlanLinesReplace(slots: seq<MealSlot>, s: nat, slot: MealSlot, recipes: seq<Recipe>)
    requires s < |slots|
    requires ItemsLines(slot.items, recipes) == ItemsLines(slots[s].items, recipes)
    ensures PlanLines(slots[s := slot], recipes) == PlanLines(slots, recipes)
  {
    var slots' := slots[s := slot];
    if s == 0 {
      assert slots'[1..] == slots[1..];
    } else {
      assert slots'[1..] == slots[1..][s - 1 := slot];
      PlanLinesReplace(slots[1..], s - 1, slot, recipes);
    }
  }

  lemma DanglingItemNoLines(x: MealItem, recipes: seq<Recipe>)
    requires FindRecipe(recipes, x.recipeId).None?
    ensures ItemsLines([x], recipes) == []
  {
    assert [x][1..] == [];
  }

  lemma DanglingBetween(front: seq<MealItem>, x: MealItem, back: seq<MealItem>, recipes: seq<Recipe>)
    requires FindRecipe(recipes, x.recipeId).None?
    ensures ItemsLines(front + [x] + back, recipes) == ItemsLines(front + back, recipes)
  {
    DanglingItemNoLines(x, recipes);
    ItemsLinesAppend(front, [x], recipes);
    ItemsLinesAppend(front + [x], back, recipes);
    ItemsLinesAppend(front, back, recipes);
  }

  lemma ItemsLinesInsertDangling(items: seq<MealItem>, pos: nat, x: MealItem, recipes: seq<Recipe>)
    requires pos <= |items|
    requires FindRecipe(recipes, x.recipeId).None?
    ensures ItemsLines(items[..pos] + [x] + items[pos..], recipes) == ItemsLines(items, recipes)
  {
    DanglingBetween(items[..pos], x, items[pos..], recipes);
    assert items[..pos] + items[pos..] == items;
  }

  /** A planned item whose recipe no longer exists changes no demand, wherever it stands. */
  lemma DanglingItemIgnored(slots: seq<MealSlot>, s: nat, pos: nat, x: MealItem, recipes: seq<Recipe>)
    requires s < |slots| && pos <= |slots[s].items|
    requires FindRecipe(recipes, x.recipeId).None?
    ensures var items := slots[s].items;
      PlanLines(slots[s := slots[s].(items := items[..pos] + [x] + items[pos..])], recipes)
        == PlanLines(slots, recipes)
  {
    var items := slots[s].items;
    ItemsLinesInsertDangling(items, pos, x, recipes);
    PlanLinesReplace(slots, s, slots[s].(items := items[..pos] + [x] + items[pos..]), recipes);
  }
}
