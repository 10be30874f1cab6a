/** The shopping list view of index.tsx: `generateList` (demand aggregation, then netting
    against the pantry) and the working-list handlers `toggleCheck`, `updateAmount` and
    `handleFinish`. */
module ShoppingList {
  import opened Types
  import opened Lists
  import opened Demand

  /** `inventory.find(i => i.name === name)`: the first entry with exactly this name. */
  function FindStock(inv: seq<InventoryItem>, name: string): (r: Option<InventoryItem>)
    ensures r.Some? ==> r.value.name == name
  {
    if inv == [] then None
    else if inv[0].name == name then Some(inv[0])
    else FindStock(inv[1..], name)
  }

  /** The stock found is the first entry of that name; none is found exactly when no
      entry has that name. */
  lemma {:induction false} FindStockFacts(inv: seq<InventoryItem>, name: string)
    ensures var r := FindStock(inv, name);
      && (r.Some? ==> exists k :: 0 <= k < |inv| && inv[k] == r.value && forall j :: 0 <= j < k ==> inv[j].name != name)
      && (r.None? <==> forall k :: 0 <= k < |inv| ==> inv[k].name != name)
  {
    if inv != [] && inv[0].name != name {
      FindStockFacts(inv[1..], name);
      assert forall k :: 1 <= k < |inv| ==> inv[k] == inv[1..][k - 1];
      if FindStock(inv, name).Some? {
        var k :| 0 <= k < |inv[1..]| && inv[1..][k] == FindStock(inv, name).value
          && forall j :: 0 <= j < k ==> inv[1..][j].name != name;
        assert inv[k + 1] == FindStock(inv, name).value;
        assert forall j :: 0 <= j < k + 1 ==> inv[j].name != name by {
          forall j | 0 <= j < k + 1 ensures inv[j].name != name {
            if j > 0 { assert inv[j] == inv[1..][j - 1]; }
          }
        }
      }
    }
  }

  /** The outcome of comparing one demand with the pantry: the quantity still required
      (possibly zero or negative) and the advisory note, if any. */
  datatype Netted = Netted(required: real, note: Option<Note>)

  /** Subtract the stock only when it is held in the same unit; stock in another unit
      is reported in a note and subtracts nothing. */
  function Net(d: Need, inv: seq<InventoryItem>): Netted
  {
    match FindStock(inv, d.name)
    case None => Netted(d.amount, None)
    case Some(stock) =>
      if stock.unit == d.unit then Netted(d.amount - stock.amount, None)
      else Netted(d.amount, Some(HaveInOtherUnit(stock.amount, stock.unit)))
  }

  /** `required > 0 || note`: the demand makes it onto the list. */
  predicate Emits(n: Netted)
  {
    n.required > 0.0 || n.note.Some?
  }

  /** The entry pushed for a demand, clamped at zero and unchecked. */
  function Entry(d: Need, n: Netted, id: string): ShoppingListItem
  {
    ShoppingListItem(id, d.name, Max(0.0, n.required), d.unit, false, n.note)
  }

  /** The list built from the `needed` map in its order; the `k`-th entry pushed gets
      the id `newId(k)`. */
  function NetList(needs: seq<Need>, inv: seq<InventoryItem>, newId: nat -> string): seq<ShoppingListItem>
  {
    if needs == [] then []
    else
      var prev := NetList(needs[..|needs| - 1], inv, newId);
      var d := needs[|needs| - 1];
      var n := Net(d, inv);
      if Emits(n) then prev + [Entry(d, n, newId(|prev|))] else prev
  }

  /** `generateList`: accumulate the plan's demand per exact ingredient name in a map,
      then net every entry of the map against the pantry. */
  method GenerateList(plans: seq<MealSlot>, recipes: seq<Recipe>, inventory: seq<InventoryItem>,
                      newId: nat -> string)
    returns (list: seq<ShoppingListItem>)
    ensures list == NetList(Aggregate(PlanLines(plans, recipes)), inventory, newId)
  {
    var needed := AccumulateDemand(plans, recipes);
    list := NetAgainst(needed, inventory, newId);
  }

  /** The first phase of `generateList`: the `forEach` over the slots that fills the
      `needed` map. */
  method AccumulateDemand(plans: seq<MealSlot>, recipes: seq<Recipe>) returns (needed: seq<Need>)
    ensures needed == Aggregate(PlanLines(plans, recipes))
  {
    needed := [];
    var i := 0;
    while i < |plans|
      invariant 0 <= i <= |plans|
      invariant needed == Aggregate(PlanLines(plans[..i], recipes))
    {
      needed := AddSlotItems(needed, plans[i].items, recipes);
      AddSlotStep(plans, i, recipes);
      i := i + 1;
    }
    assert plans[..i] == plans;
  }

  /** The `forEach` over one slot's items, skipping items whose recipe is gone. */
  method AddSlotItems(needed: seq<Need>, items: seq<MealItem>, recipes: seq<Recipe>) returns (r: seq<Need>)
    ensures r == AddAll(needed, ItemsLines(items, recipes))
  {
    r := needed;
    var j := 0;
    while j < |items|
      invariant 0 <= j <= |items|
      invariant r == AddAll(needed, ItemsLines(items[..j], recipes))
    {
      var item := items[j];
      var recipe := FindRecipe(recipes, item.recipeId);
      if recipe.Some? {
        r := AddIngredients(r, recipe.value.ingredients, item.multiplier);
      }
      AddItemStep(needed, items, j, recipes);
      j := j + 1;
    }
    assert items[..j] == items;
  }

  /** The innermost `forEach` of `generateList`: add `ing.amount * multiplier` under each
      ingredient's exact name, adopting its unit. */
  method AddIngredients(needed: seq<Need>, ings: seq<Ingredient>, multiplier: real) returns (r: seq<Need>)
    ensures r == AddAll(needed, IngredientLines(ings, multiplier))
  {
    r := needed;
    var k := 0;
    while k < |ings|
      invariant 0 <= k <= |ings|
      invariant r == AddAll(needed, IngredientLines(ings[..k], multiplier))
    {
      var ing := ings[k];
      var amountNeeded := Scale(ing.amount, multiplier);
      ghost var prev := r;
      var existing := FindNeed(r, ing.name);
      if existing.Some? {
        r := r[existing.value := Need(ing.name, r[existing.value].amount + amountNeeded, ing.unit)];
      } else {
        r := r + [Need(ing.name, amountNeeded, ing.unit)];
      }
      var line := Line(ing.name, amountNeeded, ing.unit);
      assert r == AddLine(prev, line);
      AddIngredientStep(needed, ings, k, multiplier);
      k := k + 1;
    }
    assert ings[..k] == ings;
  }

  /** The second phase of `generateList`: the `forEach` over the `needed` map that pushes
      one entry per demand still required or carrying a note. */
  method NetAgainst(needed: seq<Need>, inventory: seq<InventoryItem>, newId: nat -> string)
    returns (list: seq<ShoppingListItem>)
    ensures list == NetList(needed, inventory, newId)
  {
    list := [];
    var n := 0;
    while n < |needed|
      invariant 0 <= n <= |needed|
      invariant list == NetList(needed[..n], inventory, newId)
    {
      var d := needed[n];
      var stock := FindStock(inventory, d.name);
      var required := d.amount;
      var note: Option<Note> := None;
      if stock.Some? {
        if stock.value.unit == d.unit {
          required := required - stock.value.amount;
        } else {
          note := Some(HaveInOtherUnit(stock.value.amount, stock.value.unit));
        }
      }
      if required > 0.0 || note.Some? {
        list := list + [ShoppingListItem(newId(|list|), d.name, Max(0.0, required), d.unit, false, note)];
      }
      assert needed[..n + 1][..n] == needed[..n];
      n := n + 1;
    }
    assert needed[..n] == needed;
  }

  /** The stock that netting may subtract: the first same-named entry's amount when it is
      held in the demand's unit, and nothing otherwise. */
  function Covered(d: Need, inv: seq<InventoryItem>): real
  {
    match FindStock(inv, d.name)
    case Some(stock) => if stock.unit == d.unit then stock.amount else 0.0
    case None => 0.0
  }

  /** What netting means. A note appears exactly when the first same-named stock is held in
      another unit. Without a note, the demand is left off the list exactly when the
      same-unit stock covers it, and a listed quantity is what the stock lacks (never
      negative), so buying it meets the demand. */
  lemma NetMeaning(d: Need, inv: seq<InventoryItem>, id: string)
    ensures var n := Net(d, inv);
      && (n.note.Some? <==> FindStock(inv, d.name).Some? && FindStock(inv, d.name).value.unit != d.unit)
      && (n.note.Some? ==> n.note.value.stockUnit != d.unit && Entry(d, n, id).needed == Max(0.0, d.amount))
      && (n.note.None? ==> (!Emits(n) <==> d.amount <= Covered(d, inv)))
      && (n.note.None? && Emits(n) ==> Entry(d, n, id).needed + Covered(d, inv) == d.amount)
      && (Emits(n) ==> Entry(d, n, id).needed >= 0.0 && !Entry(d, n, id).checked && Entry(d, n, id).name == d.name)
  {
  }

  /** The demands that make it onto the list, in the order of the map. */
  function Emitting(needs: seq<Need>, inv: seq<InventoryItem>): seq<Need>
  {
    if needs == [] then []
    else
      var prev := Emitting(needs[..|needs| - 1], inv);
      var d := needs[|needs| - 1];
      if Emits(Net(d, inv)) then prev + [d] else prev
  }

  /** A demand is among the emitting ones exactly when it is in the map and emits;
      distinct names stay distinct. */
  lemma {:induction false} EmittingSpec(needs: seq<Need>, inv: seq<InventoryItem>)
    ensures forall d :: d in Emitting(needs, inv) <==> d in needs && Emits(Net(d, inv))
    ensures DistinctNames(needs) ==> DistinctNames(Emitting(needs, inv))
  {
    if needs != [] {
      var init, d := needs[..|needs| - 1], needs[|needs| - 1];
      EmittingSpec(init, inv);
      assert needs == init + [d];
      if DistinctNames(needs) {
        assert DistinctNames(init) by {
          forall i, j | 0 <= i < j < |init| ensures init[i].name != init[j].name {
            assert init[i] == needs[i] && init[j] == needs[j];
          }
        }
        forall x | x in Emitting(init, inv) ensures x.name != d.name {
          var i :| 0 <= i < |init| && init[i] == x;
          assert needs[i] == x;
        }
      }
    }
  }

  /** The list is the emitting demands in order, each netted, clamped and unchecked, the
      `k`-th with id `newId(k)`. */
  lemma {:induction false} NetListSpec(needs: seq<Need>, inv: seq<InventoryItem>, newId: nat -> string)
    ensures var r, e := NetList(needs, inv, newId), Emitting(needs, inv);
      && |r| == |e|
      && forall k :: 0 <= k < |r| ==> r[k] == Entry(e[k], Net(e[k], inv), newId(k))
  {
    if needs != [] {
      NetListSpec(needs[..|needs| - 1], inv, newId);
    }
  }

  /** One listed entry holds the total demand of its name over the plan, in the name's
      last unit, netted against the pantry. */
  lemma EntryMeetsDemand(lines: seq<Line>, inv: seq<InventoryItem>, newId: nat -> string, k: nat)
    requires k < |NetList(Aggregate(lines), inv, newId)|
    ensures var r := NetList(Aggregate(lines), inv, newId);
      var d := Need(r[k].name, SumFor(lines, r[k].name), LastUnit(lines, r[k].name));
      Named(lines, r[k].name) && Emits(Net(d, inv)) && r[k] == Entry(d, Net(d, inv), newId(k))
  {
    var a := Aggregate(lines);
    var e := Emitting(a, inv);
    AggregateCorrect(lines);
    NetListSpec(a, inv, newId);
    EmittingSpec(a, inv);
    assert e[k] in e;
    var i :| 0 <= i < |a| && a[i] == e[k];
  }

  /** Every ingredient name whose netted total demand emits is on the list. */
  lemma DemandListed(lines: seq<Line>, inv: seq<InventoryItem>, newId: nat -> string, name: string)
    requires Named(lines, name)
    requires Emits(Net(Need(name, SumFor(lines, name), LastUnit(lines, name)), inv))
    ensures var r := NetList(Aggregate(lines), inv, newId);
      exists k :: 0 <= k < |r| && r[k].name == name
  {
    var a := Aggregate(lines);
    var e := Emitting(a, inv);
    var r := NetList(a, inv, newId);
    AggregateCorrect(lines);
    NetListSpec(a, inv, newId);
    EmittingSpec(a, inv);
    var f := FirstLine(lines, name);
    var i :| 0 <= i < |a| && a[i].name == lines[f].name;
    assert a[i] == Need(name, SumFor(lines, name), LastUnit(lines, name));
    assert a[i] in e;
    var k :| 0 <= k < |e| && e[k] == a[i];
    assert r[k].name == name;
  }

  /** The list `generateList` builds has one entry per ingredient name, each for the name's
      total demand over the plan in its last unit, netted against the pantry; and every
      name whose netted demand emits is on it. */
  lemma ListMeetsDemand(plans: seq<MealSlot>, recipes: seq<Recipe>, inv: seq<InventoryItem>, newId: nat -> string)
    ensures var lines := PlanLines(plans, recipes);
      var r := NetList(Aggregate(lines), inv, newId);
      && (forall k, k' :: 0 <= k < k' < |r| ==> r[k].name != r[k'].name)
      && (forall k :: 0 <= k < |r| ==>
            var d := Need(r[k].name, SumFor(lines, r[k].name), LastUnit(lines, r[k].name));
            Named(lines, r[k].name) && Emits(Net(d, inv)) && r[k] == Entry(d, Net(d, inv), newId(k)))
      && (forall name :: Named(lines, name) && Emits(Net(Need(name, SumFor(lines, name), LastUnit(lines, name)), inv)) ==>
            exists k :: 0 <= k < |r| && r[k].name == name)
  {
    var lines := PlanLines(plans, recipes);
    var a := Aggregate(lines);
    AggregateCorrect(lines);
    NetListSpec(a, inv, newId);
    EmittingSpec(a, inv);
    forall k | 0 <= k < |NetList(a, inv, newId)|
      ensures var r := NetList(a, inv, newId);
        var d := Need(r[k].name, SumFor(lines, r[k].name), LastUnit(lines, r[k].name));
        Named(lines, r[k].name) && Emits(Net(d, inv)) && r[k] == Entry(d, Net(d, inv), newId(k))
    {
      EntryMeetsDemand(lines, inv, newId, k);
    }
    forall name | Named(lines, name) && Emits(Net(Need(name, SumFor(lines, name), LastUnit(lines, name)), inv))
      ensures var r := NetList(a, inv, newId); exists k :: 0 <= k < |r| && r[k].name == name
    {
      DemandListed(lines, inv, newId, name);
    }
  }

  /** `toggleCheck`: flip `checked` on every entry with the id. */
  function ToggleCheck(list: seq<ShoppingListItem>, id: string): (r: seq<ShoppingListItem>)
    ensures |r| == |list|
    ensures forall i :: 0 <= i < |list| ==> r[i].id == list[i].id
  {
    seq(|list|, i requires 0 <= i < |list| =>
      if list[i].id == id then list[i].(checked := !list[i].checked) else list[i])
  }

  /** Toggling changes only the `checked` flag, and only on entries with the id. */
  lemma ToggleCheckSpec(list: seq<ShoppingListItem>, id: string)
    ensures var r := ToggleCheck(list, id);
      forall i :: 0 <= i < |list| ==>
        && r[i].checked == (if list[i].id == id then !list[i].checked else list[i].checked)
        && r[i].(checked := list[i].checked) == list[i]
  {
  }

  /** Toggling twice restores the list. */
  lemma ToggleCheckTwice(list: seq<ShoppingListItem>, id: string)
    ensures ToggleCheck(ToggleCheck(list, id), id) == list
  {
    var r := ToggleCheck(ToggleCheck(list, id), id);
    forall i | 0 <= i < |list| ensures r[i] == list[i] {
      ToggleCheckSpec(list, id);
      ToggleCheckSpec(ToggleCheck(list, id), id);
    }
  }

  /** `updateAmount`: set `needed` on every entry with the id. */
  function UpdateAmount(list: seq<ShoppingListItem>, id: string, val: real): (r: seq<ShoppingListItem>)
    ensures |r| == |list|
    ensures forall i :: 0 <= i < |list| ==> r[i].id == list[i].id
  {
    seq(|list|, i requires 0 <= i < |list| => if list[i].id == id then list[i].(needed := val) else list[i])
  }

  /** Updating changes only `needed`, and only on entries with the id; the last update wins. */
  lemma UpdateAmountSpec(list: seq<ShoppingListItem>, id: string, a: real, b: real)
    ensures var r := UpdateAmount(list, id, a);
      forall i :: 0 <= i < |list| ==>
        && r[i].needed == (if list[i].id == id then a else list[i].needed)
        && r[i].(needed := list[i].needed) == list[i]
    ensures UpdateAmount(UpdateAmount(list, id, a), id, b) == UpdateAmount(list, id, b)
  {
    var r, r' := UpdateAmount(UpdateAmount(list, id, a), id, b), UpdateAmount(list, id, b);
    assert forall i :: 0 <= i < |list| ==> r[i] == r'[i];
  }

  predicate IsChecked(item: ShoppingListItem) { item.checked }
  predicate IsUnchecked(item: ShoppingListItem) { !item.checked }

  /** `handleFinish`: the checked entries go to the purchase, the unchecked ones stay. */
  function Finish(list: seq<ShoppingListItem>): (seq<ShoppingListItem>, seq<ShoppingListItem>)
  {
    (Filter(list, IsChecked), Filter(list, IsUnchecked))
  }

  /** Finishing splits the list: everything bought is checked, everything kept is unchecked,
      both keep the list's order, and together they are the list. */
  lemma FinishSplits(list: seq<ShoppingListItem>, more: seq<ShoppingListItem>)
    ensures var (bought, remaining) := Finish(list);
      && (forall x :: x in bought <==> x in list && x.checked)
      && (forall x :: x in remaining <==> x in list && !x.checked)
      && multiset(bought) + multiset(remaining) == multiset(list)
      && Finish(list + more).0 == bought + Finish(more).0
      && Finish(list + more).1 == remaining + Finish(more).1
  {
    FilterFacts(list, IsChecked);
    FilterFacts(list, IsUnchecked);
    FilterPartition(list, IsChecked, IsUnchecked);
    FilterAppend(list, more, IsChecked);
    FilterAppend(list, more, IsUnchecked);
  }
}
