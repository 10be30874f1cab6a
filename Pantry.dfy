/** The inventory handlers of the application component in index.tsx: `handlePurchase`
    (bought shopping entries into the pantry), `openCookModal` and `confirmCook` (a cooked
    slot's consumption out of the pantry) and the manual `onEdit` of an entry. */
module Pantry {
  import opened Types
  import opened Lists
  import opened Demand

  /** The entry matches a bought item: the same name and the same unit, both exactly. */
  predicate Matches(x: InventoryItem, name: string, unit: string)
  {
    x.name == name && x.unit == unit
  }

  /** `updated.findIndex(i => i.name === name && i.unit === unit)`. */
  function FindBatch(inv: seq<InventoryItem>, name: string, unit: string): (r: Option<nat>)
    ensures r.Some? ==> r.value < |inv| && Matches(inv[r.value], name, unit)
  {
    if inv == [] then None
    else if Matches(inv[0], name, unit) then Some(0)
    else match FindBatch(inv[1..], name, unit)
      case None => None
      case Some(i) => Some(i + 1)
  }

  /** The index found is the first matching one; none is found exactly when no entry matches. */
  lemma {:induction false} FindBatchFacts(inv: seq<InventoryItem>, name: string, unit: string)
    ensures var r := FindBatch(inv, name, unit);
      && (r.Some? ==> forall j :: 0 <= j < r.value ==> !Matches(inv[j], name, unit))
      && (r.None? <==> forall j :: 0 <= j < |inv| ==> !Matches(inv[j], name, unit))
  {
    if inv != [] && !Matches(inv[0], name, unit) {
      FindBatchFacts(inv[1..], name, unit);
      assert forall j :: 1 <= j < |inv| ==> inv[j] == inv[1..][j - 1];
    }
  }

  /** One bought entry folded into the pantry: a matching entry gets the bought quantity
      added, status `normal` and the given expiry; otherwise a new entry with id `id` is
      appended. */
  function PurchaseOne(inv: seq<InventoryItem>, shop: ShoppingListItem, expiry: string, id: string): seq<InventoryItem>
  {
    match FindBatch(inv, shop.name, shop.unit)
    case Some(i) => inv[i := inv[i].(amount := inv[i].amount + shop.needed, status := Normal, expirationDate := expiry)]
    case None => inv + [InventoryItem(id, shop.name, shop.needed, shop.unit, expiry, Normal)]
  }

  /** The pantry after folding in `items` in order; the `k`-th bought item, if new, gets
      the id `newId(k)`. */
  function Purchased(inv: seq<InventoryItem>, items: seq<ShoppingListItem>, expiry: string,
                     newId: nat -> string): seq<InventoryItem>
  {
    if items == [] then inv
    else PurchaseOne(Purchased(inv, items[..|items| - 1], expiry, newId), items[|items| - 1], expiry, newId(|items| - 1))
  }

  /** `handlePurchase`, with `expiry` the default date a week from today. */
  method HandlePurchase(inventory: seq<InventoryItem>, items: seq<ShoppingListItem>, expiry: string,
                        newId: nat -> string)
    returns (updated: seq<InventoryItem>)
    ensures updated == Purchased(inventory, items, expiry, newId)
  {
    updated := inventory;
    var k := 0;
    while k < |items|
      invariant 0 <= k <= |items|
      invariant updated == Purchased(inventory, items[..k], expiry, newId)
    {
      var shopItem := items[k];
      var idx := FindBatch(updated, shopItem.name, shopItem.unit);
      if idx.Some? {
        var i := idx.value;
        updated := updated[i := updated[i].(amount := updated[i].amount + shopItem.needed,
                                            status := Normal, expirationDate := expiry)];
      } else {
        updated := updated + [InventoryItem(newId(k), shopItem.name, shopItem.needed, shopItem.unit, expiry, Normal)];
      }
      assert items[..k + 1][..k] == items[..k];
      k := k + 1;
    }
    assert items[..k] == items;
  }

  /** Folding one bought item in: the first matching entry, and only it, changes, in its
      amount, status and expiry; without a match exactly one entry is appended. */
  lemma PurchaseOneSpec(inv: seq<InventoryItem>, shop: ShoppingListItem, expiry: string, id: string)
    ensures var r := PurchaseOne(inv, shop, expiry, id);
      match FindBatch(inv, shop.name, shop.unit)
      case Some(i) =>
        && |r| == |inv|
        && (forall j :: 0 <= j < i ==> !Matches(inv[j], shop.name, shop.unit))
        && r[i] == InventoryItem(inv[i].id, shop.name, inv[i].amount + shop.needed, shop.unit, expiry, Normal)
        && (forall j :: 0 <= j < |inv| && j != i ==> r[j] == inv[j])
      case None =>
        && (forall j :: 0 <= j < |inv| ==> !Matches(inv[j], shop.name, shop.unit))
        && r == inv + [InventoryItem(id, shop.name, shop.needed, shop.unit, expiry, Normal)]
  {
    FindBatchFacts(inv, shop.name, shop.unit);
  }

  /** A purchase removes no entry and renames none; an entry that no bought item matches
      is left exactly as it was; every entry it appends is fresh stock. */
  lemma {:induction false} PurchasedKeeps(inv: seq<InventoryItem>, items: seq<ShoppingListItem>, expiry: string,
                                          newId: nat -> string)
    ensures var r := Purchased(inv, items, expiry, newId);
      && |r| >= |inv|
      && (forall j :: 0 <= j < |inv| ==> r[j].id == inv[j].id && r[j].name == inv[j].name && r[j].unit == inv[j].unit)
      && (forall j :: 0 <= j < |inv| && (forall k :: 0 <= k < |items| ==> !Matches(inv[j], items[k].name, items[k].unit))
            ==> r[j] == inv[j])
      && (forall j :: |inv| <= j < |r| ==> r[j].status == Normal && r[j].expirationDate == expiry)
  {
    if items != [] {
      var init := items[..|items| - 1];
      var shop := items[|items| - 1];
      var prev := Purchased(inv, init, expiry, newId);
      PurchasedKeeps(inv, init, expiry, newId);
      PurchaseOneSpec(prev, shop, expiry, newId(|items| - 1));
      assert forall k :: 0 <= k < |init| ==> init[k] == items[k];
    }
  }

  /** The total amount held under one (name, unit). */
  function Stock(s: seq<InventoryItem>, name: string, unit: string): real
  {
    if s == [] then 0.0
    else Stock(s[..|s| - 1], name, unit) + (if Matches(s[|s| - 1], name, unit) then s[|s| - 1].amount else 0.0)
  }

  /** The total quantity bought under one (name, unit). */
  function Bought(items: seq<ShoppingListItem>, name: string, unit: string): real
  {
    if items == [] then 0.0
    else
      var b := items[|items| - 1];
      Bought(items[..|items| - 1], name, unit) + (if b.name == name && b.unit == unit then b.needed else 0.0)
  }

  lemma {:induction false} StockUpdate(s: seq<InventoryItem>, i: nat, x: InventoryItem, name: string, unit: string)
    requires i < |s|
    ensures Stock(s[i := x], name, unit)
      == Stock(s, name, unit) - (if Matches(s[i], name, unit) then s[i].amount else 0.0)
                              + (if Matches(x, name, unit) then x.amount else 0.0)
  {
    var s' := s[i := x];
    var n := |s|;
    if i == n - 1 {
      assert s'[..n - 1] == s[..n - 1];
    } else {
      assert s'[..n - 1] == s[..n - 1][i := x];
      StockUpdate(s[..n - 1], i, x, name, unit);
    }
  }

  lemma PurchaseOneStock(inv: seq<InventoryItem>, shop: ShoppingListItem, expiry: string, id: string,
                         name: string, unit: string)
    ensures Stock(PurchaseOne(inv, shop, expiry, id), name, unit)
      == Stock(inv, name, unit) + (if shop.name == name && shop.unit == unit then shop.needed else 0.0)
  {
    match FindBatch(inv, shop.name, shop.unit)
    case Some(i) =>
      StockUpdate(inv, i, inv[i].(amount := inv[i].amount + shop.needed, status := Normal, expirationDate := expiry), name, unit);
    case None =>
      var x := InventoryItem(id, shop.name, shop.needed, shop.unit, expiry, Normal);
      assert (inv + [x])[..|inv|] == inv;
  }

  /** A purchase conserves quantity: the stock under every (name, unit) grows by exactly
      what was bought under it. */
  lemma {:induction false} PurchasedStock(inv: seq<InventoryItem>, items: seq<ShoppingListItem>, expiry: string,
                                          newId: nat -> string, name: string, unit: string)
    ensures Stock(Purchased(inv, items, expiry, newId), name, unit) == Stock(inv, name, unit) + Bought(items, name, unit)
  {
    if items != [] {
      var init := items[..|items| - 1];
      PurchasedStock(inv, init, expiry, newId, name, unit);
      PurchaseOneStock(Purchased(inv, init, expiry, newId), items[|items| - 1], expiry, newId(|items| - 1), name, unit);
    }
  }

  // The consumption record of the cook modal is a plain object (`{}`): reading a name it
  // has no entry for finds what the object inherits from `Object.prototype`.

  /** The names a plain object inherits from `Object.prototype`. */
  const ObjectMembers: set<string> := {
    "constructor", "__proto__", "__defineGetter__", "__defineSetter__", "__lookupGetter__",
    "__lookupSetter__", "hasOwnProperty", "isPrototypeOf", "propertyIsEnumerable",
    "toLocaleString", "toString", "valueOf"}

  /** A value read from the record: a number, or something that is not one (an inherited
      function or object, or the string `+` makes of one and a number). Every such value
      is truthy. */
  datatype Entry = Num(value: real) | NonNumeric

  /** `record[name]`: the own entry, else an inherited member, else `undefined` (`None`). */
  function Lookup(c: map<string, Entry>, name: string): (r: Option<Entry>)
    ensures name in ObjectMembers ==> r.Some?
  {
    if name in c then Some(c[name]) else if name in ObjectMembers then Some(NonNumeric) else None
  }

  /** `(record[name] || 0) + qty`: `undefined` and `0` count as zero, a number adds up, and
      anything else turns the sum into a string. */
  function Plus(e: Option<Entry>, qty: real): Entry
  {
    match e
    case None => Num(qty)
    case Some(Num(v)) => Num(v + qty)
    case Some(NonNumeric) => NonNumeric
  }

  /** `totalNeeds[name] = (totalNeeds[name] || 0) + qty`; assigning a non-object to
      `__proto__` is ignored. */
  function Consume(c: map<string, Entry>, l: Line): map<string, Entry>
  {
    if l.name == "__proto__" then c else c[l.name := Plus(Lookup(c, l.name), l.qty)]
  }

  /** The consumption record `c` after adding `lines` in order. */
  function ConsumeAll(c: map<string, Entry>, lines: seq<Line>): map<string, Entry>
  {
    if lines == [] then c else Consume(ConsumeAll(c, lines[..|lines| - 1]), lines[|lines| - 1])
  }

  /** The consumption record of `lines`, starting empty. */
  function Consumption(lines: seq<Line>): map<string, Entry>
  {
    ConsumeAll(map[], lines)
  }

  lemma {:induction false} ConsumeAllAppend(c: map<string, Entry>, a: seq<Line>, b: seq<Line>)
    ensures ConsumeAll(c, a + b) == ConsumeAll(ConsumeAll(c, a), b)
    decreases |b|
  {
    if b == [] {
      assert a + b == a;
    } else {
      var b' := b[..|b| - 1];
      assert (a + b)[..|a + b| - 1] == a + b';
      ConsumeAllAppend(c, a, b');
    }
  }

  /** `openCookModal`: the consumption of one slot, per exact ingredient name. */
  method OpenCookModal(slot: MealSlot, recipes: seq<Recipe>) returns (consumption: map<string, Entry>)
    ensures consumption == Consumption(ItemsLines(slot.items, recipes))
  {
    var items := slot.items;
    consumption := map[];
    var j := 0;
    while j < |items|
      invariant 0 <= j <= |items|
      invariant consumption == Consumption(ItemsLines(items[..j], recipes))
    {
      var item := items[j];
      var r := FindRecipe(recipes, item.recipeId);
      if r.Some? {
        consumption := ConsumeIngredients(consumption, r.value.ingredients, item.multiplier);
      }
      ConsumeItemStep(items, j, recipes);
      j := j + 1;
    }
    assert items[..j] == items;
  }

  /** One ingredient's entry in the record: its quantity added to what a lookup finds there,
      every other name kept. */
  method AddConsumption(c: map<string, Entry>, l: Line) returns (r: map<string, Entry>)
    ensures r == Consume(c, l)
    ensures l.name != "__proto__" ==> l.name in r && r[l.name] == Plus(Lookup(c, l.name), l.qty)
    ensures l.name !in c && l.name !in ObjectMembers ==> l.name in r && r[l.name] == Num(l.qty)
    ensures forall n :: n in c && n != l.name ==> n in r && r[n] == c[n]
  {
    if l.name == "__proto__" {
      r := c;
    } else {
      var prev: Option<Entry>;
      if l.name in c {
        prev := Some(c[l.name]);
      } else if l.name in ObjectMembers {
        prev := Some(NonNumeric);
      } else {
        prev := None;
      }
      r := c[l.name := Plus(prev, l.qty)];
    }
  }

  /** The inner `forEach` of `openCookModal` over one recipe's ingredients. */
  method ConsumeIngredients(c: map<string, Entry>, ings: seq<Ingredient>, multiplier: real)
    returns (r: map<string, Entry>)
    ensures r == ConsumeAll(c, IngredientLines(ings, multiplier))
  {
    r := c;
    var k := 0;
    while k < |ings|
      invariant 0 <= k <= |ings|
      invariant r == ConsumeAll(c, IngredientLines(ings[..k], multiplier))
    {
      var ing := ings[k];
      r := AddConsumption(r, Line(ing.name, Scale(ing.amount, multiplier), ing.unit));
      ConsumeIngredientStep(c, ings, k, multiplier);
      k := k + 1;
    }
    assert ings[..k] == ings;
  }

  lemma ConsumeIngredientStep(c: map<string, Entry>, ings: seq<Ingredient>, k: nat, multiplier: real)
    requires k < |ings|
    ensures ConsumeAll(c, IngredientLines(ings[..k + 1], multiplier))
      == Consume(ConsumeAll(c, IngredientLines(ings[..k], multiplier)),
                 Line(ings[k].name, Scale(ings[k].amount, multiplier), ings[k].unit))
  {
    IngredientLinesSnoc(ings, k, multiplier);
    var lines := IngredientLines(ings[..k], multiplier);
    var line := Line(ings[k].name, Scale(ings[k].amount, multiplier), ings[k].unit);
    assert (lines + [line])[..|lines|] == lines;
  }

  lemma ConsumeItemStep(items: seq<MealItem>, j: nat, recipes: seq<Recipe>)
    requires j < |items|
    ensures Consumption(ItemsLines(items[..j + 1], recipes))
      == match FindRecipe(recipes, items[j].recipeId)
         case Some(r) => ConsumeAll(Consumption(ItemsLines(items[..j], recipes)), IngredientLines(r.ingredients, items[j].multiplier))
         case None => Consumption(ItemsLines(items[..j], recipes))
  {
    ItemsLinesSnoc(items, j, recipes);
    ConsumeAllAppend(map[], ItemsLines(items[..j], recipes), ItemLines(items[j], recipes));
    if FindRecipe(recipes, items[j].recipeId).None? {
      assert ItemsLines(items[..j], recipes) + ItemLines(items[j], recipes) == ItemsLines(items[..j], recipes);
    }
  }

  /** What the record gives for `name`: a non-number for an inherited name, the total
      quantity for an ordinary name the lines use, `undefined` for one they do not use. It
      has an own entry for the name when the lines use it, unless it is `__proto__`. */
  ghost predicate RecordsAt(lines: seq<Line>, c: map<string, Entry>, name: string)
  {
    && (name in c <==> Named(lines, name) && name != "__proto__")
    && Lookup(c, name)
         == if name in ObjectMembers then Some(NonNumeric)
            else if Named(lines, name) then Some(Num(SumFor(lines, name))) else None
  }

  lemma ConsumeStepAt(init: seq<Line>, l: Line, c0: map<string, Entry>, name: string)
    requires RecordsAt(init, c0, name)
    ensures RecordsAt(init + [l], Consume(c0, l), name)
  {
    var lines := init + [l];
    assert lines[..|lines| - 1] == init;
    FirstLineSnoc(init, l, name);
    if !Named(init, name) {
      SumForUnnamed(init, name);
    }
  }

  lemma {:induction false} ConsumptionRecords(lines: seq<Line>, name: string)
    ensures RecordsAt(lines, Consumption(lines), name)
  {
    if lines != [] {
      var init, l := lines[..|lines| - 1], lines[|lines| - 1];
      ConsumptionRecords(init, name);
      assert init + [l] == lines;
      ConsumeStepAt(init, l, Consumption(init), name);
    }
  }

  /** The consumption record has an own entry for exactly the names the lines use, except
      `__proto__`; reading an ordinary name gives its total quantity, or `undefined` when no
      line uses it; reading an inherited name never gives a number. */
  lemma ConsumptionSpec(lines: seq<Line>)
    ensures forall name :: name in Consumption(lines) <==> Named(lines, name) && name != "__proto__"
    ensures forall name :: name !in ObjectMembers && Named(lines, name) ==>
      Lookup(Consumption(lines), name) == Some(Num(SumFor(lines, name)))
    ensures forall name :: name !in ObjectMembers && !Named(lines, name) ==> Lookup(Consumption(lines), name).None?
    ensures forall name :: name in ObjectMembers ==> Lookup(Consumption(lines), name) == Some(NonNumeric)
  {
    var c := Consumption(lines);
    forall name
      ensures name in c <==> Named(lines, name) && name != "__proto__"
      ensures Lookup(c, name)
        == if name in ObjectMembers then Some(NonNumeric)
           else if Named(lines, name) then Some(Num(SumFor(lines, name))) else None
    {
      ConsumptionRecords(lines, name);
    }
  }

  /** The cook modal and the shopping list agree on every ordinary ingredient name: its
      consumption is the total the demand of that slot accumulates. For an inherited name
      the record holds no number while the demand does. */
  lemma ConsumptionMatchesDemand(items: seq<MealItem>, recipes: seq<Recipe>)
    ensures var lines := ItemsLines(items, recipes);
      var a := Aggregate(lines);
      forall i :: 0 <= i < |a| ==>
        Lookup(Consumption(lines), a[i].name)
          == if a[i].name in ObjectMembers then Some(NonNumeric) else Some(Num(a[i].amount))
  {
    var lines := ItemsLines(items, recipes);
    var a := Aggregate(lines);
    AggregateCorrect(lines);
    forall i | 0 <= i < |a| ensures RecordsAt(lines, Consumption(lines), a[i].name) {
      ConsumptionRecords(lines, a[i].name);
    }
  }

  /** `confirmCook` on one batch (`if (consumedAmount)`): no entry or a zero entry leaves it
      as it is, a number is deducted with a floor at zero, and anything else makes the
      amount `NaN`, shown as `None`. */
  function Deduct(item: InventoryItem, c: map<string, Entry>): Option<InventoryItem>
  {
    match Lookup(c, item.name)
    case None => Some(item)
    case Some(Num(v)) => if v != 0.0 then Some(item.(amount := Max(0.0, item.amount - v))) else Some(item)
    case Some(NonNumeric) => None
  }

  /** `prev.map(...)`: every batch deducted. */
  function DeductAll(inv: seq<InventoryItem>, c: map<string, Entry>): (r: seq<Option<InventoryItem>>)
    ensures |r| == |inv|
  {
    seq(|inv|, i requires 0 <= i < |inv| => Deduct(inv[i], c))
  }

  /** `.filter(inv => inv.amount > 0)`. */
  predicate InStock(item: InventoryItem)
  {
    item.amount > 0.0
  }

  /** The same filter after the deduction, where a `NaN` amount fails it too. */
  function Survivors(d: seq<Option<InventoryItem>>): seq<InventoryItem>
  {
    if d == [] then []
    else (if d[0].Some? && InStock(d[0].value) then [d[0].value] else []) + Survivors(d[1..])
  }

  lemma {:induction false} SurvivorsFacts(d: seq<Option<InventoryItem>>)
    ensures forall x :: x in Survivors(d) <==> Some(x) in d && x.amount > 0.0
  {
    if d != [] {
      SurvivorsFacts(d[1..]);
      assert d == [d[0]] + d[1..];
    }
  }

  lemma {:induction false} SurvivorsAppend(a: seq<Option<InventoryItem>>, b: seq<Option<InventoryItem>>)
    ensures Survivors(a + b) == Survivors(a) + Survivors(b)
  {
    if a == [] {
      assert a + b == b;
    } else {
      assert (a + b)[0] == a[0];
      assert (a + b)[1..] == a[1..] + b;
      SurvivorsAppend(a[1..], b);
    }
  }

  /** `confirmCook`: deduct, then drop every batch that is not strictly positive. */
  function ConfirmCook(inv: seq<InventoryItem>, c: map<string, Entry>): seq<InventoryItem>
  {
    Survivors(DeductAll(inv, c))
  }

  /** Deducting changes the amount only: by the number the record holds for the name,
      floored at zero, when it is non-zero; not at all for `undefined` or zero; and it
      yields `NaN` exactly when the record holds something else for the name. */
  lemma DeductSpec(item: InventoryItem, c: map<string, Entry>)
    ensures Deduct(item, c).Some? ==> Deduct(item, c).value.(amount := item.amount) == item
    ensures Deduct(item, c).None? <==> Lookup(c, item.name) == Some(NonNumeric)
    ensures Lookup(c, item.name).None? || Lookup(c, item.name) == Some(Num(0.0)) ==> Deduct(item, c) == Some(item)
    ensures Lookup(c, item.name).Some? && Lookup(c, item.name).value.Num? && Lookup(c, item.name).value.value != 0.0 ==>
      Deduct(item, c) == Some(item.(amount := Max(0.0, item.amount - Lookup(c, item.name).value.value)))
    ensures item.name in ObjectMembers && item.name !in c ==> Deduct(item, c).None?
  {
  }

  /** After cooking every batch left is strictly positive, and a batch is left exactly when
      it is the deduction of a pantry batch that stays positive; a positive batch the record
      has nothing for survives unchanged. Cooking keeps the pantry's order. */
  lemma ConfirmCookSpec(inv: seq<InventoryItem>, more: seq<InventoryItem>, c: map<string, Entry>)
    ensures var r := ConfirmCook(inv, c);
      && (forall x :: x in r ==> x.amount > 0.0)
      && (forall x :: x in r ==> exists i :: 0 <= i < |inv| && Deduct(inv[i], c) == Some(x))
      && (forall i :: 0 <= i < |inv| && Deduct(inv[i], c).Some? ==>
            (Deduct(inv[i], c).value in r <==> Deduct(inv[i], c).value.amount > 0.0))
      && (forall i :: 0 <= i < |inv| && Lookup(c, inv[i].name).None? && inv[i].amount > 0.0 ==> inv[i] in r)
      && ConfirmCook(inv + more, c) == r + ConfirmCook(more, c)
  {
    var d := DeductAll(inv, c);
    SurvivorsFacts(d);
    forall i | 0 <= i < |inv| ensures d[i] == Deduct(inv[i], c) && d[i] in d { }
    forall x | Some(x) in d ensures exists i :: 0 <= i < |inv| && Deduct(inv[i], c) == Some(x) {
      var i :| 0 <= i < |d| && d[i] == Some(x);
    }
    assert DeductAll(inv + more, c) == d + DeductAll(more, c);
    SurvivorsAppend(d, DeductAll(more, c));
  }

  /** Cooking with the record of a cooked slot removes every batch named after an inherited
      member, whatever was cooked: its deduction is `NaN`. */
  lemma CookDropsObjectMembers(inv: seq<InventoryItem>, lines: seq<Line>)
    ensures forall x :: x in ConfirmCook(inv, Consumption(lines)) ==> x.name !in ObjectMembers
  {
    var c := Consumption(lines);
    ConfirmCookSpec(inv, [], c);
    forall x | x in ConfirmCook(inv, c) ensures x.name !in ObjectMembers {
      var i :| 0 <= i < |inv| && Deduct(inv[i], c) == Some(x);
      ConsumptionRecords(lines, inv[i].name);
    }
  }

  /** `onEdit`: overlay the edited fields on every entry with the id. */
  function EditAll(inv: seq<InventoryItem>, id: string, data: ItemUpdate): (r: seq<InventoryItem>)
    ensures |r| == |inv|
  {
    seq(|inv|, i requires 0 <= i < |inv| => if inv[i].id == id then Overlay(inv[i], data) else inv[i])
  }

  /** `onEdit`: overlay, then drop the entries that are not strictly positive. */
  function EditItem(inv: seq<InventoryItem>, id: string, data: ItemUpdate): seq<InventoryItem>
  {
    Filter(EditAll(inv, id, data), InStock)
  }

  /** After an edit every entry is strictly positive; entries with another id that were
      positive stay as they were; an edit that sets a non-positive amount removes the
      edited entries. */
  lemma EditItemSpec(inv: seq<InventoryItem>, id: string, data: ItemUpdate)
    ensures var r := EditItem(inv, id, data);
      && (forall x :: x in r ==> x.amount > 0.0)
      && (forall x :: x in r ==> exists i :: 0 <= i < |inv| && x == EditAll(inv, id, data)[i])
      && (forall i :: 0 <= i < |inv| && inv[i].id != id && inv[i].amount > 0.0 ==> inv[i] in r)
      && (forall i :: 0 <= i < |inv| && inv[i].id == id ==>
            (Overlay(inv[i], data) in r <==> Overlay(inv[i], data).amount > 0.0))
  {
    var e := EditAll(inv, id, data);
    FilterFacts(e, InStock);
    forall i | 0 <= i < |inv| ensures e[i] == (if inv[i].id == id then Overlay(inv[i], data) else inv[i]) && e[i] in e { }
  }
}
