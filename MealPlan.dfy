/** The meal-plan operations of the application (`addItemToSlot`, `removeItemFromSlot`,
    `updateItemMultiplier` and the slot clearing of the meal store) as functions from the
    old list of slots to the new one. */
module MealPlan {

  import opened Types
  import opened Lists

  /** The slot holds the given date and meal type. */
  predicate SameSlot(s: MealSlot, date: string, t: MealType)
  {
    s.date == date && s.mealType == t
  }

  /** `findIndex` of the slot for (`date`, `t`). */
  function FindSlot(slots: seq<MealSlot>, date: string, t: MealType): (r: Option<nat>)
    ensures r.Some? ==> r.value < |slots| && SameSlot(slots[r.value], date, t)
  {
    if slots == [] then None
    else if SameSlot(slots[0], date, t) then Some(0)
    else match FindSlot(slots[1..], date, t)
      case None => None
      case Some(k) => Some(k + 1)
  }

  /** `FindSlot` finds the first matching slot, and finds none only when there is none. */
  lemma {:induction false} FindSlotFacts(slots: seq<MealSlot>, date: string, t: MealType)
    ensures FindSlot(slots, date, t).Some? ==>
      forall k :: 0 <= k < FindSlot(slots, date, t).value ==> !SameSlot(slots[k], date, t)
    ensures FindSlot(slots, date, t).None? <==> forall k :: 0 <= k < |slots| ==> !SameSlot(slots[k], date, t)
  {
    if slots != [] && !SameSlot(slots[0], date, t) {
      FindSlotFacts(slots[1..], date, t);
      assert forall k :: 0 < k < |slots| ==> slots[k] == slots[1..][k - 1];
    }
  }

  /** `addItemToSlot`: the new item goes to the end of the first slot for (`date`, `t`);
      without such a slot, a slot holding only the new item is appended. `itemId` and
      `slotId` stand for the random ids the application draws. */
  function AddItemToSlot(slots: seq<MealSlot>, date: string, t: MealType, recipeId: string,
                         multiplier: real, itemId: string, slotId: string): seq<MealSlot>
  {
    var item := MealItem(itemId, recipeId, multiplier);
    match FindSlot(slots, date, t)
      case Some(k) => slots[k := slots[k].(items := slots[k].items + [item])]
      case None => slots + [MealSlot(slotId, date, t, [item])]
  }

  /** Two slots do not stand for the same (date, meal type). */
  predicate DifferentSlot(a: MealSlot, b: MealSlot)
  {
    a.date != b.date || a.mealType != b.mealType
  }

  /** At most one slot per (date, meal type). */
  predicate UniqueSlots(slots: seq<MealSlot>)
  {
    forall i, j :: 0 <= i < j < |slots| ==> DifferentSlot(slots[i], slots[j])
  }

  predicate HasItems(s: MealSlot)
  {
    s.items != []
  }

  /** No slot of the plan is empty. */
  predicate AllNonEmpty(slots: seq<MealSlot>)
  {
    forall i :: 0 <= i < |slots| ==> HasItems(slots[i])
  }

  /** Adding either extends the matching slot, leaving the rest alone, or appends a new slot
      with exactly the new item; either way the plan keeps one slot per (date, meal type)
      and no slot is empty. */
  lemma AddItemToSlotSpec(slots: seq<MealSlot>, date: string, t: MealType, recipeId: string,
                          multiplier: real, itemId: string, slotId: string)
    ensures var r := AddItemToSlot(slots, date, t, recipeId, multiplier, itemId, slotId);
      var item := MealItem(itemId, recipeId, multiplier);
      (exists k :: 0 <= k < |slots| && SameSlot(slots[k], date, t)) ==>
        |r| == |slots| &&
        exists k :: 0 <= k < |slots| && SameSlot(slots[k], date, t) &&
          (forall i :: 0 <= i < k ==> !SameSlot(slots[i], date, t)) &&
          r[k] == slots[k].(items := slots[k].items + [item]) &&
          forall i :: 0 <= i < |slots| && i != k ==> r[i] == slots[i]
    ensures var r := AddItemToSlot(slots, date, t, recipeId, multiplier, itemId, slotId);
      (forall k :: 0 <= k < |slots| ==> !SameSlot(slots[k], date, t)) ==>
        r == slots + [MealSlot(slotId, date, t, [MealItem(itemId, recipeId, multiplier)])]
    ensures var r := AddItemToSlot(slots, date, t, recipeId, multiplier, itemId, slotId);
      UniqueSlots(slots) ==> UniqueSlots(r)
    ensures var r := AddItemToSlot(slots, date, t, recipeId, multiplier, itemId, slotId);
      AllNonEmpty(slots) ==> AllNonEmpty(r)
  {
    FindSlotFacts(slots, date, t);
  }

  /** A slot after `removeItemFromSlot`'s map step: the slot `slotId` loses its items `itemId`. */
  function Strip(s: MealSlot, slotId: string, itemId: string): (r: MealSlot)
    ensures r.id == s.id && r.date == s.date && r.mealType == s.mealType
  {
    if s.id != slotId then s else s.(items := Filter(s.items, (x: MealItem) => x.id != itemId))
  }

  /** `removeItemFromSlot`: strip the item from its slot, then drop every empty slot. */
  function RemoveItemFromSlot(slots: seq<MealSlot>, slotId: string, itemId: string): seq<MealSlot>
  {
    Filter(seq(|slots|, i requires 0 <= i < |slots| => Strip(slots[i], slotId, itemId)), HasItems)
  }

  /** Removal works slot by slot and keeps the order of the plan. */
  lemma RemoveItemFromSlotAppend(a: seq<MealSlot>, b: seq<MealSlot>, slotId: string, itemId: string)
    ensures RemoveItemFromSlot(a + b, slotId, itemId)
      == RemoveItemFromSlot(a, slotId, itemId) + RemoveItemFromSlot(b, slotId, itemId)
  {
    var ma := seq(|a|, i requires 0 <= i < |a| => Strip(a[i], slotId, itemId));
    var mb := seq(|b|, i requires 0 <= i < |b| => Strip(b[i], slotId, itemId));
    assert seq(|a + b|, i requires 0 <= i < |a + b| => Strip((a + b)[i], slotId, itemId)) == ma + mb;
    FilterAppend(ma, mb, HasItems);
  }

  /** What removal keeps: exactly the stripped slots that still hold items. In particular no
      slot `slotId` holds an item `itemId` any more, slots other than `slotId` that held items
      are kept unchanged, no slot is empty and one slot per (date, meal type) is kept. */
  lemma RemoveItemFromSlotSpec(slots: seq<MealSlot>, slotId: string, itemId: string)
    ensures var r := RemoveItemFromSlot(slots, slotId, itemId);
      forall s :: s in r <==> HasItems(s) && exists i :: 0 <= i < |slots| && s == Strip(slots[i], slotId, itemId)
    ensures var r := RemoveItemFromSlot(slots, slotId, itemId);
      forall k, j :: 0 <= k < |r| && r[k].id == slotId && 0 <= j < |r[k].items| ==> r[k].items[j].id != itemId
    ensures var r := RemoveItemFromSlot(slots, slotId, itemId);
      forall i :: 0 <= i < |slots| && slots[i].id != slotId && HasItems(slots[i]) ==> slots[i] in r
    ensures AllNonEmpty(RemoveItemFromSlot(slots, slotId, itemId))
    ensures UniqueSlots(slots) ==> UniqueSlots(RemoveItemFromSlot(slots, slotId, itemId))
  {
    var m := seq(|slots|, i requires 0 <= i < |slots| => Strip(slots[i], slotId, itemId));
    var r := Filter(m, HasItems);
    FilterFacts(m, HasItems);
    forall s ensures s in r <==> HasItems(s) && exists i :: 0 <= i < |slots| && s == Strip(slots[i], slotId, itemId) {
      if s in m {
        var i :| 0 <= i < |m| && m[i] == s;
      }
      if exists i :: 0 <= i < |slots| && s == Strip(slots[i], slotId, itemId) {
        var i :| 0 <= i < |slots| && s == Strip(slots[i], slotId, itemId);
        assert m[i] == s;
      }
    }
    forall k, j | 0 <= k < |r| && r[k].id == slotId && 0 <= j < |r[k].items| ensures r[k].items[j].id != itemId {
      assert r[k] in r;
      var i :| 0 <= i < |m| && m[i] == r[k];
      FilterFacts(slots[i].items, (x: MealItem) => x.id != itemId);
    }
    forall i | 0 <= i < |slots| && slots[i].id != slotId && HasItems(slots[i]) ensures slots[i] in r {
      assert m[i] == slots[i];
    }
    if UniqueSlots(slots) {
      assert forall i, j :: 0 <= i < j < |m| ==> DifferentSlot(m[i], m[j]);
      FilterPairwise(m, HasItems, DifferentSlot);
    }
  }

  /** `updateItemMultiplier`'s inner map: items `itemId` get multiplier `multiplier`. */
  function SetMultiplier(items: seq<MealItem>, itemId: string, multiplier: real): (r: seq<MealItem>)
    ensures |r| == |items|
  {
    seq(|items|, j requires 0 <= j < |items| =>
      if items[j].id == itemId then items[j].(multiplier := multiplier) else items[j])
  }

  /** `updateItemMultiplier`: the items `itemId` of the slots `slotId` get the new multiplier. */
  function UpdateItemMultiplier(slots: seq<MealSlot>, slotId: string, itemId: string, multiplier: real): (r: seq<MealSlot>)
    ensures |r| == |slots|
  {
    seq(|slots|, i requires 0 <= i < |slots| =>
      if slots[i].id != slotId then slots[i] else slots[i].(items := SetMultiplier(slots[i].items, itemId, multiplier)))
  }

  /** Only the multiplier of the targeted items changes: every slot keeps its id, date, type
      and its items in order with their ids and recipes. Hence the plan keeps its shape. */
  lemma UpdateItemMultiplierSpec(slots: seq<MealSlot>, slotId: string, itemId: string, multiplier: real)
    ensures var r := UpdateItemMultiplier(slots, slotId, itemId, multiplier);
      forall i :: 0 <= i < |slots| ==>
        r[i].id == slots[i].id && r[i].date == slots[i].date && r[i].mealType == slots[i].mealType &&
        |r[i].items| == |slots[i].items| &&
        forall j :: 0 <= j < |slots[i].items| ==>
          r[i].items[j].id == slots[i].items[j].id &&
          r[i].items[j].recipeId == slots[i].items[j].recipeId &&
          r[i].items[j].multiplier ==
            (if slots[i].id == slotId && slots[i].items[j].id == itemId then multiplier
             else slots[i].items[j].multiplier)
    ensures UniqueSlots(slots) ==> UniqueSlots(UpdateItemMultiplier(slots, slotId, itemId, multiplier))
    ensures AllNonEmpty(slots) ==> AllNonEmpty(UpdateItemMultiplier(slots, slotId, itemId, multiplier))
  {
  }

  /** Setting the same multiplier twice is the same as setting it once. */
  lemma UpdateItemMultiplierTwice(slots: seq<MealSlot>, slotId: string, itemId: string, multiplier: real)
    ensures var once := UpdateItemMultiplier(slots, slotId, itemId, multiplier);
      UpdateItemMultiplier(once, slotId, itemId, multiplier) == once
  {
    var once := UpdateItemMultiplier(slots, slotId, itemId, multiplier);
    var twice := UpdateItemMultiplier(once, slotId, itemId, multiplier);
    forall i | 0 <= i < |slots| ensures twice[i] == once[i] {
      if slots[i].id == slotId {
        assert twice[i].items == once[i].items;
      }
    }
  }

  /** A slot after `clearSlot`'s map step. */
  function Emptied(s: MealSlot, slotId: string): (r: MealSlot)
    ensures r.id == s.id && r.date == s.date && r.mealType == s.mealType
  {
    if s.id == slotId then s.(items := []) else s
  }

  /** `clearSlot`: empty the slot `slotId`, then drop every empty slot. */
  function ClearSlot(slots: seq<MealSlot>, slotId: string): seq<MealSlot>
  {
    Filter(seq(|slots|, i requires 0 <= i < |slots| => Emptied(slots[i], slotId)), HasItems)
  }

  /** Clearing works slot by slot and keeps the order of the plan. */
  lemma ClearSlotAppend(a: seq<MealSlot>, b: seq<MealSlot>, slotId: string)
    ensures ClearSlot(a + b, slotId) == ClearSlot(a, slotId) + ClearSlot(b, slotId)
  {
    var ma := seq(|a|, i requires 0 <= i < |a| => Emptied(a[i], slotId));
    var mb := seq(|b|, i requires 0 <= i < |b| => Emptied(b[i], slotId));
    assert seq(|a + b|, i requires 0 <= i < |a + b| => Emptied((a + b)[i], slotId)) == ma + mb;
    FilterAppend(ma, mb, HasItems);
  }

  /** Clearing keeps exactly the original slots that are not `slotId` and hold items. */
  lemma ClearSlotSpec(slots: seq<MealSlot>, slotId: string)
    ensures forall s :: s in ClearSlot(slots, slotId) <==> s in slots && s.id != slotId && HasItems(s)
    ensures AllNonEmpty(ClearSlot(slots, slotId))
    ensures UniqueSlots(slots) ==> UniqueSlots(ClearSlot(slots, slotId))
  {
    var m := seq(|slots|, i requires 0 <= i < |slots| => Emptied(slots[i], slotId));
    var r := Filter(m, HasItems);
    FilterFacts(m, HasItems);
    forall s ensures s in r <==> s in slots && s.id != slotId && HasItems(s) {
      if s in m {
        var i :| 0 <= i < |m| && m[i] == s;
      }
      if s in slots && s.id != slotId {
        var i :| 0 <= i < |slots| && slots[i] == s;
        assert m[i] == s;
      }
    }
    if UniqueSlots(slots) {
      assert forall i, j :: 0 <= i < j < |m| ==> DifferentSlot(m[i], m[j]);
      FilterPairwise(m, HasItems, DifferentSlot);
    }
  }
}
