/** The meal-plan store of services/mealService.ts. */
module MealService {

  import opened Types
  import opened MealPlan

  /** The store's seed: one dinner slot for today with two items. */
  function InitialSlots(today: string): seq<MealSlot>
  {
    [MealSlot("101", today, Dinner, [MealItem("item1", "1", 2.0), MealItem("item2", "3", 2.0)])]
  }

  /** `mealService` over its store `localSlots`. */
  class MealStore {
    var slots: seq<MealSlot>

    /** One slot per (date, meal type), none empty. */
    predicate Valid()
      reads this
    {
      UniqueSlots(slots) && AllNonEmpty(slots)
    }

    constructor (today: string)
      ensures slots == InitialSlots(today)
      ensures Valid()
    {
      slots := InitialSlots(today);
    }

    /** `getSlots`: the date range is ignored and the whole store is returned. */
    method GetSlots(startDate: Option<string>, endDate: Option<string>) returns (r: seq<MealSlot>)
      ensures r == slots
    {
      r := slots;
    }

    /** `addItem`, `itemId` and `slotId` standing for the random ids. */
    method AddItem(date: string, t: MealType, recipeId: string, multiplier: real, itemId: string, slotId: string)
      modifies this
      ensures slots == AddItemToSlot(old(slots), date, t, recipeId, multiplier, itemId, slotId)
      ensures old(Valid()) ==> Valid()
    {
      AddItemToSlotSpec(slots, date, t, recipeId, multiplier, itemId, slotId);
      var existingIdx := FindSlot(slots, date, t);
      var newItem := MealItem(itemId, recipeId, multiplier);
      if existingIdx.Some? {
        var k := existingIdx.value;
        slots := slots[k := slots[k].(items := slots[k].items + [newItem])];
      } else {
        slots := slots + [MealSlot(slotId, date, t, [newItem])];
      }
    }

    /** `removeItem`: afterwards no slot is empty. */
    method RemoveItem(slotId: string, itemId: string)
      modifies this
      ensures slots == RemoveItemFromSlot(old(slots), slotId, itemId)
      ensures AllNonEmpty(slots)
      ensures old(Valid()) ==> Valid()
    {
      RemoveItemFromSlotSpec(slots, slotId, itemId);
      slots := RemoveItemFromSlot(slots, slotId, itemId);
    }

    /** `updateItemMultiplier`. */
    method UpdateItemMultiplier(slotId: string, itemId: string, multiplier: real)
      modifies this
      ensures slots == MealPlan.UpdateItemMultiplier(old(slots), slotId, itemId, multiplier)
      ensures old(Valid()) ==> Valid()
    {
      UpdateItemMultiplierSpec(slots, slotId, itemId, multiplier);
      slots := MealPlan.UpdateItemMultiplier(slots, slotId, itemId, multiplier);
    }

    /** `clearSlot`: afterwards no slot is empty. */
    method ClearSlot(slotId: string)
      modifies this
      ensures slots == MealPlan.ClearSlot(old(slots), slotId)
      ensures AllNonEmpty(slots)
      ensures old(Valid()) ==> Valid()
    {
      ClearSlotSpec(slots, slotId);
      slots := MealPlan.ClearSlot(slots, slotId);
    }
  }
}
