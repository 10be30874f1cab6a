/** The records of the kitchen application (types.ts) and a small Option type. */
module Types {

  datatype Option<T> = None | Some(value: T)

  /** A recipe line: `amount` of `unit` of `name`; seasonings never block cooking. */
  datatype Ingredient = Ingredient(name: string, amount: real, unit: string, isSeasoning: bool)

  datatype Recipe = Recipe(
    id: string,
    title: string,
    image: string,
    baseServings: real,
    ingredients: seq<Ingredient>,
    steps: seq<string>,
    tags: seq<string>)

  /** One planned inclusion of a recipe, scaled by `multiplier`. */
  datatype MealItem = MealItem(id: string, recipeId: string, multiplier: real)

  datatype MealType = Breakfast | Lunch | Dinner

  /** The container for one (date, meal type) of the plan. */
  datatype MealSlot = MealSlot(id: string, date: string, mealType: MealType, items: seq<MealItem>)

  datatype Status = Normal | Expiring | Expired

  /** One batch of stock; `expirationDate` is a `YYYY-MM-DD` string. */
  datatype InventoryItem = InventoryItem(
    id: string,
    name: string,
    amount: real,
    unit: string,
    expirationDate: string,
    status: Status)

  /** The advisory note of a shopping entry whose stock is held in another unit:
      it reports the quantity and the unit of that stock. */
  datatype Note = HaveInOtherUnit(stockAmount: real, stockUnit: string)

  datatype ShoppingListItem = ShoppingListItem(
    id: string,
    name: string,
    needed: real,
    unit: string,
    checked: bool,
    notes: Option<Note>)

  /** `Partial<InventoryItem>`: every field may be absent. */
  datatype ItemUpdate = ItemUpdate(
    id: Option<string>,
    name: Option<string>,
    amount: Option<real>,
    unit: Option<string>,
    expirationDate: Option<string>,
    status: Option<Status>)

  /** `{ ...item, ...updates }`: the fields present in `u` win. */
  function Overlay(item: InventoryItem, u: ItemUpdate): (r: InventoryItem)
    ensures u.amount.None? ==> r.amount == item.amount
    ensures u.amount.Some? ==> r.amount == u.amount.value
    ensures u == ItemUpdate(None, None, None, None, None, None) ==> r == item
  {
    InventoryItem(
      if u.id.Some? then u.id.value else item.id,
      if u.name.Some? then u.name.value else item.name,
      if u.amount.Some? then u.amount.value else item.amount,
      if u.unit.Some? then u.unit.value else item.unit,
      if u.expirationDate.Some? then u.expirationDate.value else item.expirationDate,
      if u.status.Some? then u.status.value else item.status)
  }

  function Max(a: real, b: real): (r: real)
    ensures r >= a && r >= b && (r == a || r == b)
  {
    if a >= b then a else b
  }
}
