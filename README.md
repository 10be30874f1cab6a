# KitchenMate kitchen logic in Dafny

KitchenMate is a kitchen assistant. It keeps an inventory of food batches, a recipe
collection and a meal plan of dated meal slots. From these it derives a shopping list, and
cooking a slot consumes its recipes' ingredients. This project models the logic behind
those features and proves what it promises:

- in `index.tsx`:
  - the free-text ingredient parser `smartParseIngredients`;
  - the shopping list: `generateList`, `toggleCheck`, `updateAmount` and `handleFinish`;
  - the recipe and meal-plan handlers;
  - buying into the inventory with `handlePurchase`;
  - cooking with `openCookModal` and `confirmCook`;
  - the inventory edit `onEdit` and the recipe search box;
- the three services under `services/`: the inventory, recipe and meal-plan stores, with
  the duplicate merge and the batch update of the inventory.

Modules, one file each:

| module | models |
|---|---|
| `Types` | the records of `types.ts` (ingredient, recipe, meal item and slot, inventory batch, shopping-list entry) and the `{ ...item, ...updates }` overlay |
| `Text` | the JavaScript string operations the code relies on: `trim`, `toLowerCase`, `includes`, `<` on strings |
| `Lists` | `Array.prototype.filter` and its laws |
| `Parser` | `smartParseIngredients`, with its regular expression written as a scanner |
| `Demand` | the demand a meal plan places: slots, then items, then ingredients, scaled by the item multiplier and accumulated per ingredient name |
| `ShoppingList` | `generateList` (imperative, against the demand) and the list handlers |
| `Pantry` | `handlePurchase`, `openCookModal`, `confirmCook` and `onEdit` |
| `MealPlan` | the slot operations, shared by the app handlers and `mealService` |
| `RecipeBook` | saving (upsert), deleting and searching recipes |
| `InventoryService` | class `InventoryStore` with `getInventory`, `addItems`, `updateItem`, `deleteItem`, `mergeDuplicates` and `batchUpdate` |
| `RecipeService` | class `RecipeStore` with `getRecipes`, `saveRecipe` and `deleteRecipe` |
| `MealService` | class `MealStore` with `getSlots`, `addItem`, `removeItem`, `updateItemMultiplier` and `clearSlot` |

The code works by changing state in several places, and the model keeps that form:

- `generateList`, `handlePurchase` and `openCookModal` are methods with loops. Each is
  proved equal to a specification function, and separate lemmas prove what that function
  means.
- The three services are classes whose `seq` fields the methods reassign.
- The React state updaters (`setX(prev => ...)`) are pure functions of the previous state.

A JavaScript `Map` or `Record` that the code fills is modelled in two ways. In
`generateList` and `mergeDuplicates` it is a sequence of entries with distinct keys, in
insertion order. The `Record` of `openCookModal` is a plain object: a Dafny `map` of its own
entries, read through `Lookup`, which also finds the members every plain object inherits
from `Object.prototype`.

## Model

| member | source | states |
|---|---|---|
| Text.TrimEmptyIff | index.tsx:280 | a line is dropped by `filter(line => line.trim())` exactly when it consists of whitespace only |
| Text.TrimOfTrimmed | index.tsx:284 | trimming a string without leading or trailing whitespace returns it unchanged |
| Text.Includes | index.tsx:764-766 | `s.includes(q)` holds exactly when `q` occurs in `s` at some position |
| Text.LexLessTransitive | services/inventoryService.ts:48 | string `<`, used to pick the earlier expiry date, is transitive |
| Text.LexLessTotal | services/inventoryService.ts:48 | of two different strings, one is `<` the other |
| Parser.MatchLineSound | index.tsx:283-284 | a match of the ingredient pattern splits the trimmed line into parts that give back the line exactly: digits, an optional `.digits` fraction, whitespace, an optional letter unit, whitespace and a name without line terminators |
| Parser.ParseLine | index.tsx:284-295 | a parsed line is never a seasoning and never has a negative amount |
| Parser.ParseWithUnit | index.tsx:282-292 | a number, optional whitespace, a letter unit, whitespace and a trimmed name parse to that name, the decimal value of the number and that unit (`200g Chicken`, `1.5 kg Beef`) |
| Parser.ParseWithoutUnit | index.tsx:282-292 | a number, whitespace and a trimmed name whose leading run of letters is the whole name or is not followed by whitespace parse to that name and number with unit `pcs` (`2 Chicken`, `2 Lemon, sliced`, `3 1/2 cups`) |
| Parser.MatchLineComplete | index.tsx:283-284 | every reading of a line by the ingredient pattern is found by the scanner, so the scanner rejects only lines the pattern rejects |
| Parser.MatchLineExact | index.tsx:283-284 | the scanner matches a trimmed line exactly when the pattern has a reading of it |
| Parser.Fallback | index.tsx:294-295 | a line whose trimmed text has no reading by the pattern becomes one `pcs` of the whole trimmed line |
| Parser.FallbackWithoutDigit | index.tsx:294-295 | a line that does not start with a digit becomes one `pcs` of the whole trimmed line |
| Parser.SlashFallback | index.tsx:283-295 | `1/2 cup sugar` has no reading and becomes one `pcs` of the whole line |
| Parser.NamelessFallback | index.tsx:283-295 | `500g` has no reading, because a name is required, and becomes one `pcs` of the whole line |
| Parser.ParseIngredientsAppend | index.tsx:280 | lines are parsed independently: the ingredients of `a + "\n" + b` are those of `a` followed by those of `b` |
| Parser.ParseIngredientsLine | index.tsx:280 | a single blank line yields no ingredient and any other line exactly one, its `ParseLine` |
| Parser.ParsedIngredientsWellFormed | index.tsx:286-295 | every parsed ingredient is a non-seasoning with a non-negative amount and a non-empty unit |
| Demand.FindRecipeFacts | index.tsx:1178 | `recipes.find` returns a recipe with the id asked for, and returns nothing exactly when no recipe has that id |
| Demand.AggregateCorrect | index.tsx:1173-1191 | the `needed` map has one entry per ingredient name used by the plan; the entry holds the sum of all scaled amounts for that exact name and the unit of its last use; names appear in order of first use |
| Demand.DanglingItemIgnored | index.tsx:1178-1179 | inserting an item whose recipe does not exist, anywhere in a slot, leaves the plan's demand unchanged |
| ShoppingList.GenerateList | index.tsx:1172-1219 | the list built by the nested loops is the netting of the aggregated demand of the plan against the inventory |
| ShoppingList.AccumulateDemand | index.tsx:1173-1191 | the loop over slots, items and ingredients builds the aggregated demand of the whole plan |
| ShoppingList.AddSlotItems | index.tsx:1177-1190 | the loop over a slot's items adds the scaled ingredient lines of every item whose recipe exists |
| ShoppingList.AddIngredients | index.tsx:1181-1189 | the loop over a recipe's ingredients adds each scaled amount under its name |
| ShoppingList.NetAgainst | index.tsx:1193-1217 | the netting loop emits, in demand order, one entry per demand that still has a shortfall or a unit mismatch |
| ShoppingList.FindStockFacts | index.tsx:1195 | the stock consulted is the first inventory batch with exactly that name, and none is consulted only when no batch has the name |
| ShoppingList.NetMeaning | index.tsx:1194-1216 | a note appears exactly when the stock batch has another unit, and then the full demand is listed; with the same unit the demand is listed exactly when the stock does not cover it, for the shortfall; a listed entry is unchecked, non-negative and carries the demand's name |
| ShoppingList.EmittingSpec | index.tsx:1207 | the demands that are listed are exactly those whose netting emits an entry, and they keep distinct names |
| ShoppingList.NetListSpec | index.tsx:1207-1216 | the k-th list entry is the entry of the k-th emitted demand, with the k-th fresh id |
| ShoppingList.ListMeetsDemand | index.tsx:1172-1219 | the generated list has distinct names; each entry is for a used ingredient whose total demand, netted against stock, needs buying; every such ingredient has an entry |
| ShoppingList.ToggleCheckSpec | index.tsx:1221-1223 | toggling flips `checked` on the entries with the id and changes nothing else |
| ShoppingList.ToggleCheckTwice | index.tsx:1221-1223 | toggling twice restores the list |
| ShoppingList.UpdateAmountSpec | index.tsx:1226-1228 | the entries with the id get the new `needed` and nothing else changes; a second update overrides the first |
| ShoppingList.FinishSplits | index.tsx:1230-1233 | finishing splits the list into the checked entries, which are bought, and the unchecked ones, which remain; together the two parts are a permutation of the list, and the split respects concatenation |
| Pantry.FindBatchFacts | index.tsx:1394 | the batch topped up is the first with the same name and unit; a new batch is made only when there is none |
| Pantry.HandlePurchase | index.tsx:1390-1419 | the purchase loop over the bought entries produces the inventory of `Purchased` |
| Pantry.PurchaseOneSpec | index.tsx:1393-1414 | buying an entry tops up the first batch with its name and unit (amount added, status normal, the new expiry) and leaves every other batch alone, or appends a new normal batch when there is none |
| Pantry.PurchasedKeeps | index.tsx:1390-1419 | a purchase keeps every existing batch's id, name and unit, leaves untouched the batches no bought entry matches, and only appends normal batches with the new expiry |
| Pantry.PurchasedStock | index.tsx:1390-1419 | for every name and unit, the stock after a purchase is the stock before plus the amount bought of that name and unit |
| Pantry.OpenCookModal | index.tsx:1422-1434 | the loop over the slot's items builds the consumption of all their scaled ingredient lines |
| Pantry.ConsumeIngredients | index.tsx:1427-1429 | the loop over one recipe's ingredients adds each scaled amount to the consumption |
| Pantry.AddConsumption | index.tsx:1428 | one update stores the amount plus what reading the name finds (starting from 0 when nothing is found, a non-number when an inherited member or a non-number is found), ignores a write to `__proto__`, and keeps every other name |
| Pantry.ConsumptionSpec | index.tsx:1423-1431 | the record has own entries for exactly the ingredient names used, `__proto__` excepted; reading an ordinary name gives its total quantity, or `undefined` when unused; reading a name inherited from `Object.prototype` never gives a number |
| Pantry.ConsumptionMatchesDemand | index.tsx:1424-1431 | for one slot, the cooking record and the shopping demand agree on the total of every ingredient whose name is not inherited from `Object.prototype`; for an inherited name the record holds no number |
| Pantry.DeductSpec | index.tsx:1438-1442 | cooking changes only a batch's amount: a batch for which the record reads a non-zero number drops by it, floored at 0; a batch for which it reads `undefined` or 0 stays as it was; a batch for which it reads a non-number gets a `NaN` amount, and an unconsumed batch named after an inherited member always does |
| Pantry.ConfirmCookSpec | index.tsx:1436-1444 | after cooking, every batch left has a positive amount; each is the deduction of a pantry batch, and a deducted batch with a numeric amount stays exactly when that amount is positive; a positive batch for which the record reads `undefined` survives unchanged; the result respects concatenation |
| Pantry.CookDropsObjectMembers | index.tsx:1424-1444 | cooking any slot removes every batch whose name is inherited from `Object.prototype` (`toString`, `constructor`, ...), since its deduction is `NaN` |
| Pantry.EditItemSpec | index.tsx:1495 | editing overlays the new data on the batches with the id and then drops every batch without a positive amount: the edited batch stays exactly when its new amount is positive, and untouched positive batches stay |
| Types.Overlay | index.tsx:1495 | the fields present in the update win, the others keep the item's values; an empty update changes nothing |
| MealPlan.FindSlotFacts | index.tsx:1362 | the slot found is the first with that date and meal type; none is found only when no slot has them |
| MealPlan.AddItemToSlotSpec | index.tsx:1360-1373 | an existing (date, type) slot gets the item appended and every other slot is unchanged; otherwise a new slot holding only the item is appended; one slot per (date, type) and no empty slot are preserved |
| MealPlan.RemoveItemFromSlotAppend | index.tsx:1375-1380 | removal works slot by slot: removing from `a + b` is removing from `a` followed by removing from `b`, so the plan's order is kept |
| MealPlan.RemoveItemFromSlotSpec | index.tsx:1375-1380 | the item disappears from its slot, every other non-empty slot survives unchanged, emptied slots are removed, and uniqueness of (date, type) is preserved |
| MealPlan.UpdateItemMultiplierSpec | index.tsx:1382-1387 | only the multiplier of the named item in the named slot changes; ids, recipes, dates, types and counts stay; the invariants are preserved |
| MealPlan.UpdateItemMultiplierTwice | index.tsx:1382-1387 | setting the same multiplier twice is the same as once |
| MealPlan.ClearSlotAppend | services/mealService.ts:59-65 | clearing works slot by slot: clearing `a + b` is clearing `a` followed by clearing `b` |
| MealPlan.ClearSlotSpec | services/mealService.ts:59-65 | clearing removes the slot with the id and keeps exactly the other non-empty slots |
| RecipeBook.FindRecipeIndexFacts | index.tsx:1350 | `findIndex` gives the first position with the id, the same recipe `find` gives, and `-1` exactly when no recipe has the id |
| RecipeBook.UpsertSpec | index.tsx:1348-1358 | saving a recipe with a known id replaces the first recipe with the id in place; with a new id it is appended; either way the id then finds the saved recipe |
| RecipeBook.UpsertTwice | index.tsx:1348-1358 | saving the same recipe twice is the same as once |
| RecipeBook.RemoveRecipeAppend | index.tsx:1483 | deleting from `a + b` is deleting from `a` followed by deleting from `b`, so the others keep their order |
| RecipeBook.RemoveRecipeSpec | index.tsx:1483 | deleting keeps exactly the recipes with another id, finds nothing under the id afterwards, and changes nothing when the id is unknown |
| RecipeBook.RemoveAfterUpsert | index.tsx:1483 | deleting an id after saving a recipe under it gives what deleting it from the original collection gives |
| RecipeBook.AnyIncludes | index.tsx:765-766 | `some(x => x.toLowerCase().includes(q))` holds exactly when some element, lower-cased, contains `q` |
| RecipeBook.SearchSpec | index.tsx:761-768 | the search shows exactly the recipes whose title, a tag or an ingredient name contains the query, both lower-cased; the case of the query does not matter; an empty query shows everything |
| InventoryService.Freshness | services/inventoryService.ts:51-58 | a date in the past is expired, one up to three days ahead is expiring, and a later one is normal |
| InventoryService.KeyCanCollide | services/inventoryService.ts:43 | the merge key is a plain concatenation, so two batches with different names can share a key when a name holds `::` |
| InventoryService.KeyEarliestLowest | services/inventoryService.ts:48 | no batch of a group has a date before the group's earliest date |
| InventoryService.KeyEarliestAttained | services/inventoryService.ts:48 | a group's earliest date is the date of one of its batches |
| InventoryService.MergedCorrect | services/inventoryService.ts:38-66 | after merging, each key has one entry, and there is an entry for every key present. An entry has the id, name and unit of its group's first batch, the total amount and the earliest date. A one-batch group passes through unchanged; a larger one gets the freshness of its date. Entries come in the order their keys first occur. |
| InventoryService.MergeConserves | services/inventoryService.ts:47 | merging conserves the total amount of every key |
| InventoryService.MergeUnique | services/inventoryService.ts:41-65 | a store whose keys are already distinct is left unchanged |
| InventoryService.MergeIdempotent | services/inventoryService.ts:38-66 | merging twice is the same as merging once |
| InventoryService.MergeInto | services/inventoryService.ts:43-63 | one iteration of the merge loop is one merge step on the map |
| InventoryService.UpdateInStoreSpec | services/inventoryService.ts:23-31 | the first batch with the id gets the update overlaid and every other batch stays; an unknown id changes nothing |
| InventoryService.DeleteByIdAppend | services/inventoryService.ts:33-36 | deleting from `a + b` is deleting from `a` followed by deleting from `b`, so the others keep their order |
| InventoryService.DeleteByIdSpec | services/inventoryService.ts:33-36 | deleting keeps exactly the batches with another id, and changes nothing when the id is unknown |
| InventoryService.ReplaceAllSpec | services/inventoryService.ts:73-78 | the first batch with an id that the updates carry becomes the last update with that id; every other batch stays, updates with an unknown id are ignored, and the length is kept |
| InventoryService.BatchUpdatedSpec | services/inventoryService.ts:69-81 | after a batch update, the store holds exactly the replaced batches with a positive amount |
| InventoryService.InventoryStore.constructor | services/inventoryService.ts:3-8 | the store starts with the four seed batches |
| InventoryService.InventoryStore.GetInventory | services/inventoryService.ts:13-16 | returns the stored batches and changes nothing |
| InventoryService.InventoryStore.AddItems | services/inventoryService.ts:18-21 | the new batches are appended after the stored ones |
| InventoryService.InventoryStore.UpdateItem | services/inventoryService.ts:23-31 | the store becomes `UpdateInStore`; a batch is returned exactly when the id was stored, and it is the updated batch, which keeps the id unless the update sets one |
| InventoryService.InventoryStore.DeleteItem | services/inventoryService.ts:33-36 | the store becomes `DeleteById` |
| InventoryService.InventoryStore.MergeDuplicates | services/inventoryService.ts:38-66 | the loop over the stored batches leaves the store equal to `Merged`, whose meaning `MergedCorrect` proves |
| InventoryService.InventoryStore.BatchUpdate | services/inventoryService.ts:69-81 | the replacement loop followed by the positive-amount filter leaves the store equal to `BatchUpdated` |
| RecipeService.RecipeStore.constructor | services/recipeService.ts:4-44 | the store starts with the given seed recipes |
| RecipeService.RecipeStore.GetRecipes | services/recipeService.ts:49-52 | returns the stored recipes and changes nothing |
| RecipeService.RecipeStore.SaveRecipe | services/recipeService.ts:54-63 | the store becomes the upsert of the recipe, its id finds it, and the recipe is returned |
| RecipeService.RecipeStore.DeleteRecipe | services/recipeService.ts:65-68 | the store keeps exactly the recipes with another id, and the id finds nothing afterwards |
| MealService.MealStore.constructor | services/mealService.ts:3-13 | the store starts with a dinner slot for today holding the two seed items, and satisfies the store invariant |
| MealService.MealStore.GetSlots | services/mealService.ts:18-21 | returns the stored slots; the date range is ignored |
| MealService.MealStore.AddItem | services/mealService.ts:23-41 | the store becomes `AddItemToSlot` and keeps one slot per (date, type) with no empty slot |
| MealService.MealStore.RemoveItem | services/mealService.ts:43-49 | the store becomes `RemoveItemFromSlot`, holds no empty slot, and keeps the invariant |
| MealService.MealStore.UpdateItemMultiplier | services/mealService.ts:51-57 | the store becomes `UpdateItemMultiplier` and keeps the invariant |
| MealService.MealStore.ClearSlot | services/mealService.ts:59-65 | the store becomes `ClearSlot`, holds no empty slot, and keeps the invariant |

## Left out

- Rendering, modals, translations, `alert` and the `delay` promises are not modelled. Every operation happens at once.
- Fresh ids:
  - `Math.random().toString()` ids are parameters: an explicit id, or a function from position to id.
  - The model does not assume that these ids are distinct.
- The clock is not modelled:
  - the purchase's expiry date (`Date.now()` plus seven days) is a parameter;
  - so is `today` in the meal store's seed;
  - in the merge, the day difference `Math.ceil((exp - today) / day)` is a function parameter `daysUntil`, and `Freshness` classifies its result.
- Numbers:
  - amounts and multipliers are exact reals, not IEEE doubles, so rounding, `NaN` and `Infinity` are not modelled;
  - `parseFloat` of the matched digits is their exact decimal value;
  - the `|| 0` of `openCookModal` and the `if (consumedAmount)` of `confirmCook` treat `undefined` and `0` alike; a numeric `NaN` total belongs to IEEE arithmetic, which is not modelled;
  - Pantry.DeductSpec: every non-number the record can hold (an inherited function or object, or the string `+` makes of one) is one value `NonNumeric`. The model keeps only what the code does with it: it is truthy, and the deduction from it is `NaN`, which the `amount > 0` filter rejects.
- Strings:
  - `toLowerCase` is modelled on ASCII letters only;
  - `trim` and `\s` use the ECMAScript white-space and line-terminator characters;
  - JavaScript's `<` compares UTF-16 code units, while `LexLess` compares Dafny characters. The two agree on the ISO dates the code compares.
- The shopping-list note text `Check: Have <amount><unit>` is kept as the stock amount and unit it reports. The translated wording is not modelled.
- The recipe seed data of `services/recipeService.ts` is a constructor parameter rather than the 40 lines of literals.
- Shopping-list and pantry handlers:
  - the loops of `generateList` are split into one method per nesting level, which keeps the order of the updates;
  - `handleFinish` hands the checked entries to `onPurchase`, and that hand-off is `Finish`'s first component.
- `onAdd` (index.tsx:1493) and the inventory `onDelete` (index.tsx:1496) are not modelled apart. They are the append of `AddItems` and the filter of `DeleteById`.
- MealService.MealStore.RemoveItem, MealService.MealStore.UpdateItemMultiplier and MealService.MealStore.ClearSlot each reassign the whole `slots` field, as the service does. The service's `map` never updates slot objects in place, so nothing about aliasing is lost.
- MealService.MealStore.GetSlots: the `startDate` and `endDate` parameters are accepted and ignored, as in the service.
- InventoryService.KeyCanCollide records behaviour of the code: keys built from names containing `::` can collide. The model keeps that behaviour and does not correct it.
- These parts of `index.tsx` are not part of this model: `getStatusColor` (271-277), the fixed sign-in check (310), the source text shown by the architecture view (427-469), and the unit lookup the cook modal does for display (1515).
- Cookability: `types.ts` declares `isCookable`, but none of the modelled code computes it.
