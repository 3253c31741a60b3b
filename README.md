# Receptenapp recipe store, modelled in Dafny

This project models the local persistence layer of Receptenapp, a personal recipe catalogue, and the list state the user interface keeps on top of it.

- **Record store** (`src/lib/db/database.ts`):
  - an IndexedDB object store `recipes`, keyed by `id`, behind a connection handle that `initDB` opens and `resetDB` drops;
  - the operations add, get, getAll (newest first), update, delete, toggle favourite, by category, favourites, search, export, import (replace or merge) and count.
- **Record types and category table** (`src/lib/db/types.ts`): the ten categories, the `Recipe` record, the `CATEGORIES` display table and the label and icon lookups.
- **List stores** (`src/lib/stores/recipes.ts`):
  - the cached recipe list and the filter settings;
  - the derived `filteredRecipes`, `favoritesCount` and `categoryCount`;
  - the actions that write through to the database and then patch the cached list.

The modules follow the program:

- `Seqs`: order-preserving filtering and subsequences.
- `Text`: JavaScript's `trim`, ASCII `toLowerCase`, and `includes`.
- `KeyOrder`: IndexedDB's string key order.
- `Types`: the records and the category table.
- `Queries`: the read side of the store.
- `Database`: the record store.
  - Each operation is first a function from the old store content to its result and the new content.
  - The class `RecipeDatabase` then performs it in place on a `map<string, Recipe>` field.
- `Stores`: the list stores, with the class `RecipeStores`.

Abstractions:

- `new Date()` reads the integer field `clock`. Every reading within one operation gives the same value, and `AdvanceClock` never moves it backwards.
- `generateId()` is replaced by an id the caller supplies: `newId` for an add, and the oracle `ids(i)` for the `i`-th record of a merge import.
- An update's `Partial<Recipe>` is a `RecipePatch`, with one `Keep | Assign(v)` per property.
- Export and import work on sequences of records instead of JSON text.

The code keeps neither `createdAt` fixed nor `createdAt <= updatedAt`:

- `updateRecipe` lets `updates` set `createdAt` (src/lib/db/database.ts:135-140), and import copies `createdAt` from the payload while stamping `updatedAt` with now (src/lib/db/database.ts:255-259). So `createdAt <= updatedAt` is proved only as preserved by updates that leave `createdAt` alone (`UpdateKeepsTimestampsOrdered`), not as a store invariant.

A taken id on add:

- An add whose id is already present fails with 'Failed to add recipe' and changes nothing. This models `store.add` refusing a taken key.

## Model

| member | source | states |
|---|---|---|
| Seqs.Filter | src/lib/db/database.ts:200 | `Array.filter`: the result is an order-preserving subsequence that keeps every copy of each element passing the predicate and no other element |
| Text.Lower | src/lib/db/database.ts:206 | `toLowerCase()` on ASCII letters; `TrimLowerCommute` and `SearchIgnoresCase` state how it combines with `trim` and search |
| Text.Contains | src/lib/db/database.ts:211 | `includes(q)`; its meaning is stated by `ContainsIffOccurs` |
| Text.Trim | src/lib/db/database.ts:206 | `trim()`: the result is `s` with the leading and trailing whitespace run cut away; it neither starts nor ends with whitespace |
| Text.TrimBlankIff | src/lib/db/database.ts:208 | a query trims to the empty string exactly when it is all whitespace |
| Text.TrimLowerCommute | src/lib/db/database.ts:206 | `toLowerCase().trim()` equals `trim().toLowerCase()`, and lower-casing does not change whether a query is blank |
| Text.ContainsIffOccurs | src/lib/db/database.ts:211 | `includes(q)` holds exactly when `q` occurs at some position |
| KeyOrder.SortedKeys | src/lib/db/database.ts:86 | the keys of the store, each once, in strictly ascending key order |
| KeyOrder.KeyLessTotal | src/lib/db/database.ts:40 | any two distinct primary keys are ordered one way or the other |
| Types.CategoryIndex | src/lib/db/types.ts:2-12 | every category is one of the ten listed values |
| Types.CategoriesCoverage | src/lib/db/types.ts:45-56 | the table has ten rows, the row of each category carries that category, and the values are pairwise distinct |
| Types.FindCategory | src/lib/db/types.ts:59 | `CATEGORIES.find`: the index of the first row with that value, or none when no row has it |
| Types.CategoryLabel | src/lib/db/types.ts:58-60 | `getCategoryLabel`: `LabelIn` over `CATEGORIES`; `CategoryDisplayFromTable` and `LabelIsCapitalizedValue` state that it is the row's label, the capitalised value |
| Types.CategoryIcon | src/lib/db/types.ts:62-64 | `getCategoryIcon`: `IconIn` over `CATEGORIES`; `CategoryDisplayFromTable` states that it is the row's icon |
| Types.LabelIn | src/lib/db/types.ts:58-60 | the label of the first matching row, or the category string when there is no row or its label is empty; never empty |
| Types.IconIn | src/lib/db/types.ts:62-64 | the icon of the first matching row, or '📝' when there is no row or its icon is empty; never empty |
| Types.RowFilled | src/lib/db/types.ts:46-55 | every label and every icon in the table is non-empty |
| Types.CategoryDisplayFromTable | src/lib/db/types.ts:58-64 | for every category, the label and icon are the table's own, and the fallbacks are never used |
| Types.LabelIsCapitalizedValue | src/lib/db/types.ts:46-55 | each category's label is its value with the first letter in upper case |
| Queries.Snapshot | src/lib/db/database.ts:86 | `store.getAll()`: one record per key; `SnapshotListing` states it lists the store in key order |
| Queries.SnapshotListing | src/lib/db/database.ts:86 | `getAll()` on the object store lists every stored record once, in ascending key order |
| Queries.SortNewestFirst | src/lib/db/database.ts:95 | the sort is a permutation and leaves `updatedAt` non-increasing |
| Queries.SortStable | src/lib/db/database.ts:95 | the sort is stable: records with equal `updatedAt` keep their key order |
| Queries.AllRecipes | src/lib/db/database.ts:80-100 | `getAllRecipes` on store content; its contract is `AllRecipesListing` |
| Queries.AllRecipesListing | src/lib/db/database.ts:80-99 | `getAllRecipes` returns every stored record exactly once, newest first, with ties in key order |
| Queries.ByCategory | src/lib/db/database.ts:175-195 | the category index's records, sorted newest first; its contract is `ByCategoryIsFilteredAll` |
| Queries.ByCategoryIsFilteredAll | src/lib/db/database.ts:175-195 | `getRecipesByCategory(c)` is exactly `getAllRecipes()` filtered to category `c`, in the same order |
| Queries.Favorites | src/lib/db/database.ts:198-201 | exactly the favourites, in `getAllRecipes` order |
| Queries.Search | src/lib/db/database.ts:204-217 | `searchRecipes` on store content; its contract is `SearchSpec` |
| Queries.SearchSpec | src/lib/db/database.ts:204-217 | a blank query returns `getAllRecipes()`; otherwise an order-preserving subsequence of it that holds exactly the records whose lower-cased title, or some lower-cased ingredient, contains the trimmed lower-cased query (no ingredient list, no ingredient match) |
| Queries.SearchIgnoresCase | src/lib/db/database.ts:206 | lower-casing the query first does not change the result |
| Database.Lookup | src/lib/db/database.ts:103-124 | `getRecipe` on store content: the record or none; used by `AddSpec` and `DeleteSpec` |
| Database.NewRecipe | src/lib/db/database.ts:62-67 | the record `addRecipe` builds; `AddSpec` states it carries every input field |
| Database.Add | src/lib/db/database.ts:59-77 | `addRecipe` on store content; its contract is `AddSpec` |
| Database.AddSpec | src/lib/db/database.ts:59-76 | a taken id fails with 'Failed to add recipe' and changes nothing; otherwise the new record carries every input field and the new id, `createdAt <= updatedAt`, `getRecipe` returns it, and no other record changes |
| Database.ApplyUpdates | src/lib/db/database.ts:135-140 | the merged record; its contract is `UpdateFields` |
| Database.UpdateFields | src/lib/db/database.ts:135-140 | the merged record keeps the id and takes `updatedAt` now, even if `updates` names them; every other property takes the value `updates` gives it and otherwise keeps its old value |
| Database.Update | src/lib/db/database.ts:127-150 | `updateRecipe` on store content; its contract is `UpdateSpec` |
| Database.UpdateSpec | src/lib/db/database.ts:127-150 | an absent id fails with 'Recipe not found' and changes nothing; otherwise the merged record is stored under the same id and no other record changes |
| Database.UpdateKeepsTimestampsOrdered | src/lib/db/database.ts:127-150 | on a store whose records were all changed no later than now, an update never moves the record's `updatedAt` back and leaves every record changed no later than now; an update that does not name `createdAt` keeps `createdAt <= updatedAt` for a record that had it |
| Database.Delete | src/lib/db/database.ts:153-164 | `deleteRecipe` on store content; its contract is `DeleteSpec` |
| Database.DeleteSpec | src/lib/db/database.ts:153-164 | afterwards the id is absent and every other record is unchanged; deleting an absent id changes nothing, so deleting twice is deleting once |
| Database.Toggle | src/lib/db/database.ts:167-172 | `toggleFavorite` on store content; its contract is `ToggleSpec` |
| Database.ToggleSpec | src/lib/db/database.ts:167-172 | an absent id fails with 'Recipe not found'; otherwise only `isFavorite` (flipped) and `updatedAt` of that record change |
| Database.ToggleTwice | src/lib/db/database.ts:167-172 | toggling twice restores the favourite flag and differs from the original only in `updatedAt` |
| Database.ImportedRecords | src/lib/db/database.ts:253-260 | one written record per incoming one; the `i`-th has the oracle's `ids(i)` in merge mode and its own id in replace mode, every data property and `createdAt` copied, and `updatedAt` now |
| Database.PutAll | src/lib/db/database.ts:253-272 | the puts of an import, in order; `PutAllKeys`, `PutAllLast` and `PutAllUntouched` state their effect |
| Database.PutAllLast | src/lib/db/database.ts:262-265 | successive puts: the last record written with an id wins |
| Database.Import | src/lib/db/database.ts:230-281 | `importRecipes` on store content; its contract is `ImportRejectsMissingList`, `ImportReplaceSpec` and `ImportMergeSpec` |
| Database.Export | src/lib/db/database.ts:220-227 | `exportRecipes` before serialisation; `ExportReplaceRoundTrip` states its round trip with import |
| Database.ImportRejectsMissingList | src/lib/db/database.ts:234-236 | a payload without a `recipes` array fails with 'Invalid import format' and writes nothing |
| Database.ImportReplaceSpec | src/lib/db/database.ts:240-274 | replace keeps nothing of the old content: the store holds exactly the incoming ids, each with the last incoming record of that id, restamped; the count is the number of records |
| Database.ImportMergeSpec | src/lib/db/database.ts:251-274 | with fresh ids, merge leaves every existing record untouched and adds each incoming record under its own new id; the store grows by the number of records |
| Database.ExportReplaceRoundTrip | src/lib/db/database.ts:220-274 | importing an export in replace mode restores every record under its own id with only `updatedAt` restamped, whatever the store held before |
| Database.RecipeDatabase.constructor | src/lib/db/database.ts:7 | an empty store and no open connection |
| Database.RecipeDatabase.InitDB | src/lib/db/database.ts:10-11 | opens the connection unless it is open; the data is unchanged |
| Database.RecipeDatabase.ResetDB | src/lib/db/database.ts:298-303 | drops the connection; the data stays |
| Database.RecipeDatabase.AddRecipe | src/lib/db/database.ts:59-77 | performs `Add` on the store in place and keeps every record under its own id, none changed later than now |
| Database.RecipeDatabase.GetAllRecipes | src/lib/db/database.ts:80-100 | returns `AllRecipes` of the store and changes nothing |
| Database.RecipeDatabase.GetRecipe | src/lib/db/database.ts:103-124 | returns the stored record or none, never an error, and changes nothing |
| Database.RecipeDatabase.UpdateRecipe | src/lib/db/database.ts:127-150 | performs `Update` on the store in place |
| Database.RecipeDatabase.DeleteRecipe | src/lib/db/database.ts:153-164 | performs `Delete` on the store in place |
| Database.RecipeDatabase.ToggleFavorite | src/lib/db/database.ts:167-172 | performs `Toggle` on the store in place |
| Database.RecipeDatabase.GetRecipesByCategory | src/lib/db/database.ts:175-195 | returns `ByCategory` of the store and changes nothing |
| Database.RecipeDatabase.GetFavoriteRecipes | src/lib/db/database.ts:198-201 | returns `Favorites` of the store and changes nothing |
| Database.RecipeDatabase.SearchRecipes | src/lib/db/database.ts:204-217 | returns `Search` of the store and changes nothing |
| Database.RecipeDatabase.ExportRecipes | src/lib/db/database.ts:220-227 | returns version 1, the current time and `getAllRecipes()` |
| Database.RecipeDatabase.ImportRecipes | src/lib/db/database.ts:230-281 | merge by default; the loop of puts performs `Import` on the store in place and reports one write per record |
| Database.RecipeDatabase.GetRecipeCount | src/lib/db/database.ts:284-295 | returns the number of stored records, which is also the number of records `getAllRecipes` returns; changes nothing |
| Stores.FilteredRecipes | src/lib/stores/recipes.ts:16-45 | the derived `filteredRecipes`; its contract is `FilteredRecipesSpec` |
| Stores.FilteredRecipesSpec | src/lib/stores/recipes.ts:16-45 | the view is an order-preserving subsequence of the list, and a record is shown exactly when it passes the favourites, category and search filters |
| Stores.FilteredMatchesSearch | src/lib/stores/recipes.ts:32-40 | with no other filter, the view of a freshly loaded list is exactly `searchRecipes(query)` |
| Stores.FavoritesCount | src/lib/stores/recipes.ts:48-50 | the derived `favoritesCount`: at most the list length; `FavoritesCountSpec` states it counts the favourites |
| Stores.FavoritesCountSpec | src/lib/stores/recipes.ts:48-50 | the count is the number of favourites in the list |
| Stores.CategoryCount | src/lib/stores/recipes.ts:53-59 | `all` maps to the length; each category maps to its number of records and is absent when it has none; no other keys; the per-category counts sum to the `all` entry |
| Stores.TallyCounts | src/lib/stores/recipes.ts:54-57 | the map the loop builds holds, per category present, the number of its records |
| Stores.CategoryCountsSum | src/lib/stores/recipes.ts:54-57 | summed over the ten categories the counts give the length of the list |
| Stores.ReplaceById | src/lib/stores/recipes.ts:86 | same length; elements with the id become the returned record, all others are unchanged |
| Stores.RemoveById | src/lib/stores/recipes.ts:92 | an order-preserving subsequence that keeps every copy of each record with another id and drops those with this id; its length is the number of such positions |
| Stores.PrependKeepsListing | src/lib/stores/recipes.ts:78-79 | after a successful add, the prepended list still lists exactly the stored records |
| Stores.ReplaceKeepsListing | src/lib/stores/recipes.ts:85-86 | after a successful update or toggle, the patched list still lists exactly the stored records |
| Stores.RemoveKeepsListing | src/lib/stores/recipes.ts:91-92 | after a delete, the filtered list still lists exactly the stored records |
| Stores.RecipeStores.constructor | src/lib/stores/recipes.ts:6-13 | an empty list, an empty query, category 'all', favourites-only off |
| Stores.RecipeStores.LoadRecipes | src/lib/stores/recipes.ts:62-74 | the list becomes `getAllRecipes()` and lists the store |
| Stores.RecipeStores.AddRecipe | src/lib/stores/recipes.ts:77-81 | adds in the database, prepends the new record only on success, and keeps a synchronised list synchronised |
| Stores.RecipeStores.UpdateRecipe | src/lib/stores/recipes.ts:84-87 | updates in the database, then replaces the elements with that id; keeps a synchronised list synchronised |
| Stores.RecipeStores.DeleteRecipe | src/lib/stores/recipes.ts:90-93 | deletes in the database, then drops the elements with that id; keeps a synchronised list synchronised |
| Stores.RecipeStores.ToggleFavorite | src/lib/stores/recipes.ts:96-99 | toggles in the database, then replaces the elements with that id; keeps a synchronised list synchronised |
| Stores.RecipeStores.ImportRecipes | src/lib/stores/recipes.ts:116-121 | merge by default; imports in the database, then reloads the list; a refused payload leaves the list as it was |
| Stores.RecipeStores.ClearFilters | src/lib/stores/recipes.ts:124-128 | query empty, category 'all', favourites-only off; the view then shows the whole list |

## Left out

- The IndexedDB machinery in `initDB` is modelled only as an open or closed handle:
  - the open and upgrade callbacks;
  - object-store and index creation;
  - transactions and request callbacks;
  - promises and `async` interleaving.
  Operations run one after another.
- `navigator.storage.persist` and console logging are browser side effects without effect on the data.
- Failed storage requests are not modelled because the storage engine is abstract:
  - 'Failed to open database', 'Failed to get recipes', 'Failed to update recipe' and the other messages for failed requests;
  - 'Failed to clear recipes' and 'Failed to import recipe', and with them the partial import count after a failed put.
  An add collision is the one write failure modelled.
- JSON is not modelled:
  - `JSON.stringify` and `JSON.parse`;
  - the ISO-8601 `exportDate` string;
  - the 'Invalid JSON format' mapping for a `SyntaxError`.
  Export and import work on parsed records, and a payload without a `recipes` array is `None`.
- Types.RecipePatch: a property is either kept or assigned a value of its own type. A `Partial<Recipe>` that sets a required property to `undefined`, such as `{ title: undefined }`, erases it through `...updates`; the model cannot express that record, nor the later failure of a non-blank `searchRecipes` on its missing title (src/lib/db/database.ts:211). Database.ApplyUpdates inherits this.
- Per-record import data is taken as well-formed records. Malformed entries and an invalid `createdAt` date are not modelled.
- `Date.now()` and `Math.random()` in `generateId` are nondeterministic. The id comes from the caller or the `ids` oracle, and the uniqueness of merge ids is the hypothesis `FreshIds`.
- `new Date()` is read once per operation, so an added record has `createdAt == updatedAt`. Two separate readings would give `createdAt <= updatedAt`, which the model satisfies.
- Database.Import: stamps every imported record with one clock value. `importRecipes` reads `new Date()` once per record (src/lib/db/database.ts:259), so later records can get a later `updatedAt` and `getAllRecipes` would list them first; the model orders these ties by key instead.
- `toLowerCase` changes only the ASCII letters A-Z. Other Unicode case mappings are not modelled.
- `trim` removes the JavaScript whitespace and line-terminator characters, compared as code points.
- Key order compares code points, not UTF-16 code units. The two orders differ only for characters outside the Basic Multilingual Plane.
- Timestamps and `servings`/`cookTime` are integers rather than floating-point numbers.
- Stores.RecipeStores.LoadRecipes: the `isLoading` and `error` flags and the 'Fout bij het laden van recepten' fallback message are UI reactivity and are not modelled.
- The Svelte `writable`/`derived` reactivity is not modelled. Derived values are functions of the current fields.
- `exportRecipes` in `src/lib/stores/recipes.ts` is left out. It is a Blob, URL and DOM download with no data logic.
- `file.text()` in the store's `importRecipes` reads a browser file, so the method takes the parsed payload instead.
- The theme and settings stores, the build configuration and the connection smoke test are not part of this model.
