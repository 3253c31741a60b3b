/** The recipe database (src/lib/db/database.ts): an IndexedDB object store
    `recipes` with key path `id`, reached through a connection handle that
    `initDB` opens and `resetDB` drops.

    The store is a map from id to record. `new Date()` reads a monotone integer
    clock, and every reading inside one operation gives the same value. Ids
    come from an oracle: the caller supplies the id `generateId` would have
    returned. Each operation is first a function from the old store content to
    its result and the new content; the class `RecipeDatabase` then performs it
    in place. */
module Database {
  import opened Seqs
  import opened Text
  import opened KeyOrder
  import opened Types
  import opened Queries

  /** The errors the operations reject with. */
  datatype DbError = AddFailed | NotFound | InvalidImportFormat
  {
    function Message(): string
    {
      match this
      case AddFailed => "Failed to add recipe"
      case NotFound => "Recipe not found"
      case InvalidImportFormat => "Invalid import format"
    }
  }

  datatype Result<+T> = Ok(value: T) | Err(error: DbError)

  /** `getRecipe`: the stored record, or `null` for an absent id. */
  function Lookup(m: Store, id: string): Option<Recipe>
  {
    if id in m then Some(m[id]) else None
  }

  /** The record `addRecipe` builds: the caller's fields, the generated id, and both
      timestamps read from the clock. */
  function NewRecipe(data: RecipeData, id: string, now: int): Recipe
  {
    Recipe(id, data.title, data.category, data.ingredients, data.instructions, data.photos,
           data.sourceUrl, data.isFavorite, data.servings, data.cookTime, data.notes, now, now)
  }

  /** `addRecipe` on store content `m`; `store.add` refuses a key that is already present. */
  function Add(m: Store, data: RecipeData, id: string, now: int): (Result<Recipe>, Store)
  {
    if id in m then (Err(AddFailed), m)
    else
      var r := NewRecipe(data, id, now);
      (Ok(r), m[id := r])
  }

  /** An add either fails on a taken id and changes nothing, or stores a record under
      the new id that carries every field of the input, whose `createdAt` is not later
      than its `updatedAt`, and that a later `getRecipe` returns; no other record changes. */
  lemma AddSpec(m: Store, data: RecipeData, id: string, now: int)
    ensures var (res, m') := Add(m, data, id, now);
      && (id in m ==> res == Err(AddFailed) && m' == m)
      && (id !in m ==>
            && res.Ok? && res.value.id == id && DataOf(res.value) == data
            && res.value.createdAt <= res.value.updatedAt == now
            && Lookup(m', id) == Some(res.value)
            && m'.Keys == m.Keys + {id} && |m'| == |m| + 1
            && (forall k :: k in m ==> m'[k] == m[k]))
    ensures WellKeyed(m) ==> WellKeyed(Add(m, data, id, now).1)
  {
  }

  /** `{...existing, ...updates, id, updatedAt: new Date()}`. */
  function ApplyUpdates(existing: Recipe, updates: RecipePatch, id: string, now: int): Recipe
  {
    Recipe(id,
           updates.title.Apply(existing.title),
           updates.category.Apply(existing.category),
           updates.ingredients.Apply(existing.ingredients),
           updates.instructions.Apply(existing.instructions),
           updates.photos.Apply(existing.photos),
           updates.sourceUrl.Apply(existing.sourceUrl),
           updates.isFavorite.Apply(existing.isFavorite),
           updates.servings.Apply(existing.servings),
           updates.cookTime.Apply(existing.cookTime),
           updates.notes.Apply(existing.notes),
           updates.createdAt.Apply(existing.createdAt),
           now)
  }

  /** The merged record keeps the id it is stored under, even when `updates` names an
      `id`, and has `updatedAt` set to now, even when `updates` names one; every other
      property takes the value `updates` gives it, or keeps its old value when `updates`
      does not name it. */
  lemma UpdateFields(existing: Recipe, updates: RecipePatch, id: string, now: int)
    ensures var r := ApplyUpdates(existing, updates, id, now);
      && r.id == id && r.updatedAt == now
      && forall f :: f != Id && f != UpdatedAt ==>
           FieldOf(r, f) == ChangeOf(updates, f).GetOr(FieldOf(existing, f))
  {
    var r := ApplyUpdates(existing, updates, id, now);
    forall f | f != Id && f != UpdatedAt
      ensures FieldOf(r, f) == ChangeOf(updates, f).GetOr(FieldOf(existing, f))
    {
      match f
      case Title =>
      case CategoryField =>
      case Ingredients =>
      case Instructions =>
      case Photos =>
      case SourceUrl =>
      case Favorite =>
      case Servings =>
      case CookTime =>
      case Notes =>
      case CreatedAt =>
    }
  }

  /** `updateRecipe` on store content `m`. */
  function Update(m: Store, id: string, updates: RecipePatch, now: int): (Result<Recipe>, Store)
  {
    if id !in m then (Err(NotFound), m)
    else
      var r := ApplyUpdates(m[id], updates, id, now);
      (Ok(r), m[id := r])
  }

  /** An update of an absent id fails and changes nothing; otherwise it stores and returns
      the merged record under the same id, and no other record changes. */
  lemma UpdateSpec(m: Store, id: string, updates: RecipePatch, now: int)
    ensures var (res, m') := Update(m, id, updates, now);
      && (id !in m ==> res == Err(NotFound) && m' == m)
      && (id in m ==>
            && res == Ok(ApplyUpdates(m[id], updates, id, now))
            && m'.Keys == m.Keys && m'[id] == res.value
            && (forall k :: k in m && k != id ==> m'[k] == m[k]))
    ensures WellKeyed(m) ==> WellKeyed(Update(m, id, updates, now).1)
  {
  }

  /** On a store none of whose records was changed later than now, an update never
      moves the record's `updatedAt` back, leaves every record changed no later than
      now, and, when it does not name `createdAt`, keeps `createdAt <= updatedAt` for
      a record that had it. */
  lemma UpdateKeepsTimestampsOrdered(m: Store, id: string, updates: RecipePatch, now: int)
    requires forall k :: k in m ==> m[k].updatedAt <= now
    ensures var (res, m') := Update(m, id, updates, now);
      && (forall k :: k in m' ==> m'[k].updatedAt <= now)
      && (id in m ==> id in m' && m[id].updatedAt <= m'[id].updatedAt == now)
      && (id in m && updates.createdAt == Keep && m[id].createdAt <= m[id].updatedAt ==>
            m'[id].createdAt == m[id].createdAt <= m'[id].updatedAt)
  {
  }

  /** `deleteRecipe` on store content `m`. */
  function Delete(m: Store, id: string): Store
  {
    m - {id}
  }

  /** After a delete the id is absent and every other record is unchanged; deleting an
      absent id changes nothing, so deleting twice is deleting once. */
  lemma DeleteSpec(m: Store, id: string)
    ensures id !in Delete(m, id) && Lookup(Delete(m, id), id) == None
    ensures forall k :: k != id ==> (k in Delete(m, id) <==> k in m)
    ensures forall k :: k in Delete(m, id) ==> Delete(m, id)[k] == m[k]
    ensures id !in m ==> Delete(m, id) == m
    ensures Delete(Delete(m, id), id) == Delete(m, id)
    ensures WellKeyed(m) ==> WellKeyed(Delete(m, id))
  {
  }

  /** The partial record `{ isFavorite: !r.isFavorite }`. */
  function FlipFavorite(r: Recipe): RecipePatch
  {
    NoChanges.(isFavorite := Assign(!r.isFavorite))
  }

  /** `toggleFavorite` on store content `m`. */
  function Toggle(m: Store, id: string, now: int): (Result<Recipe>, Store)
  {
    match Lookup(m, id)
    case None => (Err(NotFound), m)
    case Some(r) => Update(m, id, FlipFavorite(r), now)
  }

  /** A toggle fails on an absent id and changes nothing; otherwise it flips `isFavorite`,
      stamps `updatedAt`, and keeps every other field and every other record. */
  lemma ToggleSpec(m: Store, id: string, now: int)
    requires WellKeyed(m)
    ensures var (res, m') := Toggle(m, id, now);
      && (id !in m ==> res == Err(NotFound) && m' == m)
      && (id in m ==>
            && res == Ok(m[id].(isFavorite := !m[id].isFavorite, updatedAt := now))
            && m' == m[id := res.value])
  {
  }

  /** Toggling twice restores the favourite flag; the record differs from the original
      only in its `updatedAt`. */
  lemma {:induction false} ToggleTwice(m: Store, id: string, t1: int, t2: int)
    requires WellKeyed(m) && id in m
    ensures var m1 := Toggle(m, id, t1).1;
      var (res, m2) := Toggle(m1, id, t2);
      res == Ok(m[id].(updatedAt := t2)) && m2 == m[id := m[id].(updatedAt := t2)]
  {
    ToggleSpec(m, id, t1);
    var m1 := Toggle(m, id, t1).1;
    UpdateSpec(m, id, FlipFavorite(m[id]), t1);
    ToggleSpec(m1, id, t2);
  }

  // ---------------------------------------------------------------- import and export

  datatype ImportMode = Replace | Merge

  /** The exported document: `{ version: 1, exportDate, recipes }`. */
  datatype ExportData = ExportData(version: nat, exportDate: int, recipes: seq<Recipe>)

  /** `exportRecipes`, before serialisation. */
  function Export(m: Store, now: int): ExportData
  {
    ExportData(1, now, AllRecipes(m))
  }

  /** `{...recipe, id, createdAt: new Date(recipe.createdAt), updatedAt: new Date()}`. */
  function Stamp(r: Recipe, id: string, now: int): Recipe
  {
    r.(id := id, updatedAt := now)
  }

  /** The id the `i`-th incoming record is stored under: a fresh one from the id oracle
      in merge mode, its own in replace mode. */
  function ImportId(mode: ImportMode, r: Recipe, i: nat, ids: nat -> string): string
  {
    if mode == Merge then ids(i) else r.id
  }

  /** The records an import writes, in order. */
  function ImportedRecords(rs: seq<Recipe>, mode: ImportMode, ids: nat -> string, now: int): (out: seq<Recipe>)
    ensures |out| == |rs|
    ensures forall i :: 0 <= i < |rs| ==>
      && out[i].id == (if mode == Merge then ids(i) else rs[i].id)
      && DataOf(out[i]) == DataOf(rs[i])
      && out[i].createdAt == rs[i].createdAt
      && out[i].updatedAt == now
  {
    seq(|rs|, i requires 0 <= i < |rs| => Stamp(rs[i], ImportId(mode, rs[i], i, ids), now))
  }

  lemma ImportedRecordsSnoc(rs: seq<Recipe>, i: nat, mode: ImportMode, ids: nat -> string, now: int)
    requires i < |rs|
    ensures ImportedRecords(rs[..i + 1], mode, ids, now)
         == ImportedRecords(rs[..i], mode, ids, now) + [Stamp(rs[i], ImportId(mode, rs[i], i, ids), now)]
  {
  }

  /** `store.put` of each record of `rs` in turn. */
  function PutAll(m: Store, rs: seq<Recipe>): Store
    decreases |rs|
  {
    if rs == [] then m
    else
      var last := rs[|rs| - 1];
      PutAll(m, rs[..|rs| - 1])[last.id := last]
  }

  /** The ids of the records of `rs`. */
  ghost function IdsOf(rs: seq<Recipe>): set<string>
  {
    set i | 0 <= i < |rs| :: rs[i].id
  }

  lemma IdsOfSnoc(rs: seq<Recipe>)
    requires rs != []
    ensures IdsOf(rs) == IdsOf(rs[..|rs| - 1]) + {rs[|rs| - 1].id}
  {
    var init := rs[..|rs| - 1];
    forall k | k in IdsOf(rs) ensures k in IdsOf(init) + {rs[|rs| - 1].id} {
      var i :| 0 <= i < |rs| && rs[i].id == k;
      if i < |init| {
        assert init[i].id == k;
      }
    }
    forall k | k in IdsOf(init) ensures k in IdsOf(rs) {
      var i :| 0 <= i < |init| && init[i].id == k;
      assert rs[i].id == k;
    }
  }

  /** After putting `rs`, the keys are the old keys and the ids of `rs`. */
  lemma {:induction false} PutAllKeys(m: Store, rs: seq<Recipe>)
    ensures PutAll(m, rs).Keys == m.Keys + IdsOf(rs)
    decreases |rs|
  {
    if rs == [] {
      assert IdsOf(rs) == {};
    } else {
      PutAllKeys(m, rs[..|rs| - 1]);
      IdsOfSnoc(rs);
    }
  }

  /** Position `i` holds the last record of `rs` with its id. */
  ghost predicate LastWithId(rs: seq<Recipe>, i: int)
  {
    0 <= i < |rs| && forall j :: i < j < |rs| ==> rs[j].id != rs[i].id
  }

  /** Last write wins: an id holds the last record of `rs` with that id. */
  lemma {:induction false} PutAllLast(m: Store, rs: seq<Recipe>, i: nat)
    requires LastWithId(rs, i)
    ensures rs[i].id in PutAll(m, rs) && PutAll(m, rs)[rs[i].id] == rs[i]
    decreases |rs|
  {
    var init := rs[..|rs| - 1];
    if i < |init| {
      assert LastWithId(init, i);
      PutAllLast(m, init, i);
    }
  }

  /** A key that `rs` does not mention keeps its record. */
  lemma {:induction false} PutAllUntouched(m: Store, rs: seq<Recipe>, k: string)
    requires k in m && k !in IdsOf(rs)
    ensures k in PutAll(m, rs) && PutAll(m, rs)[k] == m[k]
    decreases |rs|
  {
    if rs != [] {
      IdsOfSnoc(rs);
      PutAllUntouched(m, rs[..|rs| - 1], k);
    }
  }

  /** Putting records under their own ids keeps every record under its own id. */
  lemma {:induction false} PutAllWellKeyed(m: Store, rs: seq<Recipe>)
    requires WellKeyed(m)
    ensures WellKeyed(PutAll(m, rs))
    decreases |rs|
  {
    if rs != [] {
      PutAllWellKeyed(m, rs[..|rs| - 1]);
    }
  }

  /** `importRecipes` over already-parsed records, on store content `m`: the number of
      records written and the new content. */
  function Import(m: Store, recipes: Option<seq<Recipe>>, mode: ImportMode, ids: nat -> string, now: int): (Result<nat>, Store)
  {
    match recipes
    case None => (Err(InvalidImportFormat), m)
    case Some(rs) =>
      var start := if mode == Replace then map[] else m;
      (Ok(|rs|), PutAll(start, ImportedRecords(rs, mode, ids, now)))
  }

  /** A payload without a `recipes` array is refused before anything is written. */
  lemma ImportRejectsMissingList(m: Store, mode: ImportMode, ids: nat -> string, now: int)
    ensures Import(m, None, mode, ids, now) == (Err(InvalidImportFormat), m)
  {
  }

  /** A replace import keeps nothing of the old content: afterwards the store holds
      exactly the incoming ids, each with the last incoming record of that id, its
      `createdAt` copied and its `updatedAt` set to now. It reports one write per record. */
  lemma ImportReplaceSpec(m: Store, rs: seq<Recipe>, ids: nat -> string, now: int)
    ensures var (res, m') := Import(m, Some(rs), Replace, ids, now);
      && res == Ok(|rs|)
      && m'.Keys == IdsOf(rs)
      && (forall i :: LastWithId(rs, i) ==> m'[rs[i].id] == rs[i].(updatedAt := now))
      && WellKeyed(m')
  {
    var out := ImportedRecords(rs, Replace, ids, now);
    PutAllKeys(map[], out);
    PutAllWellKeyed(map[], out);
    assert IdsOf(out) == IdsOf(rs) by {
      assert forall i :: 0 <= i < |rs| ==> out[i].id == rs[i].id;
    }
    forall i | LastWithId(rs, i) ensures PutAll(map[], out)[rs[i].id] == rs[i].(updatedAt := now) {
      assert LastWithId(out, i);
      PutAllLast(map[], out, i);
    }
  }

  /** The oracle's first `n` ids are pairwise distinct and none is taken in `m`. */
  ghost predicate FreshIds(ids: nat -> string, n: nat, m: Store)
  {
    && (forall i :: 0 <= i < n ==> ids(i) !in m)
    && (forall i, j :: 0 <= i < j < n ==> ids(i) != ids(j))
  }

  /** With fresh ids a merge import leaves every existing record untouched and adds each
      incoming record under its own new id, its `createdAt` copied and its `updatedAt`
      set to now: the store grows by exactly the number of records. */
  lemma ImportMergeSpec(m: Store, rs: seq<Recipe>, ids: nat -> string, now: int)
    requires FreshIds(ids, |rs|, m)
    ensures var (res, m') := Import(m, Some(rs), Merge, ids, now);
      && res == Ok(|rs|)
      && (forall k :: k in m ==> k in m' && m'[k] == m[k])
      && (forall i :: 0 <= i < |rs| ==> ids(i) in m' && m'[ids(i)] == rs[i].(id := ids(i), updatedAt := now))
      && |m'| == |m| + |rs|
    ensures WellKeyed(m) ==> WellKeyed(Import(m, Some(rs), Merge, ids, now).1)
  {
    var out := ImportedRecords(rs, Merge, ids, now);
    var m' := PutAll(m, out);
    forall k | k in m ensures k in m' && m'[k] == m[k] {
      assert k !in IdsOf(out);
      PutAllUntouched(m, out, k);
    }
    forall i | 0 <= i < |rs| ensures ids(i) in m' && m'[ids(i)] == rs[i].(id := ids(i), updatedAt := now) {
      assert LastWithId(out, i);
      PutAllLast(m, out, i);
    }
    MergeGrows(m, rs, ids, now, |rs|);
    assert out[..|rs|] == out;
    if WellKeyed(m) {
      PutAllWellKeyed(m, out);
    }
  }

  lemma {:induction false} MergeGrows(m: Store, rs: seq<Recipe>, ids: nat -> string, now: int, n: nat)
    requires n <= |rs| && FreshIds(ids, |rs|, m)
    ensures |PutAll(m, ImportedRecords(rs, Merge, ids, now)[..n])| == |m| + n
    decreases n
  {
    var out := ImportedRecords(rs, Merge, ids, now);
    if n > 0 {
      var prefix := out[..n - 1];
      MergeGrows(m, rs, ids, now, n - 1);
      assert out[..n][..n - 1] == prefix;
      PutAllKeys(m, prefix);
      assert ids(n - 1) !in IdsOf(prefix);
      assert ids(n - 1) !in PutAll(m, prefix);
    }
  }

  /** Exporting and importing the export in replace mode gives back every record under
      its own id, with only `updatedAt` restamped, whatever the store held before. */
  lemma ExportReplaceRoundTrip(m: Store, before: Store, exportTime: int, ids: nat -> string, now: int)
    requires WellKeyed(m)
    ensures var (res, m') := Import(before, Some(Export(m, exportTime).recipes), Replace, ids, now);
      res == Ok(|m|) && m' == map k | k in m :: m[k].(updatedAt := now)
  {
    AllRecipesListing(m);
    ReplaceWithListing(before, AllRecipes(m), m, ids, now);
  }

  /** A replace import of a listing of `m` restores `m`, restamped. */
  lemma ReplaceWithListing(before: Store, rs: seq<Recipe>, m: Store, ids: nat -> string, now: int)
    requires WellKeyed(m) && Listing(rs, m)
    ensures Import(before, Some(rs), Replace, ids, now).1 == map k | k in m :: m[k].(updatedAt := now)
  {
    ImportReplaceSpec(before, rs, ids, now);
    RestampedListing(rs, m, Import(before, Some(rs), Replace, ids, now).1, now);
  }

  /** A store keyed by the ids of a listing of `m`, each holding its last record restamped,
      is `m` restamped. */
  lemma RestampedListing(rs: seq<Recipe>, m: Store, m': Store, now: int)
    requires WellKeyed(m) && Listing(rs, m)
    requires m'.Keys == IdsOf(rs)
    requires forall i :: LastWithId(rs, i) ==> m'[rs[i].id] == rs[i].(updatedAt := now)
    ensures m' == map k | k in m :: m[k].(updatedAt := now)
  {
    ListingIdsDistinct(rs, m);
    var target := map k | k in m :: m[k].(updatedAt := now);
    ListingIds(rs, m);
    assert m'.Keys == target.Keys;
    forall k | k in m ensures m'[k] == target[k] {
      var i :| 0 <= i < |rs| && rs[i] == m[k];
      assert LastWithId(rs, i);
    }
  }

  /** No two records of a listing share an id. */
  lemma ListingIdsDistinct(rs: seq<Recipe>, m: Store)
    requires Listing(rs, m)
    ensures forall i, j :: 0 <= i < j < |rs| ==> rs[i].id != rs[j].id
  {
    forall i, j | 0 <= i < j < |rs| ensures rs[i].id != rs[j].id {
      assert m[rs[i].id] == rs[i] && m[rs[j].id] == rs[j];
    }
  }

  /** The ids of a listing are the keys of the store it lists. */
  lemma ListingIds(rs: seq<Recipe>, m: Store)
    requires Listing(rs, m) && WellKeyed(m)
    ensures IdsOf(rs) == m.Keys
  {
    forall k | k in m ensures k in IdsOf(rs) {
      var i :| 0 <= i < |rs| && rs[i] == m[k];
    }
  }

  // ---------------------------------------------------------------- the database object

  /** The module-level connection `db` and the data behind it. */
  class RecipeDatabase {
    /** The content of the `recipes` object store. */
    var store: Store
    /** Whether the module holds an open connection (`db !== null`). */
    var isOpen: bool
    /** What `new Date()` currently reads. */
    var clock: int

    /** Every record sits under its own id and was last changed no later than now. */
    ghost predicate Valid()
      reads this
    {
      && WellKeyed(store)
      && forall k :: k in store ==> store[k].updatedAt <= clock
    }

    /** An empty database, not yet opened. */
    constructor (startTime: int)
      ensures Valid() && store == map[] && !isOpen && clock == startTime
    {
      store := map[];
      isOpen := false;
      clock := startTime;
    }

    /** `initDB`: opens the connection unless it is already open. */
    method InitDB()
      modifies this
      ensures isOpen && store == old(store) && clock == old(clock)
    {
      if !isOpen {
        isOpen := true;
      }
    }

    /** `resetDB`: closes and forgets the connection; the stored data stays. */
    method ResetDB()
      modifies this
      ensures !isOpen && store == old(store) && clock == old(clock)
    {
      isOpen := false;
    }

    /** Time passes; the clock never runs backwards. */
    method AdvanceClock(t: int)
      requires Valid() && clock <= t
      modifies this
      ensures Valid() && clock == t && store == old(store) && isOpen == old(isOpen)
    {
      clock := t;
    }

    /** `addRecipe(recipeData)`, with `newId` the value `generateId()` returns. */
    method AddRecipe(recipeData: RecipeData, newId: string) returns (res: Result<Recipe>)
      requires Valid()
      modifies this
      ensures Valid() && isOpen && clock == old(clock)
      ensures (res, store) == Add(old(store), recipeData, newId, clock)
    {
      InitDB();
      var recipe := NewRecipe(recipeData, newId, clock);
      if newId in store {
        return Err(AddFailed);
      }
      store := store[newId := recipe];
      return Ok(recipe);
    }

    /** `getAllRecipes()`. */
    method GetAllRecipes() returns (recipes: seq<Recipe>)
      requires Valid()
      modifies this
      ensures Valid() && isOpen && store == old(store) && clock == old(clock)
      ensures recipes == AllRecipes(store)
    {
      InitDB();
      var snapshot := Snapshot(store);
      recipes := SortNewestFirst(snapshot);
    }

    /** `getRecipe(id)`. */
    method GetRecipe(id: string) returns (recipe: Option<Recipe>)
      requires Valid()
      modifies this
      ensures Valid() && isOpen && store == old(store) && clock == old(clock)
      ensures recipe == Lookup(store, id)
    {
      InitDB();
      if id in store {
        recipe := Some(store[id]);
      } else {
        recipe := None;
      }
    }

    /** `updateRecipe(id, updates)`. */
    method UpdateRecipe(id: string, updates: RecipePatch) returns (res: Result<Recipe>)
      requires Valid()
      modifies this
      ensures Valid() && isOpen && clock == old(clock)
      ensures (res, store) == Update(old(store), id, updates, clock)
    {
      InitDB();
      var existing := GetRecipe(id);
      if existing.None? {
        return Err(NotFound);
      }
      var updated := ApplyUpdates(existing.value, updates, id, clock);
      store := store[id := updated];
      return Ok(updated);
    }

    /** `deleteRecipe(id)`. */
    method DeleteRecipe(id: string)
      requires Valid()
      modifies this
      ensures Valid() && isOpen && clock == old(clock)
      ensures store == Delete(old(store), id)
    {
      InitDB();
      store := store - {id};
    }

    /** `toggleFavorite(id)`. */
    method ToggleFavorite(id: string) returns (res: Result<Recipe>)
      requires Valid()
      modifies this
      ensures Valid() && isOpen && clock == old(clock)
      ensures (res, store) == Toggle(old(store), id, clock)
    {
      var recipe := GetRecipe(id);
      if recipe.None? {
        return Err(NotFound);
      }
      res := UpdateRecipe(id, FlipFavorite(recipe.value));
    }

    /** `getRecipesByCategory(category)`. */
    method GetRecipesByCategory(category: Category) returns (recipes: seq<Recipe>)
      requires Valid()
      modifies this
      ensures Valid() && isOpen && store == old(store) && clock == old(clock)
      ensures recipes == ByCategory(store, category)
    {
      InitDB();
      var indexed := Filter(Snapshot(store), InCategory(category));
      recipes := SortNewestFirst(indexed);
    }

    /** `getFavoriteRecipes()`. */
    method GetFavoriteRecipes() returns (recipes: seq<Recipe>)
      requires Valid()
      modifies this
      ensures Valid() && isOpen && store == old(store) && clock == old(clock)
      ensures recipes == Favorites(store)
    {
      var all := GetAllRecipes();
      recipes := Filter(all, IsFavorite);
    }

    /** `searchRecipes(query)`. */
    method SearchRecipes(query: string) returns (recipes: seq<Recipe>)
      requires Valid()
      modifies this
      ensures Valid() && isOpen && store == old(store) && clock == old(clock)
      ensures recipes == Search(store, query)
    {
      var all := GetAllRecipes();
      var lowerQuery := Trim(Lower(query));
      if lowerQuery == [] {
        return all;
      }
      recipes := Filter(all, Matching(lowerQuery));
    }

    /** `exportRecipes()`, before serialisation. */
    method ExportRecipes() returns (data: ExportData)
      requires Valid()
      modifies this
      ensures Valid() && isOpen && store == old(store) && clock == old(clock)
      ensures data == Export(store, clock)
    {
      var recipes := GetAllRecipes();
      data := ExportData(1, clock, recipes);
    }

    /** `importRecipes` over the parsed payload: `recipes` is `None` when the payload has
        no `recipes` array. In merge mode, the default, the `i`-th record gets the oracle's
        id `ids(i)`. */
    method ImportRecipes(recipes: Option<seq<Recipe>>, ids: nat -> string, mergeMode: ImportMode := Merge) returns (res: Result<nat>)
      requires Valid()
      modifies this
      ensures Valid() && clock == old(clock) && (recipes.Some? ==> isOpen)
      ensures (res, store) == Import(old(store), recipes, mergeMode, ids, clock)
    {
      if recipes.None? {
        return Err(InvalidImportFormat);
      }
      var rs := recipes.value;
      InitDB();
      if mergeMode == Replace {
        store := map[];
      }
      var start := store;
      var importedCount := 0;
      for i := 0 to |rs|
        invariant clock == old(clock) && isOpen
        invariant store == PutAll(start, ImportedRecords(rs[..i], mergeMode, ids, clock))
        invariant importedCount == i
        invariant Valid()
      {
        var newRecipe := Stamp(rs[i], ImportId(mergeMode, rs[i], i, ids), clock);
        ImportedRecordsSnoc(rs, i, mergeMode, ids, clock);
        store := store[newRecipe.id := newRecipe];
        importedCount := importedCount + 1;
      }
      assert rs[..|rs|] == rs;
      return Ok(importedCount);
    }

    /** `getRecipeCount()`. */
    method GetRecipeCount() returns (count: nat)
      requires Valid()
      modifies this
      ensures Valid() && isOpen && store == old(store) && clock == old(clock)
      ensures count == |store| == |AllRecipes(store)|
    {
      InitDB();
      count := |store|;
      AllRecipesListing(store);
    }
  }
}
