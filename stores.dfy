/** The view state of the recipe list (src/lib/stores/recipes.ts): the cached
    list `recipes`, the filter settings, the derived `filteredRecipes`,
    `favoritesCount` and `categoryCount`, and the actions that write through to
    the database and then patch the cached list. */
module Stores {
  import opened Seqs
  import opened Text
  import opened Types
  import opened Queries
  import opened Database

  /** The value of `selectedCategory`: `'all'` or one category. */
  datatype CategorySelection = AnyCategory | Only(category: Category)

  /** The derived `filteredRecipes`: favourites first, then the category, then the
      search text, each stage a `filter` of the previous one. */
  function FilteredRecipes(recipes: seq<Recipe>, searchQuery: string, selected: CategorySelection,
                           showFavoritesOnly: bool): seq<Recipe>
  {
    var byFavorite := if showFavoritesOnly then Filter(recipes, IsFavorite) else recipes;
    var byCategory :=
      match selected
      case AnyCategory => byFavorite
      case Only(c) => Filter(byFavorite, InCategory(c));
    if Trim(searchQuery) != [] then Filter(byCategory, Matching(Trim(Lower(searchQuery))))
    else byCategory
  }

  /** The filters only ever drop records: the result keeps the order of `recipes`, and a
      record is shown exactly when it passes all three filters. */
  lemma FilteredRecipesSpec(recipes: seq<Recipe>, searchQuery: string, selected: CategorySelection,
                            showFavoritesOnly: bool)
    ensures var shown := FilteredRecipes(recipes, searchQuery, selected, showFavoritesOnly);
      && IsSubsequence(shown, recipes)
      && forall r :: r in shown <==>
           && r in recipes
           && (!showFavoritesOnly || r.isFavorite)
           && (selected.AnyCategory? || r.category == selected.category)
           && (Trim(searchQuery) == [] || MatchesQuery(r, Lower(Trim(searchQuery))))
  {
    var byFavorite := if showFavoritesOnly then Filter(recipes, IsFavorite) else recipes;
    var byCategory := match selected
      case AnyCategory => byFavorite
      case Only(c) => Filter(byFavorite, InCategory(c));
    var shown := FilteredRecipes(recipes, searchQuery, selected, showFavoritesOnly);
    FilterWhen(recipes, showFavoritesOnly, IsFavorite);
    match selected {
      case AnyCategory => SubsequenceReflexive(byFavorite);
      case Only(c) => FilterWhen(byFavorite, true, InCategory(c));
    }
    FilterWhen(byCategory, Trim(searchQuery) != [], Matching(Trim(Lower(searchQuery))));
    SubsequenceTransitive(byCategory, byFavorite, recipes);
    SubsequenceTransitive(shown, byCategory, recipes);
    TrimLowerCommute(searchQuery);
  }

  /** With no favourite or category filter, the view shows exactly what `searchRecipes`
      returns for a list loaded by `getAllRecipes`: both use the same title-or-ingredient
      test on the lower-cased, trimmed query, and a blank query shows everything. */
  lemma FilteredMatchesSearch(m: Store, searchQuery: string)
    ensures FilteredRecipes(AllRecipes(m), searchQuery, AnyCategory, false) == Search(m, searchQuery)
  {
    TrimLowerCommute(searchQuery);
  }

  /** The derived `favoritesCount`. */
  function FavoritesCount(recipes: seq<Recipe>): (n: nat)
    ensures n <= |recipes|
  {
    |Filter(recipes, IsFavorite)|
  }

  /** `favoritesCount` is the number of positions of the list that hold a favourite. */
  lemma FavoritesCountSpec(recipes: seq<Recipe>)
    ensures FavoritesCount(recipes) == |Positions(recipes, IsFavorite)|
  {
    FilterLength(recipes, IsFavorite);
  }

  /** The number of records of category `c` in `recipes`. */
  function CountOf(recipes: seq<Recipe>, c: Category): (n: nat)
    ensures n == |Positions(recipes, InCategory(c))|
  {
    FilterLength(recipes, InCategory(c));
    |Filter(recipes, InCategory(c))|
  }

  /** The sum over `cats` of the number of records of each category. */
  function SumCounts(recipes: seq<Recipe>, cats: seq<Category>): nat
  {
    if cats == [] then 0 else CountOf(recipes, cats[0]) + SumCounts(recipes, cats[1..])
  }

  /** Summed over the ten categories, the per-category counts give the length of the list:
      every record is counted under exactly one category. */
  lemma CategoryCountsSum(recipes: seq<Recipe>)
    ensures SumCounts(recipes, AllCategories) == |recipes|
  {
    forall r | r in recipes ensures r.category in AllCategories {
      var i := CategoryIndex(r.category);
    }
    AllCategoriesDistinct();
    SumCountsCovering(recipes, AllCategories);
  }

  /** The ten categories are listed once each. */
  lemma AllCategoriesDistinct()
    ensures forall i, j :: 0 <= i < j < |AllCategories| ==> AllCategories[i] != AllCategories[j]
  {
  }

  /** Counting over categories that are distinct and cover every record counts each
      record once. */
  lemma {:induction false} SumCountsCovering(recipes: seq<Recipe>, cats: seq<Category>)
    requires forall i, j :: 0 <= i < j < |cats| ==> cats[i] != cats[j]
    requires forall r :: r in recipes ==> r.category in cats
    ensures SumCounts(recipes, cats) == |recipes|
    decreases |recipes|
  {
    if recipes == [] {
      SumCountsEmpty(cats);
    } else {
      var init, last := recipes[..|recipes| - 1], recipes[|recipes| - 1];
      assert recipes == init + [last];
      SumCountsCovering(init, cats);
      SumCountsSnoc(init, last, cats);
    }
  }

  lemma {:induction false} SumCountsEmpty(cats: seq<Category>)
    ensures SumCounts([], cats) == 0
    decreases |cats|
  {
    if cats != [] {
      SumCountsEmpty(cats[1..]);
    }
  }

  lemma {:induction false} SumCountsSnoc(recipes: seq<Recipe>, x: Recipe, cats: seq<Category>)
    requires forall i, j :: 0 <= i < j < |cats| ==> cats[i] != cats[j]
    ensures SumCounts(recipes + [x], cats) == SumCounts(recipes, cats) + (if x.category in cats then 1 else 0)
    decreases |cats|
  {
    if cats != [] {
      FilterSnoc(recipes, x, InCategory(cats[0]));
      SumCountsSnoc(recipes, x, cats[1..]);
      if x.category == cats[0] {
        assert x.category !in cats[1..] by {
          forall i | 0 <= i < |cats[1..]| ensures cats[1..][i] != cats[0] {
            assert cats[1..][i] == cats[i + 1];
          }
        }
      } else {
        assert x.category in cats <==> x.category in cats[1..] by {
          assert cats == [cats[0]] + cats[1..];
        }
      }
    }
  }

  /** The key `categoryCount` uses for the total. */
  const AllKey: string := "all"

  /** The derived `categoryCount`: `counts['all']` is the length of the list, and the loop
      adds one to the entry of each record's category, starting from an absent entry. */
  method CategoryCount(recipes: seq<Recipe>) returns (counts: map<string, nat>)
    ensures AllKey in counts && counts[AllKey] == |recipes|
    ensures forall c :: CategoryValue(c) in counts <==> CountOf(recipes, c) > 0
    ensures forall c :: CategoryValue(c) in counts ==> counts[CategoryValue(c)] == CountOf(recipes, c)
    ensures forall k :: k in counts ==> k == AllKey || exists c :: k == CategoryValue(c)
    ensures SumCounts(recipes, AllCategories) == counts[AllKey]
  {
    counts := map[AllKey := |recipes|];
    for i := 0 to |recipes|
      invariant counts == Tally(recipes[..i], |recipes|)
    {
      var key := CategoryValue(recipes[i].category);
      var current := if key in counts then counts[key] else 0;
      counts := counts[key := current + 1];
      assert recipes[..i + 1][..i] == recipes[..i];
    }
    assert recipes[..|recipes|] == recipes;
    TallyCounts(recipes, |recipes|);
    TalliesFinal(counts, recipes);
  }

  /** The map the counting loop builds from `recipes`, record by record. */
  function Tally(recipes: seq<Recipe>, total: nat): map<string, nat>
  {
    if recipes == [] then map[AllKey := total]
    else
      var counts := Tally(recipes[..|recipes| - 1], total);
      var key := CategoryValue(recipes[|recipes| - 1].category);
      counts[key := (if key in counts then counts[key] else 0) + 1]
  }

  /** `counts` holds the total under `'all'` and, under each category that occurs in
      `recipes`, the number of its records. */
  ghost predicate Tallies(counts: map<string, nat>, recipes: seq<Recipe>, total: nat)
  {
    && AllKey in counts && counts[AllKey] == total
    && (forall c :: CategoryValue(c) in counts <==> CountOf(recipes, c) > 0)
    && (forall c :: CategoryValue(c) in counts ==> counts[CategoryValue(c)] == CountOf(recipes, c))
    && (forall k :: k in counts ==> k == AllKey || exists c :: k == CategoryValue(c))
  }

  /** The counting map holds the number of records of each category that occurs. */
  lemma {:induction false} TallyCounts(recipes: seq<Recipe>, total: nat)
    ensures Tallies(Tally(recipes, total), recipes, total)
    decreases |recipes|
  {
    if recipes == [] {
      CategoryKeys();
    } else {
      var init, x := recipes[..|recipes| - 1], recipes[|recipes| - 1];
      assert recipes == init + [x];
      TallyCounts(init, total);
      TallyStep(Tally(init, total), init, x, total);
    }
  }

  /** The invariant at the loop's exit gives the method's postcondition. */
  lemma TalliesFinal(counts: map<string, nat>, recipes: seq<Recipe>)
    requires Tallies(counts, recipes, |recipes|)
    ensures AllKey in counts && counts[AllKey] == |recipes|
    ensures forall c :: CategoryValue(c) in counts <==> CountOf(recipes, c) > 0
    ensures forall c :: CategoryValue(c) in counts ==> counts[CategoryValue(c)] == CountOf(recipes, c)
    ensures forall k :: k in counts ==> k == AllKey || exists c :: k == CategoryValue(c)
    ensures SumCounts(recipes, AllCategories) == counts[AllKey]
  {
    CategoryCountsSum(recipes);
  }

  /** Counting one more record. */
  lemma TallyStep(counts: map<string, nat>, recipes: seq<Recipe>, x: Recipe, total: nat)
    requires Tallies(counts, recipes, total)
    ensures var key := CategoryValue(x.category);
      Tallies(counts[key := (if key in counts then counts[key] else 0) + 1], recipes + [x], total)
  {
    var key := CategoryValue(x.category);
    var counts' := counts[key := (if key in counts then counts[key] else 0) + 1];
    CategoryKeys();
    forall c ensures CategoryValue(c) in counts' <==> CountOf(recipes + [x], c) > 0
      ensures CategoryValue(c) in counts' ==> counts'[CategoryValue(c)] == CountOf(recipes + [x], c)
    {
      CountSnoc(recipes, x, c);
    }
  }

  lemma CountSnoc(recipes: seq<Recipe>, x: Recipe, c: Category)
    ensures CountOf(recipes + [x], c) == CountOf(recipes, c) + (if x.category == c then 1 else 0)
  {
    FilterSnoc(recipes, x, InCategory(c));
  }

  /** The category strings are pairwise distinct and none of them is `'all'`. */
  lemma CategoryKeys()
    ensures forall c :: CategoryValue(c) != AllKey
    ensures forall c, d :: CategoryValue(c) == CategoryValue(d) ==> c == d
  {
  }

  // ---------------------------------------------------------------- the cached list

  /** `r.map(recipe => recipe.id === id ? updated : recipe)`. */
  function ReplaceById(recipes: seq<Recipe>, id: string, updated: Recipe): (out: seq<Recipe>)
    ensures |out| == |recipes|
    ensures forall i :: 0 <= i < |recipes| && recipes[i].id != id ==> out[i] == recipes[i]
    ensures forall i :: 0 <= i < |recipes| && recipes[i].id == id ==> out[i] == updated
  {
    seq(|recipes|, i requires 0 <= i < |recipes| => if recipes[i].id == id then updated else recipes[i])
  }

  /** The predicate `recipe => recipe.id !== id`. */
  function OtherThan(id: string): Recipe -> bool
  {
    (r: Recipe) => r.id != id
  }

  /** `r.filter(recipe => recipe.id !== id)`. */
  function RemoveById(recipes: seq<Recipe>, id: string): (out: seq<Recipe>)
    ensures IsSubsequence(out, recipes)
    ensures forall r :: r in out <==> r in recipes && r.id != id
    ensures forall r :: multiset(out)[r] == if r.id != id then multiset(recipes)[r] else 0
    ensures |out| == |Positions(recipes, OtherThan(id))|
  {
    FilterLength(recipes, OtherThan(id));
    Filter(recipes, OtherThan(id))
  }

  /** After a successful add, prepending the new record keeps the cache a listing of the
      store. */
  lemma PrependKeepsListing(recipes: seq<Recipe>, m: Store, r: Recipe)
    requires Listing(recipes, m) && r.id !in m
    ensures Listing([r] + recipes, m[r.id := r])
  {
    var out := [r] + recipes;
    forall i | 0 <= i < |out| ensures out[i].id in m[r.id := r] && m[r.id := r][out[i].id] == out[i] {
      if i > 0 {
        assert out[i] == recipes[i - 1];
      }
    }
    forall i, j | 0 <= i < j < |out| ensures out[i] != out[j] {
      assert out[j] == recipes[j - 1];
      if i > 0 {
        assert out[i] == recipes[i - 1];
      }
    }
  }

  /** After a successful update, replacing the record with that id keeps the cache a
      listing of the store. */
  lemma ReplaceKeepsListing(recipes: seq<Recipe>, m: Store, updated: Recipe)
    requires Listing(recipes, m) && WellKeyed(m) && updated.id in m
    ensures Listing(ReplaceById(recipes, updated.id, updated), m[updated.id := updated])
  {
    var id := updated.id;
    var out := ReplaceById(recipes, id, updated);
    var m' := m[id := updated];
    forall k | k in m' ensures m'[k] in out {
      assert m[k] in recipes;
      var i :| 0 <= i < |recipes| && recipes[i] == m[k];
      assert out[i] == m'[k];
    }
  }

  /** After a delete, dropping the records with that id keeps the cache a listing of the
      store. */
  lemma RemoveKeepsListing(recipes: seq<Recipe>, m: Store, id: string)
    requires Listing(recipes, m) && WellKeyed(m)
    ensures Listing(RemoveById(recipes, id), Delete(m, id))
  {
    var out := RemoveById(recipes, id);
    var m' := Delete(m, id);
    forall k | k in m' ensures m'[k] in out {
      assert m[k] in recipes && m[k].id == k;
    }
    assert Pairwise(recipes, Differ) by {
      forall i, j | 0 <= i < j < |recipes| ensures Differ(recipes[i], recipes[j]) {
      }
    }
    SubsequencePairwise(out, recipes, Differ);
    forall i | 0 <= i < |out| ensures out[i].id in Delete(m, id) && Delete(m, id)[out[i].id] == out[i] {
      assert out[i] in recipes;
    }
  }

  predicate Differ(a: Recipe, b: Recipe)
  {
    a != b
  }

  // ---------------------------------------------------------------- the stores object

  /** The writable stores and the actions on them, over one database. */
  class RecipeStores {
    const db: RecipeDatabase
    /** `recipes`: the cached list. */
    var recipes: seq<Recipe>
    /** `searchQuery`, `selectedCategory`, `showFavoritesOnly`: the filter settings. */
    var searchQuery: string
    var selectedCategory: CategorySelection
    var showFavoritesOnly: bool

    ghost predicate Valid()
      reads this, db
    {
      db.Valid()
    }

    /** The cached list holds exactly the stored records. */
    ghost predicate Synced()
      reads this, db
    {
      Listing(recipes, db.store)
    }

    constructor (db: RecipeDatabase)
      requires db.Valid()
      ensures this.db == db && Valid()
      ensures recipes == [] && searchQuery == "" && selectedCategory == AnyCategory && !showFavoritesOnly
    {
      this.db := db;
      recipes := [];
      searchQuery := "";
      selectedCategory := AnyCategory;
      showFavoritesOnly := false;
    }

    /** The current value of the derived `filteredRecipes`. */
    function Filtered(): seq<Recipe>
      reads this
    {
      FilteredRecipes(recipes, searchQuery, selectedCategory, showFavoritesOnly)
    }

    /** `loadRecipes()`: the cache becomes `getAllRecipes()`. */
    method LoadRecipes()
      requires Valid()
      modifies this, db
      ensures Valid() && Synced()
      ensures recipes == AllRecipes(db.store) && db.store == old(db.store) && db.clock == old(db.clock)
      ensures searchQuery == old(searchQuery) && selectedCategory == old(selectedCategory)
      ensures showFavoritesOnly == old(showFavoritesOnly)
    {
      var all := db.GetAllRecipes();
      recipes := all;
      AllRecipesListing(db.store);
    }

    /** `addRecipe(recipeData)`: writes through, then prepends the new record. */
    method AddRecipe(recipeData: RecipeData, newId: string) returns (res: Result<Recipe>)
      requires Valid()
      modifies this, db
      ensures Valid() && db.clock == old(db.clock)
      ensures (res, db.store) == Add(old(db.store), recipeData, newId, db.clock)
      ensures recipes == if res.Ok? then [res.value] + old(recipes) else old(recipes)
      ensures old(Synced()) ==> Synced()
      ensures searchQuery == old(searchQuery) && selectedCategory == old(selectedCategory)
      ensures showFavoritesOnly == old(showFavoritesOnly)
    {
      ghost var wasSynced := Synced();
      res := db.AddRecipe(recipeData, newId);
      if res.Ok? {
        if wasSynced {
          PrependKeepsListing(recipes, old(db.store), res.value);
        }
        recipes := [res.value] + recipes;
      }
    }

    /** `updateRecipe(id, updates)`: writes through, then replaces the cached record. */
    method UpdateRecipe(id: string, updates: RecipePatch) returns (res: Result<Recipe>)
      requires Valid()
      modifies this, db
      ensures Valid() && db.clock == old(db.clock)
      ensures (res, db.store) == Update(old(db.store), id, updates, db.clock)
      ensures recipes == if res.Ok? then ReplaceById(old(recipes), id, res.value) else old(recipes)
      ensures old(Synced()) ==> Synced()
      ensures searchQuery == old(searchQuery) && selectedCategory == old(selectedCategory)
      ensures showFavoritesOnly == old(showFavoritesOnly)
    {
      ghost var wasSynced := Synced();
      res := db.UpdateRecipe(id, updates);
      if res.Ok? {
        if wasSynced {
          ReplaceKeepsListing(recipes, old(db.store), res.value);
        }
        recipes := ReplaceById(recipes, id, res.value);
      }
    }

    /** `deleteRecipe(id)`: writes through, then drops the cached record. */
    method DeleteRecipe(id: string)
      requires Valid()
      modifies this, db
      ensures Valid() && db.clock == old(db.clock)
      ensures db.store == Delete(old(db.store), id)
      ensures recipes == RemoveById(old(recipes), id)
      ensures old(Synced()) ==> Synced()
      ensures searchQuery == old(searchQuery) && selectedCategory == old(selectedCategory)
      ensures showFavoritesOnly == old(showFavoritesOnly)
    {
      ghost var wasSynced := Synced();
      db.DeleteRecipe(id);
      if wasSynced {
        RemoveKeepsListing(recipes, old(db.store), id);
      }
      recipes := RemoveById(recipes, id);
    }

    /** `toggleFavorite(id)`: writes through, then replaces the cached record. */
    method ToggleFavorite(id: string) returns (res: Result<Recipe>)
      requires Valid()
      modifies this, db
      ensures Valid() && db.clock == old(db.clock)
      ensures (res, db.store) == Toggle(old(db.store), id, db.clock)
      ensures recipes == if res.Ok? then ReplaceById(old(recipes), id, res.value) else old(recipes)
      ensures old(Synced()) ==> Synced()
      ensures searchQuery == old(searchQuery) && selectedCategory == old(selectedCategory)
      ensures showFavoritesOnly == old(showFavoritesOnly)
    {
      ghost var wasSynced := Synced();
      res := db.ToggleFavorite(id);
      if res.Ok? {
        if wasSynced {
          ReplaceKeepsListing(recipes, old(db.store), res.value);
        }
        recipes := ReplaceById(recipes, id, res.value);
      }
    }

    /** `importRecipes(file, mode)` over the parsed payload, merge by default: imports,
        then reloads. */
    method ImportRecipes(payload: Option<seq<Recipe>>, ids: nat -> string, mode: ImportMode := Merge) returns (res: Result<nat>)
      requires Valid()
      modifies this, db
      ensures Valid() && db.clock == old(db.clock)
      ensures (res, db.store) == Import(old(db.store), payload, mode, ids, db.clock)
      ensures res.Ok? ==> recipes == AllRecipes(db.store) && Synced()
      ensures res.Err? ==> recipes == old(recipes)
      ensures searchQuery == old(searchQuery) && selectedCategory == old(selectedCategory)
      ensures showFavoritesOnly == old(showFavoritesOnly)
    {
      res := db.ImportRecipes(payload, ids, mode);
      if res.Ok? {
        LoadRecipes();
      }
    }

    /** `clearFilters()`. */
    method ClearFilters()
      modifies this
      ensures searchQuery == "" && selectedCategory == AnyCategory && !showFavoritesOnly
      ensures recipes == old(recipes)
      ensures Filtered() == recipes
    {
      searchQuery := "";
      selectedCategory := AnyCategory;
      showFavoritesOnly := false;
      TrimBlankIff(searchQuery);
    }
  }
}
