/** The read side of the recipe database (src/lib/db/database.ts): what
    `getAllRecipes`, `getRecipesByCategory`, `getFavoriteRecipes` and
    `searchRecipes` return for a given content of the `recipes` object store.

    The object store is a map from primary key to record. `getAll` hands the
    records out in ascending key order, and an index on `category` hands out
    the records of one category in ascending primary-key order as well. The
    results are then sorted with `Array.prototype.sort`, which is stable, by
    `updatedAt`, newest first. */
module Queries {
  import opened Seqs
  import opened Text
  import opened KeyOrder
  import opened Types

  /** The `recipes` object store: primary key (`id`) to record. */
  type Store = map<string, Recipe>

  /** Every record is stored under its own `id` (the store's key path is `id`). */
  ghost predicate WellKeyed(m: Store)
  {
    forall k :: k in m ==> m[k].id == k
  }

  /** `store.getAll()`: the records in ascending key order. */
  function Snapshot(m: Store): (rs: seq<Recipe>)
    ensures |rs| == |m|
  {
    var ks := SortedKeys(m.Keys);
    seq(|ks|, i requires 0 <= i < |ks| => m[ks[i]])
  }

  /** `a` has a smaller primary key than `b`. */
  predicate IdBefore(a: Recipe, b: Recipe)
  {
    KeyLess(a.id, b.id)
  }

  /** `a` was not updated later than `b`'s update, i.e. may come first in a newest-first list. */
  predicate NotOlder(a: Recipe, b: Recipe)
  {
    a.updatedAt >= b.updatedAt
  }

  /** The order a stable newest-first sort leaves key-ordered records in: newer first,
      and for equal `updatedAt` the smaller key first. */
  predicate Before(a: Recipe, b: Recipe)
  {
    a.updatedAt > b.updatedAt || (a.updatedAt == b.updatedAt && KeyLess(a.id, b.id))
  }

  /** `s` lists the records of `m`: each element is the record stored under its id,
      every stored record appears, and none appears twice. */
  ghost predicate Listing(s: seq<Recipe>, m: Store)
  {
    && (forall i :: 0 <= i < |s| ==> s[i].id in m && m[s[i].id] == s[i])
    && (forall k :: k in m ==> m[k] in s)
    && (forall i, j :: 0 <= i < j < |s| ==> s[i] != s[j])
  }

  /** The key-order snapshot of a well-keyed store lists it, in ascending id order. */
  lemma SnapshotListing(m: Store)
    requires WellKeyed(m)
    ensures Listing(Snapshot(m), m)
    ensures Pairwise(Snapshot(m), IdBefore)
  {
    var ks := SortedKeys(m.Keys);
    var rs := Snapshot(m);
    SnapshotAt(m);
    assert forall i :: 0 <= i < |rs| ==> rs[i].id == ks[i];
    forall k | k in m ensures m[k] in rs {
      var i :| 0 <= i < |ks| && ks[i] == k;
      assert rs[i] == m[k];
    }
    forall i, j | 0 <= i < j < |rs| ensures rs[i] != rs[j] {
      KeyLessIrreflexive(ks[i]);
    }
  }

  lemma SnapshotAt(m: Store)
    ensures var ks := SortedKeys(m.Keys);
      |Snapshot(m)| == |ks| && forall i :: 0 <= i < |ks| ==> ks[i] in m && Snapshot(m)[i] == m[ks[i]]
  {
  }

  /** Inserts `x` in front of the first element that is not newer than it. */
  function InsertNewest(x: Recipe, s: seq<Recipe>): (r: seq<Recipe>)
    ensures multiset(r) == multiset(s) + multiset{x}
    decreases |s|
  {
    if s == [] || s[0].updatedAt <= x.updatedAt then [x] + s
    else
      var rest := InsertNewest(x, s[1..]);
      assert s == [s[0]] + s[1..];
      [s[0]] + rest
  }

  /** `recipes.sort((a, b) => b.updatedAt - a.updatedAt)`: a stable sort, newest first.
      The result is a permutation of `s` in which no record is followed by a newer one. */
  function SortNewestFirst(s: seq<Recipe>): (r: seq<Recipe>)
    ensures multiset(r) == multiset(s)
    ensures Pairwise(r, NotOlder)
    decreases |s|
  {
    if s == [] then []
    else
      var rest := SortNewestFirst(s[1..]);
      SortStep(s, rest);
      InsertNewest(s[0], rest)
  }

  lemma SortStep(s: seq<Recipe>, rest: seq<Recipe>)
    requires s != [] && multiset(rest) == multiset(s[1..]) && Pairwise(rest, NotOlder)
    ensures multiset(InsertNewest(s[0], rest)) == multiset(s)
    ensures Pairwise(InsertNewest(s[0], rest), NotOlder)
  {
    InsertKeepsOrder(s[0], rest, NotOlder);
    assert s == [s[0]] + s[1..];
  }

  /** Inserting `x` into a newest-first list that is sorted by `rel` keeps it sorted by
      `rel`, when `x` is `rel`-after every newer element and `rel`-before the others. */
  lemma {:induction false} InsertKeepsOrder(x: Recipe, s: seq<Recipe>, rel: (Recipe, Recipe) -> bool)
    requires Pairwise(s, NotOlder) && Pairwise(s, rel)
    requires forall y :: y in s && y.updatedAt > x.updatedAt ==> rel(y, x)
    requires forall y :: y in s && y.updatedAt <= x.updatedAt ==> rel(x, y)
    ensures Pairwise(InsertNewest(x, s), rel)
    decreases |s|
  {
    var r := InsertNewest(x, s);
    if s == [] || s[0].updatedAt <= x.updatedAt {
      assert r == [x] + s;
      forall j | 0 <= j < |s| ensures rel(x, s[j]) {
        assert NotOlder(s[0], s[j]) || j == 0;
      }
      PairwiseCons(x, s, rel);
    } else {
      var rest := InsertNewest(x, s[1..]);
      assert r == [s[0]] + rest;
      PairwiseTail(s, NotOlder);
      PairwiseTail(s, rel);
      InsertKeepsOrder(x, s[1..], rel);
      forall y | y in rest ensures rel(s[0], y) {
        assert y in multiset(rest);
        if y != x {
          assert y in multiset(s[1..]);
          var k :| 0 <= k < |s[1..]| && s[1..][k] == y;
          assert s[k + 1] == y;
        }
      }
      PairwiseCons(s[0], rest, rel);
    }
  }

  /** The sort is stable: records that arrive in ascending key order come out newest
      first, with records of equal `updatedAt` still in ascending key order. */
  lemma {:induction false} SortStable(s: seq<Recipe>)
    requires Pairwise(s, IdBefore)
    ensures Pairwise(SortNewestFirst(s), Before)
    decreases |s|
  {
    if s != [] {
      var rest := SortNewestFirst(s[1..]);
      PairwiseTail(s, IdBefore);
      SortStable(s[1..]);
      forall y | y in rest ensures KeyLess(s[0].id, y.id) {
        assert y in multiset(s[1..]);
        var k :| 0 <= k < |s[1..]| && s[1..][k] == y;
        assert IdBefore(s[0], s[k + 1]);
      }
      InsertKeepsOrder(s[0], rest, Before);
    }
  }

  /** `Before` is a strict order: no two records precede each other. */
  lemma BeforeAsymmetric()
    ensures forall a, b :: Before(a, b) ==> !Before(b, a)
  {
    forall a, b | Before(a, b) ensures !Before(b, a) {
      if a.updatedAt == b.updatedAt {
        KeyLessAsymmetric(a.id, b.id);
      }
    }
  }

  /** A list sorted by `Before` holds no record twice. */
  lemma BeforeDistinct(s: seq<Recipe>)
    requires Pairwise(s, Before)
    ensures forall i, j :: 0 <= i < j < |s| ==> s[i] != s[j]
  {
    forall i, j | 0 <= i < j < |s| ensures s[i] != s[j] {
      KeyLessIrreflexive(s[i].id);
    }
  }

  /** `getAllRecipes`. */
  function AllRecipes(m: Store): seq<Recipe>
  {
    SortNewestFirst(Snapshot(m))
  }

  /** `getAllRecipes` lists every stored record exactly once, newest first, records
      with equal `updatedAt` in ascending id order. */
  lemma AllRecipesListing(m: Store)
    requires WellKeyed(m)
    ensures Listing(AllRecipes(m), m)
    ensures Pairwise(AllRecipes(m), Before)
    ensures |AllRecipes(m)| == |m|
  {
    var snap := Snapshot(m);
    var all := AllRecipes(m);
    SnapshotListing(m);
    SortStable(snap);
    BeforeDistinct(all);
    SameElements(all, snap);
    ListingPermutation(all, snap, m);
  }

  /** A duplicate-free rearrangement of a listing is a listing. */
  lemma ListingPermutation(a: seq<Recipe>, b: seq<Recipe>, m: Store)
    requires Listing(b, m)
    requires forall r :: r in a <==> r in b
    requires forall i, j :: 0 <= i < j < |a| ==> a[i] != a[j]
    ensures Listing(a, m)
  {
    forall i | 0 <= i < |a| ensures a[i].id in m && m[a[i].id] == a[i] {
      assert a[i] in b;
      var j :| 0 <= j < |b| && b[j] == a[i];
    }
  }

  /** Two sequences with the same multiset hold the same elements. */
  lemma SameElements(a: seq<Recipe>, b: seq<Recipe>)
    requires multiset(a) == multiset(b)
    ensures forall r :: r in a <==> r in b
  {
    forall r ensures r in a <==> r in b {
      assert r in a <==> r in multiset(a);
      assert r in b <==> r in multiset(b);
    }
  }

  /** The predicate `r => r.category === c`. */
  function InCategory(c: Category): Recipe -> bool
  {
    (r: Recipe) => r.category == c
  }

  /** `getRecipesByCategory`: the index hands out the records of category `c` in key
      order, which are then sorted newest first. */
  function ByCategory(m: Store, c: Category): seq<Recipe>
  {
    SortNewestFirst(Filter(Snapshot(m), InCategory(c)))
  }

  /** `getRecipesByCategory(c)` is exactly `getAllRecipes()` filtered to category `c`:
      the same records in the same order. */
  lemma ByCategoryIsFilteredAll(m: Store, c: Category)
    requires WellKeyed(m)
    ensures ByCategory(m, c) == Filter(AllRecipes(m), InCategory(c))
  {
    var snap := Snapshot(m);
    var picked := Filter(snap, InCategory(c));
    var byCat := ByCategory(m, c);
    var all := AllRecipes(m);
    var filtered := Filter(all, InCategory(c));
    SnapshotListing(m);
    AllRecipesListing(m);
    SubsequencePairwise(picked, snap, IdBefore);
    SortStable(picked);
    SubsequencePairwise(filtered, all, Before);
    SameElements(byCat, picked);
    SameElements(all, snap);
    BeforeAsymmetric();
    PairwiseUnique(byCat, filtered, Before);
  }

  /** The predicate `r => r.isFavorite`. */
  predicate IsFavorite(r: Recipe)
  {
    r.isFavorite
  }

  /** `getFavoriteRecipes`. */
  function Favorites(m: Store): (rs: seq<Recipe>)
    ensures IsSubsequence(rs, AllRecipes(m))
    ensures forall r :: r in rs <==> r in AllRecipes(m) && r.isFavorite
  {
    Filter(AllRecipes(m), IsFavorite)
  }

  /** Some ingredient of `r`, lower-cased, contains `q`; `false` when `r` has no ingredient list. */
  predicate IngredientMatches(r: Recipe, q: string)
  {
    match r.ingredients
    case None => false
    case Some(ings) => exists ing :: ing in ings && Contains(Lower(ing), q)
  }

  /** The filter of `searchRecipes`: the lower-cased title or some lower-cased
      ingredient contains the (already lower-cased, trimmed) query `q`. */
  predicate MatchesQuery(r: Recipe, q: string)
  {
    Contains(Lower(r.title), q) || IngredientMatches(r, q)
  }

  function Matching(q: string): Recipe -> bool
  {
    (r: Recipe) => MatchesQuery(r, q)
  }

  /** `searchRecipes(query)`: all recipes for a blank query, otherwise those matching
      `query.toLowerCase().trim()`, in the order of `getAllRecipes`. */
  function Search(m: Store, query: string): seq<Recipe>
  {
    var q := Trim(Lower(query));
    if q == [] then AllRecipes(m) else Filter(AllRecipes(m), Matching(q))
  }

  /** A search keeps the newest-first order of `getAllRecipes` and returns exactly the
      stored records whose title or ingredients contain the query, ignoring case and
      surrounding white space; a query that is only white space returns every record. */
  lemma SearchSpec(m: Store, query: string)
    requires WellKeyed(m)
    ensures IsSubsequence(Search(m, query), AllRecipes(m))
    ensures Pairwise(Search(m, query), Before)
    ensures Trim(query) == [] ==> Search(m, query) == AllRecipes(m)
    ensures forall r :: r in Search(m, query) <==>
      r in m.Values && (Trim(query) == [] || MatchesQuery(r, Lower(Trim(query))))
  {
    var all := AllRecipes(m);
    AllRecipesListing(m);
    TrimLowerCommute(query);
    var q := Trim(Lower(query));
    if q == [] {
      SubsequenceReflexive(all);
    } else {
      SubsequencePairwise(Search(m, query), all, Before);
    }
    forall r ensures r in all <==> r in m.Values {
      if r in all {
        var i :| 0 <= i < |all| && all[i] == r;
        assert m[r.id] == r;
      }
      if r in m.Values {
        var k :| k in m && m[k] == r;
      }
    }
  }

  /** Lower-casing a query first does not change what a search returns. */
  lemma SearchIgnoresCase(m: Store, query: string)
    ensures Search(m, Lower(query)) == Search(m, query)
  {
    assert Lower(Lower(query)) == Lower(query);
  }
}
