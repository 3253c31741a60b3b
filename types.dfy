/** The record shapes of the recipe catalogue (src/lib/db/types.ts): the ten
    categories, the Recipe record, the payload of an add and the partial record of
    an update, and the category table with its label and icon lookups. */
module Types {
  import opened Text

  datatype Option<+T> = None | Some(value: T)
  {
    function GetOr(default: T): T
    {
      match this
      case Some(v) => v
      case None => default
    }
  }

  /** `RecipeCategory`, a closed union of ten string literals. */
  datatype Category =
    | Hoofdgerecht | Voorgerecht | Dessert | Bijgerecht | Snack
    | Drank | Soep | Salade | Ontbijt | Anders

  /** The string literal each category stands for. */
  function CategoryValue(c: Category): string
  {
    match c
    case Hoofdgerecht => "hoofdgerecht"
    case Voorgerecht => "voorgerecht"
    case Dessert => "dessert"
    case Bijgerecht => "bijgerecht"
    case Snack => "snack"
    case Drank => "drank"
    case Soep => "soep"
    case Salade => "salade"
    case Ontbijt => "ontbijt"
    case Anders => "anders"
  }

  /** The categories in the order the union type lists them. */
  const AllCategories: seq<Category> :=
    [Hoofdgerecht, Voorgerecht, Dessert, Bijgerecht, Snack, Drank, Soep, Salade, Ontbijt, Anders]

  /** A stored recipe. Optional properties are `Option`s; `Date`s are integer clock readings;
      `servings` and `cookTime` are whole numbers. */
  datatype Recipe = Recipe(
    id: string,
    title: string,
    category: Category,
    ingredients: Option<seq<string>>,
    instructions: Option<string>,
    photos: seq<string>,
    sourceUrl: Option<string>,
    isFavorite: bool,
    servings: Option<int>,
    cookTime: Option<int>,
    notes: Option<string>,
    createdAt: int,
    updatedAt: int)

  /** `Omit<Recipe, 'id' | 'createdAt' | 'updatedAt'>`: what a caller hands to an add. */
  datatype RecipeData = RecipeData(
    title: string,
    category: Category,
    ingredients: Option<seq<string>>,
    instructions: Option<string>,
    photos: seq<string>,
    sourceUrl: Option<string>,
    isFavorite: bool,
    servings: Option<int>,
    cookTime: Option<int>,
    notes: Option<string>)

  /** The part of a recipe that is not generated by the store. */
  function DataOf(r: Recipe): RecipeData
  {
    RecipeData(r.title, r.category, r.ingredients, r.instructions, r.photos,
               r.sourceUrl, r.isFavorite, r.servings, r.cookTime, r.notes)
  }

  /** One property of a `Partial<Recipe>`: absent, or present with a value. */
  datatype Change<+T> = Keep | Assign(value: T)
  {
    function Apply(current: T): T
    {
      match this
      case Keep => current
      case Assign(v) => v
    }
  }

  /** `Partial<Recipe>`: any subset of the properties of a recipe. */
  datatype RecipePatch = RecipePatch(
    id: Change<string>,
    title: Change<string>,
    category: Change<Category>,
    ingredients: Change<Option<seq<string>>>,
    instructions: Change<Option<string>>,
    photos: Change<seq<string>>,
    sourceUrl: Change<Option<string>>,
    isFavorite: Change<bool>,
    servings: Change<Option<int>>,
    cookTime: Change<Option<int>>,
    notes: Change<Option<string>>,
    createdAt: Change<int>,
    updatedAt: Change<int>)

  /** The empty partial record `{}`. */
  const NoChanges: RecipePatch :=
    RecipePatch(Keep, Keep, Keep, Keep, Keep, Keep, Keep, Keep, Keep, Keep, Keep, Keep, Keep)

  /** The property names of a recipe, and the values they can hold; they let a
      contract speak of "every property" at once. */
  datatype Field =
    | Id | Title | CategoryField | Ingredients | Instructions | Photos | SourceUrl
    | Favorite | Servings | CookTime | Notes | CreatedAt | UpdatedAt

  datatype FieldValue =
    | Str(str: string)
    | Kind(kind: Category)
    | MaybeList(maybeList: Option<seq<string>>)
    | MaybeText(maybeText: Option<string>)
    | List(list: seq<string>)
    | Flag(flag: bool)
    | MaybeNumber(maybeNumber: Option<int>)
    | Time(time: int)

  function FieldOf(r: Recipe, f: Field): FieldValue
  {
    match f
    case Id => Str(r.id)
    case Title => Str(r.title)
    case CategoryField => Kind(r.category)
    case Ingredients => MaybeList(r.ingredients)
    case Instructions => MaybeText(r.instructions)
    case Photos => List(r.photos)
    case SourceUrl => MaybeText(r.sourceUrl)
    case Favorite => Flag(r.isFavorite)
    case Servings => MaybeNumber(r.servings)
    case CookTime => MaybeNumber(r.cookTime)
    case Notes => MaybeText(r.notes)
    case CreatedAt => Time(r.createdAt)
    case UpdatedAt => Time(r.updatedAt)
  }

  /** The value a partial record gives property `f`, if it names it. */
  function ChangeOf(p: RecipePatch, f: Field): Option<FieldValue>
  {
    match f
    case Id => if p.id.Assign? then Some(Str(p.id.value)) else None
    case Title => if p.title.Assign? then Some(Str(p.title.value)) else None
    case CategoryField => if p.category.Assign? then Some(Kind(p.category.value)) else None
    case Ingredients => if p.ingredients.Assign? then Some(MaybeList(p.ingredients.value)) else None
    case Instructions => if p.instructions.Assign? then Some(MaybeText(p.instructions.value)) else None
    case Photos => if p.photos.Assign? then Some(List(p.photos.value)) else None
    case SourceUrl => if p.sourceUrl.Assign? then Some(MaybeText(p.sourceUrl.value)) else None
    case Favorite => if p.isFavorite.Assign? then Some(Flag(p.isFavorite.value)) else None
    case Servings => if p.servings.Assign? then Some(MaybeNumber(p.servings.value)) else None
    case CookTime => if p.cookTime.Assign? then Some(MaybeNumber(p.cookTime.value)) else None
    case Notes => if p.notes.Assign? then Some(MaybeText(p.notes.value)) else None
    case CreatedAt => if p.createdAt.Assign? then Some(Time(p.createdAt.value)) else None
    case UpdatedAt => if p.updatedAt.Assign? then Some(Time(p.updatedAt.value)) else None
  }

  /** One row of `CATEGORIES`. */
  datatype CategoryInfo = CategoryInfo(value: Category, displayLabel: string, icon: string)

  /** The icon used when a category has no icon of its own. */
  const DefaultIcon: string := "\U{1F4DD}"

  /** The row of `CATEGORIES` that describes `c`. */
  function Row(c: Category): CategoryInfo
  {
    match c
    case Hoofdgerecht => CategoryInfo(Hoofdgerecht, "Hoofdgerecht", "\U{1F37D}\U{FE0F}")
    case Voorgerecht => CategoryInfo(Voorgerecht, "Voorgerecht", "\U{1F957}")
    case Dessert => CategoryInfo(Dessert, "Dessert", "\U{1F370}")
    case Bijgerecht => CategoryInfo(Bijgerecht, "Bijgerecht", "\U{1F954}")
    case Snack => CategoryInfo(Snack, "Snack", "\U{1F37F}")
    case Drank => CategoryInfo(Drank, "Drank", "\U{1F379}")
    case Soep => CategoryInfo(Soep, "Soep", "\U{1F372}")
    case Salade => CategoryInfo(Salade, "Salade", "\U{1F96C}")
    case Ontbijt => CategoryInfo(Ontbijt, "Ontbijt", "\U{1F373}")
    case Anders => CategoryInfo(Anders, "Anders", "\U{1F4DD}")
  }

  /** `CATEGORIES`: display metadata per category, one row per category in the order
      of the union type. */
  const Categories: seq<CategoryInfo> := [
    Row(Hoofdgerecht), Row(Voorgerecht), Row(Dessert), Row(Bijgerecht), Row(Snack),
    Row(Drank), Row(Soep), Row(Salade), Row(Ontbijt), Row(Anders)
  ]

  /** `table.find(e => e.value === c)`, as the position of the first matching row. */
  function FindCategory(table: seq<CategoryInfo>, c: Category): (r: Option<nat>)
    ensures r.Some? ==> r.value < |table| && table[r.value].value == c
    ensures r.Some? ==> forall j :: 0 <= j < r.value ==> table[j].value != c
    ensures r.None? ==> forall j :: 0 <= j < |table| ==> table[j].value != c
    decreases |table|
  {
    if table == [] then None
    else if table[0].value == c then Some(0)
    else
      match FindCategory(table[1..], c)
      case None => None
      case Some(i) => Some(i + 1)
  }

  /** `table.find(...)?.label || c`: the label of the first row for `c`, or the
      category string when there is no such row or its label is empty. */
  function LabelIn(table: seq<CategoryInfo>, c: Category): (name: string)
    ensures name != []
    ensures (forall j :: 0 <= j < |table| ==> table[j].value != c) ==> name == CategoryValue(c)
    ensures forall i :: 0 <= i < |table| && table[i].value == c && (forall j :: 0 <= j < i ==> table[j].value != c) ==>
      name == if table[i].displayLabel != [] then table[i].displayLabel else CategoryValue(c)
  {
    match FindCategory(table, c)
    case Some(i) => if table[i].displayLabel != [] then table[i].displayLabel else CategoryValue(c)
    case None => CategoryValue(c)
  }

  /** `table.find(...)?.icon || '📝'`: the icon of the first row for `c`, or the
      default icon when there is no such row or its icon is empty. */
  function IconIn(table: seq<CategoryInfo>, c: Category): (icon: string)
    ensures icon != []
    ensures (forall j :: 0 <= j < |table| ==> table[j].value != c) ==> icon == DefaultIcon
    ensures forall i :: 0 <= i < |table| && table[i].value == c && (forall j :: 0 <= j < i ==> table[j].value != c) ==>
      icon == if table[i].icon != [] then table[i].icon else DefaultIcon
  {
    match FindCategory(table, c)
    case Some(i) => if table[i].icon != [] then table[i].icon else DefaultIcon
    case None => DefaultIcon
  }

  /** `getCategoryLabel`. */
  function CategoryLabel(c: Category): string
  {
    LabelIn(Categories, c)
  }

  /** `getCategoryIcon`. */
  function CategoryIcon(c: Category): string
  {
    IconIn(Categories, c)
  }

  /** The position of `c` in the union type's list, and so of its row in `Categories`. */
  function CategoryIndex(c: Category): (i: nat)
    ensures i < |AllCategories| && AllCategories[i] == c
  {
    match c
    case Hoofdgerecht => 0
    case Voorgerecht => 1
    case Dessert => 2
    case Bijgerecht => 3
    case Snack => 4
    case Drank => 5
    case Soep => 6
    case Salade => 7
    case Ontbijt => 8
    case Anders => 9
  }

  /** The table has ten rows, one per category, and no category twice. */
  lemma CategoriesCoverage()
    ensures |Categories| == |AllCategories| == 10
    ensures forall c :: Categories[CategoryIndex(c)] == Row(c) && Row(c).value == c
    ensures forall i, j :: 0 <= i < j < |Categories| ==> Categories[i].value != Categories[j].value
  {
    forall c ensures Row(c).value == c {
    }
  }

  /** No row of the table has an empty label or an empty icon. */
  lemma RowFilled(c: Category)
    ensures |Row(c).displayLabel| > 0 && |Row(c).icon| > 0
  {
    match c
    case Hoofdgerecht =>
    case Voorgerecht =>
    case Dessert =>
    case Bijgerecht =>
    case Snack =>
    case Drank =>
    case Soep =>
    case Salade =>
    case Ontbijt =>
    case Anders =>
  }

  /** The lookups take the first row for `c` when it has a label and an icon. */
  lemma LookupFirstRow(table: seq<CategoryInfo>, c: Category, i: nat)
    requires i < |table| && table[i].value == c
    requires forall j :: 0 <= j < i ==> table[j].value != c
    requires |table[i].displayLabel| > 0 && |table[i].icon| > 0
    ensures LabelIn(table, c) == table[i].displayLabel
    ensures IconIn(table, c) == table[i].icon
  {
  }

  /** `getCategoryLabel` and `getCategoryIcon` always take the table's label and icon,
      and never fall back to the category string or the default icon. */
  lemma CategoryDisplayFromTable(c: Category)
    ensures CategoryLabel(c) == Row(c).displayLabel
    ensures CategoryIcon(c) == Row(c).icon
  {
    CategoriesCoverage();
    RowFilled(c);
    LookupFirstRow(Categories, c, CategoryIndex(c));
  }

  /** Each category's label is its value with the first letter in upper case. */
  lemma LabelIsCapitalizedValue(c: Category)
    ensures CategoryLabel(c) == Capitalized(CategoryValue(c))
  {
    CategoryDisplayFromTable(c);
    RowLabelCapitalized(c);
  }

  lemma RowLabelCapitalized(c: Category)
    ensures Row(c).displayLabel == Capitalized(CategoryValue(c))
  {
    var v := CategoryValue(c);
    assert UpperChar(v[0]) == Row(c).displayLabel[0];
    assert v[1..] == Row(c).displayLabel[1..];
  }
}
