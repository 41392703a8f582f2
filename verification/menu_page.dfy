/** The decisions of the menu page (`src/pages/Menu.jsx`): which items to show
    for a tab, the popular-only switch and the search box; how a `category`
    query parameter selects a tab; the badge colour of a dietary tag. */
module MenuPage {
  import opened JsStrings
  import opened Seqs
  import opened Optional
  import opened MenuTypes
  import opened MenuData

  /** `menuCategories.flatMap(c => getItemsByCategory(c.id))`: the "all" tab. */
  function AllTabItems(): seq<MenuItem> {
    Flatten(seq(|MenuCategories|, i requires 0 <= i < |MenuCategories| =>
      GetItemsByCategory(MenuCategories[i].id)))
  }

  /** The items the selected tab lists before the switch and the search apply. */
  function TabItems(selected: string): seq<MenuItem> {
    if selected == "all" then AllTabItems()
    else if selected == "popular" then GetPopularItems()
    else GetItemsByCategory(selected)
  }

  /** Every tab lists its items in increasing id order. */
  lemma TabItemsInOrder(selected: string)
    ensures IdsIncrease(TabItems(selected))
  {
    if selected == "all" {
      AllTabIsCatalogue();
      CatalogueIdsIncrease();
    } else if selected != "popular" {
      CategoryItemsInOrder(selected);
    }
  }

  /** `getFilteredItems`: the tab's items, narrowed to popular ones when the
      switch is on; a non-empty search query replaces both with the search
      result. Whatever is shown is in catalogue order without repeats. */
  function FilteredItems(selected: string, popularOnly: bool, query: string): (r: seq<MenuItem>)
    ensures query != "" ==> r == SearchItems(query)
    ensures query == "" && !popularOnly ==> r == TabItems(selected)
    ensures query == "" && popularOnly ==>
      && (forall i | 0 <= i < |r| :: r[i] in TabItems(selected) && r[i].popular)
      && (forall i | 0 <= i < |TabItems(selected)| ::
            TabItems(selected)[i].popular ==> TabItems(selected)[i] in r)
    ensures IdsIncrease(r)
  {
    var items := TabItems(selected);
    FilterMembers(items, IsPopular);
    TabItemsInOrder(selected);
    FilterKeepsIdOrder(items, IsPopular);
    var items := if popularOnly then Filter(items, IsPopular) else items;
    if query != "" then SearchItems(query) else items
  }

  /** The "all" tab lists the whole catalogue in category order. */
  lemma AllTabIsCatalogue()
    ensures AllTabItems() == AllItems()
  {
    CategoriesMatchItemLists();
    var tabs := seq(|MenuCategories|, i requires 0 <= i < |MenuCategories| =>
      GetItemsByCategory(MenuCategories[i].id));
    var vs := seq(|MenuItems|, i requires 0 <= i < |MenuItems| => MenuItems[i].1);
    forall i | 0 <= i < |MenuCategories|
      ensures tabs[i] == vs[i]
    {
      assert MenuCategories[i].id == MenuItems[i].0;
    }
    assert tabs == vs;
  }

  /** With the switch on and no query, the popular tab and the "all" tab show the same items. */
  lemma PopularOnlyOverAllIsPopularTab()
    ensures FilteredItems("all", true, "") == GetPopularItems()
  {
    AllTabIsCatalogue();
  }

  /** With the switch on, showing the popular tab again filters nothing out. */
  lemma PopularOnlyOverPopularTab()
    ensures FilteredItems("popular", true, "") == FilteredItems("popular", false, "")
  {
    FilterIdempotent(AllItems(), IsPopular);
  }

  /** The test the category `find` applies: the tab's id equals the parameter
      or its lower-cased name equals the lower-cased parameter. */
  predicate Selects(c: Category, param: string) {
    c.id == param || ToLower(c.name) == ToLower(param)
  }

  /** The category `find`: the first tab the parameter selects. */
  function FindCategory(cats: seq<Category>, param: string): (r: Option<Category>)
    ensures r.Some? ==> r.value in cats && Selects(r.value, param)
    ensures r.None? ==> forall c | c in cats :: !Selects(c, param)
    ensures forall k | 0 <= k < |cats| && Selects(cats[k], param) && (forall j | 0 <= j < k :: !Selects(cats[j], param)) ::
      r == Some(cats[k])
  {
    if |cats| == 0 then None
    else if Selects(cats[0], param) then Some(cats[0])
    else
      var r := FindCategory(cats[1..], param);
      PassOverFirst(cats, param, r);
      r
  }

  /** What the search promises about the tabs after the first carries over
      to the whole list when the first tab does not match. */
  lemma PassOverFirst(cats: seq<Category>, param: string, r: Option<Category>)
    requires |cats| > 0 && !Selects(cats[0], param)
    requires r.Some? ==> r.value in cats[1..] && Selects(r.value, param)
    requires r.None? ==> forall c | c in cats[1..] :: !Selects(c, param)
    requires forall k | 0 <= k < |cats| - 1 && Selects(cats[1..][k], param) && (forall j | 0 <= j < k :: !Selects(cats[1..][j], param)) ::
      r == Some(cats[1..][k])
    ensures r.Some? ==> r.value in cats
    ensures r.None? ==> forall c | c in cats :: !Selects(c, param)
    ensures forall k | 0 <= k < |cats| && Selects(cats[k], param) && (forall j | 0 <= j < k :: !Selects(cats[j], param)) ::
      r == Some(cats[k])
  {
    forall k | 0 < k < |cats| && Selects(cats[k], param) && (forall j | 0 <= j < k :: !Selects(cats[j], param))
      ensures r == Some(cats[k])
    {
      assert cats[k] == cats[1..][k - 1];
      assert forall j | 0 <= j < k - 1 :: cats[1..][j] == cats[j + 1];
    }
  }

  /** The effect on the `category` query parameter: a parameter naming a tab
      (by id, or by name in any letter case) selects that tab; a missing,
      empty or unknown parameter leaves the selection as it was. */
  function ResolveCategoryParam(param: Option<string>, current: string): (r: string)
    ensures r == current || exists c | c in MenuCategories :: r == c.id
    ensures param.None? || param == Some("") ==> r == current
    ensures param.Some? && param.value != "" ==>
      forall c | c in MenuCategories && Selects(c, param.value) :: r == c.id
    ensures param.Some? && param.value != "" && r != current ==>
      exists c | c in MenuCategories :: r == c.id && Selects(c, param.value)
    ensures param.Some? && (forall c | c in MenuCategories :: !Selects(c, param.value)) ==> r == current
  {
    if param.None? || param.value == "" then current
    else
      MatchingTabFound(param.value);
      match FindCategory(MenuCategories, param.value)
      case Some(c) => c.id
      case None => current
  }

  /** Whichever tab a parameter selects, the search finds that tab. */
  lemma MatchingTabFound(param: string)
    ensures forall c | c in MenuCategories && Selects(c, param) :: FindCategory(MenuCategories, param) == Some(c)
  {
    NamesLowerToIds();
    IdsAreDistinct();
    forall k | 0 <= k < |MenuCategories| && Selects(MenuCategories[k], param)
      ensures FindCategory(MenuCategories, param) == Some(MenuCategories[k])
    {
      LowerIdempotent(MenuCategories[k].name);
      FindByAnyCase(MenuCategories, k, param);
    }
  }

  lemma IdsAreDistinct()
    ensures forall i, j | 0 <= i < j < |MenuCategories| :: MenuCategories[i].id != MenuCategories[j].id
  {
  }

  /** Each tab's name, lower-cased, is its id. */
  lemma NamesLowerToIds()
    ensures forall i | 0 <= i < |MenuCategories| :: ToLower(MenuCategories[i].name) == MenuCategories[i].id
  {
    assert ToLower("Breakfast") == "breakfast";
    assert ToLower("Lunch") == "lunch";
    assert ToLower("Coffee") == "coffee";
    assert ToLower("Tea") == "tea";
    assert ToLower("Beers") == "beers";
  }

  /** Every tab id given as the parameter selects that tab. */
  lemma CategoryIdSelectsItself(current: string)
    ensures forall c | c in MenuCategories :: ResolveCategoryParam(Some(c.id), current) == c.id
  {
    NamesLowerToIds();
    IdsAreNonEmpty();
    forall k | 0 <= k < |MenuCategories|
      ensures ResolveCategoryParam(Some(MenuCategories[k].id), current) == MenuCategories[k].id
    {
      LowerIdempotent(MenuCategories[k].name);
      FindByAnyCase(MenuCategories, k, MenuCategories[k].id);
      FoundTabSelected(MenuCategories[k].id, current, MenuCategories[k]);
    }
  }

  lemma IdsAreNonEmpty()
    ensures forall i | 0 <= i < |MenuCategories| :: MenuCategories[i].id != ""
  {
  }

  /** A non-empty parameter that finds a tab selects it. */
  lemma FoundTabSelected(param: string, current: string, c: Category)
    requires param != "" && FindCategory(MenuCategories, param) == Some(c)
    ensures ResolveCategoryParam(Some(param), current) == c.id
  {
  }

  /** In a tab list whose ids are distinct and are the lower-cased names,
      a parameter that lower-cases to a tab's id finds that tab. */
  lemma {:induction false} FindByAnyCase(cats: seq<Category>, k: int, param: string)
    requires 0 <= k < |cats| && ToLower(param) == cats[k].id
    requires forall i | 0 <= i < |cats| :: ToLower(cats[i].name) == cats[i].id
    requires forall i, j | 0 <= i < j < |cats| :: cats[i].id != cats[j].id
    ensures FindCategory(cats, param) == Some(cats[k])
  {
    if k > 0 {
      LowerIdempotent(cats[0].name);
      assert cats[1..][k - 1] == cats[k];
      FindByAnyCase(cats[1..], k - 1, param);
    }
  }

  lemma LowerIdempotent(s: string)
    ensures ToLower(ToLower(s)) == ToLower(s)
  {
  }

  /** Tab names are recognised in any letter case. */
  lemma CategoryNameInCapitals(current: string)
    ensures ResolveCategoryParam(Some("COFFEE"), current) == "coffee"
  {
    NamesLowerToIds();
    assert ToLower("COFFEE") == "coffee" == MenuCategories[2].id;
    FindByAnyCase(MenuCategories, 2, "COFFEE");
    FoundTabSelected("COFFEE", current, MenuCategories[2]);
  }

  /** The state `handleCategoryChange` leaves: the selected tab and the URL's query parameters. */
  datatype TabChange = TabChange(selected: string, params: map<string, string>)

  /** `handleCategoryChange`: "all" clears the query parameters, any other tab
      becomes the only `category` parameter. */
  function HandleCategoryChange(category: string): (r: TabChange)
    ensures r.selected == category
    ensures category == "all" <==> r.params == map[]
    ensures category != "all" ==> r.params.Keys == {"category"} && r.params["category"] == category
  {
    if category == "all" then TabChange(category, map[])
    else
      var params := map["category" := category];
      assert "category" in params;
      TabChange(category, params)
  }

  /** The colour classes of the known dietary tags, in the source's order. */
  const DietaryColors: seq<(string, string)> := [
    ("vegetarian", "bg-green-100 text-green-800"),
    ("vegan", "bg-green-200 text-green-900"),
    ("gluten-free", "bg-blue-100 text-blue-800"),
    ("healthy", "bg-emerald-100 text-emerald-800"),
    ("spicy", "bg-red-100 text-red-800"),
    ("caffeine", "bg-orange-100 text-orange-800"),
    ("alcoholic", "bg-purple-100 text-purple-800")
  ]

  const DefaultBadgeColor: string := "bg-gray-100 text-gray-800"

  /** `getDietaryBadgeColor`: a known tag's colour, grey for any other tag. */
  function DietaryBadgeColor(tag: string): (r: string)
    ensures tag !in Keys(DietaryColors) ==> r == DefaultBadgeColor
    ensures tag in Keys(DietaryColors) ==> (tag, r) in DietaryColors
  {
    ValueFor(DietaryColors, tag, DefaultBadgeColor)
  }

  /** Each known tag is listed once and has a colour of its own, never the
      grey of unknown tags, so a badge's colour identifies its tag. */
  lemma DietaryColorsIdentifyTags()
    ensures forall i, j | 0 <= i < j < |DietaryColors| :: DietaryColors[i].0 != DietaryColors[j].0
    ensures forall i, j | 0 <= i < j < |DietaryColors| :: DietaryColors[i].1 != DietaryColors[j].1
    ensures forall i | 0 <= i < |DietaryColors| :: DietaryColors[i].1 != DefaultBadgeColor
  {
  }
}
