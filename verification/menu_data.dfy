/** The restaurant's fixed catalogue (`src/data/menuData.js`) and the three
    queries over it: lookup by category, the popular list and text search. */
module MenuData {
  import opened JsStrings
  import opened Seqs
  import opened MenuTypes

  const MenuCategories: seq<Category> := [
    Category("breakfast", "Breakfast", "Start your day with our delicious breakfast options"),
    Category("lunch", "Lunch", "Satisfying meals for your midday hunger"),
    Category("coffee", "Coffee", "Premium coffee blends and specialty drinks"),
    Category("tea", "Tea", "Soothing tea varieties from around the world"),
    Category("beers", "Beers", "Craft and local beers for every taste")
  ]

  const BreakfastItems: seq<MenuItem> := [
    MenuItem(1, "Classic Breakfast Plate",
      "Two eggs any style, bacon or sausage, hash browns, and toast",
      12.99, true, ["gluten-free-option"]),
    MenuItem(2, "Fluffy Pancakes with Bacon",
      "Three fluffy pancakes served with crispy bacon and maple syrup",
      11.99, false, ["vegetarian-option"]),
    MenuItem(3, "Avocado Toast",
      "Smashed avocado on sourdough with cherry tomatoes and feta",
      9.99, true, ["vegetarian", "healthy"]),
    MenuItem(4, "Breakfast Burrito",
      "Scrambled eggs, cheese, peppers, onions, and salsa in a flour tortilla",
      10.99, false, ["spicy"]),
    MenuItem(5, "French Toast",
      "Thick-cut brioche French toast with berries and whipped cream",
      10.99, true, ["vegetarian"]),
    MenuItem(6, "Omelette Special",
      "Three-egg omelette with your choice of cheese, vegetables, and meat",
      13.99, false, ["gluten-free", "customizable"])
  ]

  const LunchItems: seq<MenuItem> := [
    MenuItem(7, "Gourmet Burger",
      "Angus beef patty with lettuce, tomato, onion, and special sauce",
      15.99, true, ["gluten-free-bun-option"]),
    MenuItem(8, "Caesar Salad",
      "Crisp romaine lettuce with parmesan, croutons, and Caesar dressing",
      11.99, true, ["vegetarian", "healthy"]),
    MenuItem(9, "Grilled Chicken Sandwich",
      "Marinated grilled chicken breast with avocado and chipotle mayo",
      14.99, false, ["healthy", "protein-rich"]),
    MenuItem(10, "Pasta Primavera",
      "Fresh vegetables tossed with penne pasta in a light cream sauce",
      13.99, true, ["vegetarian"]),
    MenuItem(11, "Fish and Chips",
      "Beer-battered cod with crispy fries and tartar sauce",
      16.99, false, ["seafood"]),
    MenuItem(12, "Margherita Pizza",
      "Fresh mozzarella, tomato sauce, and basil on thin crust",
      14.99, true, ["vegetarian"])
  ]

  const CoffeeItems: seq<MenuItem> := [
    MenuItem(13, "Espresso",
      "Rich and bold single shot of premium espresso",
      2.99, true, ["vegan", "caffeine"]),
    MenuItem(14, "Cappuccino",
      "Espresso with steamed milk and a thick layer of foam",
      4.99, true, ["vegetarian", "caffeine"]),
    MenuItem(15, "Latte",
      "Smooth espresso with steamed milk and light foam",
      5.49, true, ["vegetarian", "caffeine"]),
    MenuItem(16, "Americano",
      "Espresso shots with hot water for a clean, strong taste",
      3.99, false, ["vegan", "caffeine"]),
    MenuItem(17, "Mocha",
      "Espresso with chocolate syrup, steamed milk, and whipped cream",
      5.99, true, ["vegetarian", "sweet", "caffeine"]),
    MenuItem(18, "Cold Brew",
      "Smooth, cold-steeped coffee served over ice",
      4.49, false, ["vegan", "caffeine", "cold"])
  ]

  const TeaItems: seq<MenuItem> := [
    MenuItem(19, "Earl Grey",
      "Classic black tea with bergamot oil and citrus notes",
      3.99, true, ["vegan", "caffeine"]),
    MenuItem(20, "Green Tea",
      "Light and refreshing green tea with antioxidants",
      3.49, true, ["vegan", "healthy", "caffeine"]),
    MenuItem(21, "Chamomile",
      "Soothing herbal tea perfect for relaxation",
      3.99, false, ["vegan", "caffeine-free", "herbal"]),
    MenuItem(22, "Jasmine Tea",
      "Fragrant green tea scented with jasmine flowers",
      4.49, false, ["vegan", "floral", "caffeine"]),
    MenuItem(23, "Peppermint Tea",
      "Refreshing herbal tea with cooling peppermint leaves",
      3.49, true, ["vegan", "caffeine-free", "herbal"]),
    MenuItem(24, "Oolong Tea",
      "Traditional Chinese tea with complex flavor profile",
      4.99, false, ["vegan", "traditional", "caffeine"])
  ]

  const BeersItems: seq<MenuItem> := [
    MenuItem(25, "IPA",
      "Hoppy India Pale Ale with citrus and pine notes",
      6.99, true, ["alcoholic", "hoppy"]),
    MenuItem(26, "Wheat Beer",
      "Light and refreshing wheat beer with smooth finish",
      5.99, true, ["alcoholic", "light"]),
    MenuItem(27, "Stout",
      "Rich and creamy dark beer with coffee and chocolate notes",
      7.49, false, ["alcoholic", "dark", "rich"]),
    MenuItem(28, "Lager",
      "Crisp and clean lager beer, perfect for any occasion",
      5.49, true, ["alcoholic", "crisp"]),
    MenuItem(29, "Porter",
      "Dark beer with roasted malt flavors and smooth texture",
      6.99, false, ["alcoholic", "dark", "roasted"]),
    MenuItem(30, "Pilsner",
      "Golden beer with floral hops and crisp finish",
      5.99, true, ["alcoholic", "golden", "crisp"])
  ]
  /** The `menuItems` object: category key to its item list, in the object's
      key order (which is also the order `Object.values` lists them in). */
  const MenuItems: seq<(string, seq<MenuItem>)> := [
    ("breakfast", BreakfastItems),
    ("lunch", LunchItems),
    ("coffee", CoffeeItems),
    ("tea", TeaItems),
    ("beers", BeersItems)
  ]

  const MenuPackages: seq<MenuPackage> := [
    MenuPackage("silver", "Silver Package", "$45/person",
      "Appetizer, main course, dessert, and soft drinks",
      ["Caesar Salad or Soup", "Choice of 3 Main Courses", "Seasonal Dessert", "Coffee & Tea"]),
    MenuPackage("gold", "Gold Package", "$65/person",
      "Premium appetizers, multiple courses, wine pairing",
      ["Premium Appetizer Selection", "Choice of 4 Main Courses", "Wine Pairing",
       "Gourmet Desserts", "Full Bar Service"]),
    MenuPackage("platinum", "Platinum Package", "$85/person",
      "Luxury dining experience with chef specialties",
      ["Chef's Special Appetizers", "Choice of 5 Signature Dishes", "Premium Wine Selection",
       "Custom Dessert Options", "Full Bar & Cocktails", "Dedicated Server"])
  ]

  const EventTypes: seq<string> := [
    "Birthday Party", "Anniversary", "Corporate Event", "Wedding Reception",
    "Baby Shower", "Graduation Party", "Holiday Party", "Other"
  ]

  function GetEventTypes(): (r: seq<string>)
    ensures |r| == 8 && r[|r| - 1] == "Other"
  {
    EventTypes
  }

  function GetMenuPackages(): (r: seq<MenuPackage>)
    ensures |r| == 3
    ensures r[0].id == "silver" && r[1].id == "gold" && r[2].id == "platinum"
  {
    MenuPackages
  }

  /** `Object.values(menuItems).flat()`: every item, category by category. */
  function AllItems(): seq<MenuItem> {
    Flatten(seq(|MenuItems|, i requires 0 <= i < |MenuItems| => MenuItems[i].1))
  }

  /** `getItemsByCategory`: a category key's items, or nothing for an unknown key. */
  function GetItemsByCategory(category: string): (r: seq<MenuItem>)
    ensures category !in Keys(MenuItems) ==> r == []
    ensures forall i | 0 <= i < |MenuItems| && MenuItems[i].0 == category :: r == MenuItems[i].1
  {
    KeysAreDistinct();
    forall i | 0 <= i < |MenuItems| && MenuItems[i].0 == category
      ensures ValueFor(MenuItems, category, []) == MenuItems[i].1
    {
      ValueForFirst(MenuItems, category, [], i);
    }
    ValueFor(MenuItems, category, [])
  }

  predicate IsPopular(item: MenuItem) {
    item.popular
  }

  /** `getPopularItems`: the items flagged popular, in catalogue order. */
  function GetPopularItems(): (r: seq<MenuItem>)
    ensures forall i | 0 <= i < |r| :: r[i] in AllItems() && r[i].popular
    ensures forall i | 0 <= i < |AllItems()| :: AllItems()[i].popular ==> AllItems()[i] in r
    ensures IdsIncrease(r)
  {
    FilterMembers(AllItems(), IsPopular);
    CatalogueIdsIncrease();
    FilterKeepsIdOrder(AllItems(), IsPopular);
    Filter(AllItems(), IsPopular)
  }

  /** The test `searchItems` applies: the lower-cased name or description
      contains the lower-cased query. */
  predicate MatchesQuery(item: MenuItem, query: string) {
    Contains(ToLower(item.name), ToLower(query))
    || Contains(ToLower(item.description), ToLower(query))
  }

  /** `searchItems`: the items matching the query, in catalogue order. */
  function SearchItems(query: string): (r: seq<MenuItem>)
    ensures forall i | 0 <= i < |r| :: r[i] in AllItems() && MatchesQuery(r[i], query)
    ensures forall i | 0 <= i < |AllItems()| :: MatchesQuery(AllItems()[i], query) ==> AllItems()[i] in r
    ensures IdsIncrease(r)
  {
    FilterMembers(AllItems(), item => MatchesQuery(item, query));
    CatalogueIdsIncrease();
    FilterKeepsIdOrder(AllItems(), item => MatchesQuery(item, query));
    Filter(AllItems(), item => MatchesQuery(item, query))
  }

  /** A run of ids counting up by one increases. */
  lemma IdsFromIncrease(items: seq<MenuItem>, offset: int)
    requires IdsFrom(items, offset)
    ensures IdsIncrease(items)
  {
  }

  /** The catalogue itself is in increasing id order. */
  lemma CatalogueIdsIncrease()
    ensures IdsIncrease(AllItems())
  {
    ItemIdsRunOneToThirty();
    assert IdsFrom(AllItems(), 0);
    IdsFromIncrease(AllItems(), 0);
  }

  lemma KeysAreDistinct()
    ensures forall i, j | 0 <= i < j < |MenuItems| :: MenuItems[i].0 != MenuItems[j].0
  {
  }

  /** The catalogue is the five category lists back to back. */
  lemma AllItemsByCategory()
    ensures AllItems() == BreakfastItems + LunchItems + CoffeeItems + TeaItems + BeersItems
  {
    var vs := seq(|MenuItems|, i requires 0 <= i < |MenuItems| => MenuItems[i].1);
    assert vs == [BreakfastItems, LunchItems, CoffeeItems, TeaItems, BeersItems];
    FlattenFive(BreakfastItems, LunchItems, CoffeeItems, TeaItems, BeersItems);
  }

  lemma FlattenFive<T>(a: seq<T>, b: seq<T>, c: seq<T>, d: seq<T>, e: seq<T>)
    ensures Flatten([a, b, c, d, e]) == a + b + c + d + e
  {
    var vs := [a, b, c, d, e];
    assert Flatten(vs[4..]) == e + Flatten(vs[5..]);
    assert Flatten(vs[3..]) == d + Flatten(vs[4..]);
    assert Flatten(vs[2..]) == c + Flatten(vs[3..]);
    assert Flatten(vs[1..]) == b + Flatten(vs[2..]);
  }

  /** Item ids run 1 to 30 in catalogue order, so no two items share one. */
  lemma ItemIdsRunOneToThirty()
    ensures |AllItems()| == 30
    ensures forall i | 0 <= i < 30 :: AllItems()[i].id == i + 1
    ensures forall i, j | 0 <= i < j < |AllItems()| :: AllItems()[i].id != AllItems()[j].id
  {
    AllItemsByCategory();
    ListIds();
    FiveRuns(BreakfastItems, LunchItems, CoffeeItems, TeaItems, BeersItems);
  }

  /** Five runs of six ids numbered on from each other make one run of thirty. */
  lemma FiveRuns(a: seq<MenuItem>, b: seq<MenuItem>, c: seq<MenuItem>, d: seq<MenuItem>, e: seq<MenuItem>)
    requires |a| == |b| == |c| == |d| == |e| == 6
    requires IdsFrom(a, 0) && IdsFrom(b, 6) && IdsFrom(c, 12) && IdsFrom(d, 18) && IdsFrom(e, 24)
    ensures |a + b + c + d + e| == 30 && IdsFrom(a + b + c + d + e, 0)
  {
    IdsConcat(a, b, 0);
    IdsConcat(a + b, c, 0);
    IdsConcat(a + b + c, d, 0);
    IdsConcat(a + b + c + d, e, 0);
  }

  /** The ids of `items` count up from `offset + 1`. */
  predicate IdsFrom(items: seq<MenuItem>, offset: int) {
    forall i | 0 <= i < |items| :: items[i].id == offset + i + 1
  }

  lemma IdsConcat(a: seq<MenuItem>, b: seq<MenuItem>, offset: int)
    requires IdsFrom(a, offset) && IdsFrom(b, offset + |a|)
    ensures IdsFrom(a + b, offset)
  {
    forall i | |a| <= i < |a + b|
      ensures (a + b)[i].id == offset + i + 1
    {
      assert (a + b)[i] == b[i - |a|];
    }
  }

  /** Each category holds six items, numbered on from the previous one. */
  lemma ListIds()
    ensures |BreakfastItems| == |LunchItems| == |CoffeeItems| == |TeaItems| == |BeersItems| == 6
    ensures IdsFrom(BreakfastItems, 0) && IdsFrom(LunchItems, 6) && IdsFrom(CoffeeItems, 12)
    ensures IdsFrom(TeaItems, 18) && IdsFrom(BeersItems, 24)
  {
    BreakfastIds();
    LunchIds();
    CoffeeIds();
    TeaIds();
    BeersIds();
  }

  lemma BreakfastIds()
    ensures |BreakfastItems| == 6 && IdsFrom(BreakfastItems, 0)
  {
  }

  lemma LunchIds()
    ensures |LunchItems| == 6 && IdsFrom(LunchItems, 6)
  {
  }

  lemma CoffeeIds()
    ensures |CoffeeItems| == 6 && IdsFrom(CoffeeItems, 12)
  {
  }

  lemma TeaIds()
    ensures |TeaItems| == 6 && IdsFrom(TeaItems, 18)
  {
  }

  lemma BeersIds()
    ensures |BeersItems| == 6 && IdsFrom(BeersItems, 24)
  {
  }

  /** The category tabs and the item lists name the same keys in the same order. */
  lemma CategoriesMatchItemLists()
    ensures |MenuCategories| == |MenuItems|
    ensures forall i | 0 <= i < |MenuCategories| :: MenuCategories[i].id == MenuItems[i].0
  {
  }

  /** Every known category key returns its listed items; others return nothing. */
  lemma ItemsByCategoryLookup(category: string)
    ensures GetItemsByCategory("breakfast") == BreakfastItems
    ensures GetItemsByCategory("beers") == BeersItems
    ensures (forall c | c in MenuCategories :: c.id != category) ==> GetItemsByCategory(category) == []
  {
    CategoriesMatchItemLists();
    assert MenuItems[0].0 == "breakfast" && MenuItems[4].0 == "beers";
  }

  /** Every category's list is in increasing id order. */
  lemma CategoryItemsInOrder(category: string)
    ensures IdsIncrease(GetItemsByCategory(category))
  {
    CategoryListsInOrder();
  }

  lemma CategoryListsInOrder()
    ensures forall i | 0 <= i < |MenuItems| :: IdsIncrease(MenuItems[i].1)
  {
    ListIds();
    IdsFromIncrease(BreakfastItems, 0);
    IdsFromIncrease(LunchItems, 6);
    IdsFromIncrease(CoffeeItems, 12);
    IdsFromIncrease(TeaItems, 18);
    IdsFromIncrease(BeersItems, 24);
  }

  /** The empty query matches every item, so searching for it lists the whole catalogue. */
  lemma EmptySearchListsEverything()
    ensures SearchItems("") == AllItems()
  {
    var all := AllItems();
    forall i | 0 <= i < |all|
      ensures MatchesQuery(all[i], "")
    {
      EmptyNeedleIsContained(ToLower(all[i].name));
    }
    FilterAllPass(all, item => MatchesQuery(item, ""));
  }

  /** Every price on the menu is positive. */
  lemma PricesArePositive()
    ensures forall i | 0 <= i < |AllItems()| :: AllItems()[i].price > 0.0
  {
    AllItemsByCategory();
  }
}
