/** The records the catalogue is made of (`src/data/menuData.js`). */
module MenuTypes {
  import opened Seqs

  /** One dish or drink. The picture reference of the source is not modelled. */
  datatype MenuItem = MenuItem(
    id: int,
    name: string,
    description: string,
    price: real,
    popular: bool,
    dietary: seq<string>)

  /** One tab of the menu. The icon and picture are not modelled. */
  datatype Category = Category(id: string, name: string, description: string)

  /** One private-event package; its price is display text such as "$45/person". */
  datatype MenuPackage = MenuPackage(
    id: string,
    name: string,
    price: string,
    description: string,
    items: seq<string>)

  /** Ids strictly increase along `items`: the list is in catalogue order
      (whose ids run 1 to 30) and holds no item twice. */
  predicate IdsIncrease(items: seq<MenuItem>) {
    forall i, j | 0 <= i < j < |items| :: items[i].id < items[j].id
  }

  /** Filtering keeps the order of what it keeps. */
  lemma {:induction false} FilterKeepsIdOrder(s: seq<MenuItem>, p: MenuItem -> bool)
    requires IdsIncrease(s)
    ensures IdsIncrease(Filter(s, p))
  {
    if |s| > 0 {
      var tail := Filter(s[1..], p);
      assert IdsIncrease(s[1..]) by {
        forall i, j | 0 <= i < j < |s[1..]|
          ensures s[1..][i].id < s[1..][j].id
        {
          assert s[1..][i] == s[i + 1] && s[1..][j] == s[j + 1];
        }
      }
      FilterKeepsIdOrder(s[1..], p);
      FilterMembers(s[1..], p);
      forall k | 0 <= k < |tail|
        ensures s[0].id < tail[k].id
      {
        var j :| 0 <= j < |s[1..]| && s[1..][j] == tail[k];
        assert s[j + 1] == tail[k];
      }
      assert Filter(s, p) == (if p(s[0]) then [s[0]] else []) + tail;
    }
  }
}
