/** The shopping cart (`src/context/CartContext.jsx`): an ordered sequence of
    line items, the operations that replace it, and the two sums derived from it. */
module CartStore {
  import opened Seqs
  import opened MenuTypes

  /** A catalogue item in the cart with how many of it were ordered. */
  datatype LineItem = Line(item: MenuItem, quantity: int)

  type Cart = seq<LineItem>

  /** The cart's invariant: no two lines share an id and every quantity is at least 1. */
  predicate UniqueIds(c: Cart) {
    forall i, j | 0 <= i < j < |c| :: c[i].item.id != c[j].item.id
  }

  predicate PositiveQuantities(c: Cart) {
    forall i | 0 <= i < |c| :: c[i].quantity >= 1
  }

  predicate Valid(c: Cart) {
    UniqueIds(c) && PositiveQuantities(c)
  }

  /** `cartItems.find(line => line.id === id)` finds something. */
  predicate HasId(c: Cart, id: int) {
    exists i | 0 <= i < |c| :: c[i].item.id == id
  }

  predicate NotId(id: int, line: LineItem) {
    line.item.id != id
  }

  /** `addToCart`: a new id is appended as a line of quantity 1; a known id has
      its line's quantity raised by one, keeping the line's own item fields. */
  function AddToCart(c: Cart, item: MenuItem): (r: Cart)
    ensures !HasId(c, item.id) ==> |r| == |c| + 1 && r[..|c|] == c && r[|c|] == Line(item, 1)
    ensures HasId(c, item.id) ==> |r| == |c|
    ensures HasId(c, item.id) ==> forall i | 0 <= i < |c| ::
      && r[i].item == c[i].item
      && r[i].quantity == (if c[i].item.id == item.id then c[i].quantity + 1 else c[i].quantity)
    ensures Valid(c) ==> Valid(r)
    ensures HasId(r, item.id)
  {
    if HasId(c, item.id) then
      seq(|c|, i requires 0 <= i < |c| =>
        if c[i].item.id == item.id then c[i].(quantity := c[i].quantity + 1) else c[i])
    else
      var r := c + [Line(item, 1)];
      assert r[|c|].item.id == item.id;
      r
  }

  /** `removeFromCart`: every line with the id goes; the rest stay in order. */
  function RemoveFromCart(c: Cart, id: int): (r: Cart)
    ensures !HasId(r, id)
    ensures forall i | 0 <= i < |r| :: r[i] in c
    ensures forall i | 0 <= i < |c| :: c[i].item.id != id ==> c[i] in r
    ensures Valid(c) ==> Valid(r)
  {
    var r := Filter(c, line => NotId(id, line));
    FilterMembers(c, line => NotId(id, line));
    FilterKeepsValid(c, line => NotId(id, line));
    r
  }

  /** `updateQuantity`: zero or less removes the id's lines; otherwise the
      id's lines get exactly that quantity and every other line stays as it was. */
  function UpdateQuantity(c: Cart, id: int, quantity: int): (r: Cart)
    ensures quantity <= 0 ==> r == RemoveFromCart(c, id)
    ensures quantity > 0 ==> |r| == |c|
    ensures quantity > 0 ==> forall i | 0 <= i < |c| ::
      && r[i].item == c[i].item
      && r[i].quantity == (if c[i].item.id == id then quantity else c[i].quantity)
    ensures Valid(c) ==> Valid(r)
  {
    if quantity <= 0 then RemoveFromCart(c, id)
    else
      seq(|c|, i requires 0 <= i < |c| =>
        if c[i].item.id == id then c[i].(quantity := quantity) else c[i])
  }

  /** `clearCart`: the empty cart, whose total and count are 0. */
  function ClearCart(): (r: Cart)
    ensures Valid(r)
    ensures CartTotal(r) == 0.0 && CartCount(r) == 0
  {
    []
  }

  /** A line's amount: unit price times quantity. */
  function LineAmount(line: LineItem): real {
    line.item.price * line.quantity as real
  }

  function Quantity(line: LineItem): int {
    line.quantity
  }

  /** `getCartTotal`: the sum of the line amounts, accumulated left to right
      as `reduce` does. */
  function CartTotal(c: Cart): real {
    Sum(c, LineAmount)
  }

  /** `getCartCount`: the sum of the quantities (not the number of lines). */
  function CartCount(c: Cart): int {
    IntSum(c, Quantity)
  }

  // ---------------------------------------------------------------------
  // Lemmas

  lemma FilterKeepsValid(c: Cart, p: LineItem -> bool)
    ensures Valid(c) ==> Valid(Filter(c, p))
  {
    if Valid(c) {
      FilterKeepsUnique(c, p);
    }
  }

  lemma {:induction false} FilterKeepsUnique(c: Cart, p: LineItem -> bool)
    requires UniqueIds(c)
    ensures UniqueIds(Filter(c, p))
  {
    if |c| > 0 {
      var rest := Filter(c[1..], p);
      FilterKeepsUnique(c[1..], p);
      assert forall j | 0 <= j < |rest| :: rest[j].item.id != c[0].item.id by {
        forall j | 0 <= j < |rest|
          ensures rest[j].item.id != c[0].item.id
        {
          FilterMembers(c[1..], p);
          var k :| 0 <= k < |c[1..]| && c[1..][k] == rest[j];
          assert c[k + 1] == rest[j];
        }
      }
    }
  }

  /** The sums split over a concatenation. */
  lemma SumsOfConcat(a: Cart, b: Cart)
    ensures CartTotal(a + b) == CartTotal(a) + CartTotal(b)
    ensures CartCount(a + b) == CartCount(a) + CartCount(b)
  {
    SumConcat(a, b, LineAmount, Quantity);
  }

  /** Replacing one line changes the sums by that line's difference. */
  lemma SumsOfReplace(c: Cart, k: int, line: LineItem)
    requires 0 <= k < |c|
    ensures CartTotal(c[k := line]) == CartTotal(c) - LineAmount(c[k]) + LineAmount(line)
    ensures CartCount(c[k := line]) == CartCount(c) - c[k].quantity + line.quantity
  {
    SumReplace(c, k, line, LineAmount, Quantity);
  }

  /** Dropping one line lowers the sums by that line's share. */
  lemma SumsOfDrop(c: Cart, k: int)
    requires 0 <= k < |c|
    ensures CartTotal(c[..k] + c[k + 1..]) == CartTotal(c) - LineAmount(c[k])
    ensures CartCount(c[..k] + c[k + 1..]) == CartCount(c) - c[k].quantity
  {
    SumDrop(c, k, LineAmount, Quantity);
  }

  /** With unique ids, the line with a given id is the only one. */
  lemma OnlyMatch(c: Cart, k: int, i: int)
    requires UniqueIds(c) && 0 <= k < |c| && 0 <= i < |c|
    requires c[i].item.id == c[k].item.id
    ensures i == k
  {
  }

  /** Adding an item already in a valid cart touches exactly its line. */
  lemma AddExistingIsReplace(c: Cart, k: int, item: MenuItem)
    requires Valid(c) && 0 <= k < |c| && c[k].item.id == item.id
    ensures AddToCart(c, item) == c[k := c[k].(quantity := c[k].quantity + 1)]
  {
    var r := AddToCart(c, item);
    forall i | 0 <= i < |c|
      ensures r[i] == c[k := c[k].(quantity := c[k].quantity + 1)][i]
    {
      if c[i].item.id == item.id {
        OnlyMatch(c, k, i);
      }
    }
  }

  /** Setting a positive quantity in a valid cart touches exactly the id's line. */
  lemma UpdateExistingIsReplace(c: Cart, k: int, quantity: int)
    requires Valid(c) && 0 <= k < |c| && quantity > 0
    ensures UpdateQuantity(c, c[k].item.id, quantity) == c[k := c[k].(quantity := quantity)]
  {
    var r := UpdateQuantity(c, c[k].item.id, quantity);
    forall i | 0 <= i < |c|
      ensures r[i] == c[k := c[k].(quantity := quantity)][i]
    {
      if c[i].item.id == c[k].item.id {
        OnlyMatch(c, k, i);
      }
    }
  }

  /** Removing an id that a valid cart holds drops exactly its line. */
  lemma RemoveExistingIsDrop(c: Cart, k: int)
    requires Valid(c) && 0 <= k < |c|
    ensures RemoveFromCart(c, c[k].item.id) == c[..k] + c[k + 1..]
  {
    var id := c[k].item.id;
    forall i | 0 <= i < |c| && i != k
      ensures NotId(id, c[i])
    {
      if c[i].item.id == id {
        OnlyMatch(c, k, i);
      }
    }
    FilterDropsOne(c, k, line => NotId(id, line));
  }

  /** Changing a line's quantity changes its amount by the unit price times the difference. */
  lemma AmountOfQuantity(line: LineItem, quantity: int)
    ensures LineAmount(line.(quantity := quantity))
      == LineAmount(line) + line.item.price * (quantity - line.quantity) as real
  {
    var p, a, b := line.item.price, line.quantity as real, quantity as real;
    assert p * b == p * a + p * (b - a);
  }

  /** Adding to a valid cart raises the count by one and the total by the
      unit price of the line that grew (the cart's own line when the id was
      there, the new item's otherwise). */
  lemma AddToCartSums(c: Cart, item: MenuItem)
    requires Valid(c)
    ensures CartCount(AddToCart(c, item)) == CartCount(c) + 1
    ensures !HasId(c, item.id) ==> CartTotal(AddToCart(c, item)) == CartTotal(c) + item.price
    ensures forall k | 0 <= k < |c| && c[k].item.id == item.id ::
      CartTotal(AddToCart(c, item)) == CartTotal(c) + c[k].item.price
  {
    var r := AddToCart(c, item);
    if HasId(c, item.id) {
      var k :| 0 <= k < |c| && c[k].item.id == item.id;
      var grown := c[k].(quantity := c[k].quantity + 1);
      AddExistingIsReplace(c, k, item);
      assert r == c[k := grown];
      SumsOfReplace(c, k, grown);
      AmountOfQuantity(c[k], c[k].quantity + 1);
      assert CartTotal(r) == CartTotal(c) + c[k].item.price;
      forall k' | 0 <= k' < |c| && c[k'].item.id == item.id
        ensures CartTotal(r) == CartTotal(c) + c[k'].item.price
      {
        OnlyMatch(c, k, k');
      }
    } else {
      assert r == c + [Line(item, 1)];
      SumsOfConcat(c, [Line(item, 1)]);
      SumSingle(Line(item, 1), LineAmount, Quantity);
    }
  }

  /** Removing an id held by a valid cart lowers the sums by exactly that line's share. */
  lemma RemoveFromCartSums(c: Cart, k: int)
    requires Valid(c) && 0 <= k < |c|
    ensures CartCount(RemoveFromCart(c, c[k].item.id)) == CartCount(c) - c[k].quantity
    ensures CartTotal(RemoveFromCart(c, c[k].item.id)) == CartTotal(c) - LineAmount(c[k])
  {
    var r := RemoveFromCart(c, c[k].item.id);
    assert CartCount(r) == CartCount(c) - c[k].quantity by {
      RemoveExistingIsDrop(c, k);
      SumsOfDrop(c, k);
    }
    assert CartTotal(r) == CartTotal(c) - LineAmount(c[k]) by {
      RemoveExistingIsDrop(c, k);
      SumsOfDrop(c, k);
    }
  }

  /** Setting a positive quantity on a valid cart's line changes the sums by the difference. */
  lemma UpdateQuantitySums(c: Cart, k: int, quantity: int)
    requires Valid(c) && 0 <= k < |c| && quantity > 0
    ensures CartCount(UpdateQuantity(c, c[k].item.id, quantity)) == CartCount(c) - c[k].quantity + quantity
    ensures CartTotal(UpdateQuantity(c, c[k].item.id, quantity))
      == CartTotal(c) + c[k].item.price * (quantity - c[k].quantity) as real
  {
    var r := UpdateQuantity(c, c[k].item.id, quantity);
    var line := c[k].(quantity := quantity);
    UpdateExistingIsReplace(c, k, quantity);
    assert r == c[k := line];
    SumsOfReplace(c, k, line);
    AmountOfQuantity(c[k], quantity);
  }

  /** Adding the same item twice to a cart without it leaves exactly one line
      for it, with quantity 2, at the end. */
  lemma AddTwiceMerges(c: Cart, item: MenuItem)
    requires Valid(c) && !HasId(c, item.id)
    ensures var r := AddToCart(AddToCart(c, item), item);
      && |r| == |c| + 1
      && r[|c|] == Line(item, 2)
      && forall i | 0 <= i < |c| :: r[i] == c[i]
  {
    var once := AddToCart(c, item);
    assert once[|c|].item.id == item.id;
    AddExistingIsReplace(once, |c|, item);
  }

  /** Removal is idempotent: removing the same id again changes nothing. */
  lemma RemoveIdempotent(c: Cart, id: int)
    ensures RemoveFromCart(RemoveFromCart(c, id), id) == RemoveFromCart(c, id)
  {
    FilterIdempotent(c, line => NotId(id, line));
  }

  /** Removing an absent id is a no-op. */
  lemma RemoveAbsent(c: Cart, id: int)
    requires !HasId(c, id)
    ensures RemoveFromCart(c, id) == c
  {
    FilterAllPass(c, line => NotId(id, line));
  }

  /** Removal keeps relative order: it works piecewise over any split of the cart. */
  lemma RemoveKeepsOrder(a: Cart, b: Cart, id: int)
    ensures RemoveFromCart(a + b, id) == RemoveFromCart(a, id) + RemoveFromCart(b, id)
  {
    FilterConcat(a, b, line => NotId(id, line));
  }

  /** Setting the quantity of an absent id is a no-op. */
  lemma UpdateAbsent(c: Cart, id: int, quantity: int)
    requires !HasId(c, id)
    ensures UpdateQuantity(c, id, quantity) == c
  {
    if quantity <= 0 {
      RemoveAbsent(c, id);
    }
  }

  /** Prices are never negative in a cart filled from the catalogue, and then
      neither is the total. */
  predicate NonNegativePrices(c: Cart) {
    forall i | 0 <= i < |c| :: c[i].item.price >= 0.0
  }

  lemma {:induction false} TotalNonNegative(c: Cart)
    requires NonNegativePrices(c) && PositiveQuantities(c)
    ensures CartTotal(c) >= 0.0
    ensures CartCount(c) >= |c|
  {
    if |c| > 0 {
      TotalNonNegative(c[..|c| - 1]);
    }
  }
}
