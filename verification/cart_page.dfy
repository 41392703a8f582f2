/** The cart page (`src/pages/Cart.jsx`): the quantity buttons of each line
    and where the checkout button leads. */
module CartPage {
  import opened CartStore

  /** `handleQuantityChange`: a quantity of zero or less removes the line,
      anything else sets it. */
  function HandleQuantityChange(c: Cart, id: int, quantity: int): (r: Cart)
    ensures quantity <= 0 ==> !HasId(r, id)
    ensures quantity > 0 ==> |r| == |c|
    ensures Valid(c) ==> Valid(r)
  {
    if quantity <= 0 then RemoveFromCart(c, id) else UpdateQuantity(c, id, quantity)
  }

  /** The page's own zero check is redundant: the store's `updateQuantity`
      already removes a line set to zero or less. */
  lemma HandleQuantityChangeIsUpdate(c: Cart, id: int, quantity: int)
    ensures HandleQuantityChange(c, id, quantity) == UpdateQuantity(c, id, quantity)
  {
  }

  /** The minus button of line `k`: asks for one less. On a valid cart it
      removes the line when it held one item and otherwise lowers its
      quantity, and the item count drops by one either way. */
  function PressMinus(c: Cart, k: int): (r: Cart)
    requires 0 <= k < |c|
    ensures Valid(c) && c[k].quantity == 1 ==> r == c[..k] + c[k + 1..]
    ensures Valid(c) && c[k].quantity > 1 ==> r == c[k := c[k].(quantity := c[k].quantity - 1)]
    ensures Valid(c) ==> Valid(r) && CartCount(r) == CartCount(c) - 1
  {
    var r := HandleQuantityChange(c, c[k].item.id, c[k].quantity - 1);
    MinusFacts(c, k);
    r
  }

  /** The plus button of line `k`: asks for one more, which on a valid cart
      raises exactly that line, the count by one and the total by its price. */
  function PressPlus(c: Cart, k: int): (r: Cart)
    requires 0 <= k < |c|
    ensures Valid(c) ==> r == c[k := c[k].(quantity := c[k].quantity + 1)]
    ensures Valid(c) ==> Valid(r) && CartCount(r) == CartCount(c) + 1
    ensures Valid(c) ==> CartTotal(r) == CartTotal(c) + c[k].item.price
  {
    var r := HandleQuantityChange(c, c[k].item.id, c[k].quantity + 1);
    PlusFacts(c, k);
    r
  }

  lemma MinusFacts(c: Cart, k: int)
    requires 0 <= k < |c|
    ensures var r := HandleQuantityChange(c, c[k].item.id, c[k].quantity - 1);
      && (Valid(c) && c[k].quantity == 1 ==> r == c[..k] + c[k + 1..])
      && (Valid(c) && c[k].quantity > 1 ==> r == c[k := c[k].(quantity := c[k].quantity - 1)])
      && (Valid(c) ==> CartCount(r) == CartCount(c) - 1)
  {
    if Valid(c) {
      if c[k].quantity == 1 {
        RemoveExistingIsDrop(c, k);
        RemoveFromCartSums(c, k);
      } else {
        UpdateExistingIsReplace(c, k, c[k].quantity - 1);
        UpdateQuantitySums(c, k, c[k].quantity - 1);
      }
    }
  }

  lemma PlusFacts(c: Cart, k: int)
    requires 0 <= k < |c|
    ensures var r := HandleQuantityChange(c, c[k].item.id, c[k].quantity + 1);
      && (Valid(c) ==> r == c[k := c[k].(quantity := c[k].quantity + 1)])
      && (Valid(c) ==> CartCount(r) == CartCount(c) + 1)
      && (Valid(c) ==> CartTotal(r) == CartTotal(c) + c[k].item.price)
  {
    if Valid(c) {
      UpdateExistingIsReplace(c, k, c[k].quantity + 1);
      UpdateQuantitySums(c, k, c[k].quantity + 1);
      AmountOfQuantity(c[k], c[k].quantity + 1);
    }
  }

  /** Plus then minus on the same line gives back the cart it started from. */
  lemma PlusThenMinusRestores(c: Cart, k: int)
    requires Valid(c) && 0 <= k < |c|
    ensures PressMinus(PressPlus(c, k), k) == c
  {
    var up := PressPlus(c, k);
    assert up[k].quantity > 1;
    assert PressMinus(up, k) == up[k := up[k].(quantity := up[k].quantity - 1)];
  }

  /** Where the checkout button sends a visitor: to log in first (coming back
      to checkout afterwards) unless already signed in. */
  const LoginThenCheckout: string := "/login?redirect=/checkout"

  function CheckoutTarget(authenticated: bool): (r: string)
    ensures authenticated <==> r == "/checkout"
    ensures !authenticated <==> r == LoginThenCheckout
  {
    if authenticated then "/checkout" else LoginThenCheckout
  }
}
