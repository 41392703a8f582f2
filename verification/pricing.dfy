/** The money shown on the cart and checkout pages and stored with an order:
    the subtotal is the cart total, tax is 8% of it, and the total adds the two. */
module Pricing {
  import opened CartStore
  import opened MenuTypes

  /** The fixed sales-tax rate, 8%. */
  const TaxRate: real := 0.08

  datatype Summary = Summary(subtotal: real, tax: real, total: real)

  /** The order summary both pages display: subtotal, tax on it, and their sum. */
  function DisplayedSummary(c: Cart): (s: Summary)
    ensures s.subtotal == CartTotal(c)
    ensures s.total == s.subtotal + s.tax
    ensures s.tax * 100.0 == s.subtotal * 8.0
  {
    var subtotal := CartTotal(c);
    var tax := subtotal * TaxRate;
    Summary(subtotal, tax, subtotal + tax)
  }

  /** The amounts written into a placed order: the total is computed directly
      as the subtotal times 1.08 rather than as subtotal plus tax. */
  function StoredAmounts(c: Cart): (s: Summary)
    ensures s.subtotal == CartTotal(c)
    ensures s.tax * 100.0 == s.subtotal * 8.0
    ensures s.total * 100.0 == s.subtotal * 108.0
  {
    Summary(CartTotal(c), CartTotal(c) * 0.08, CartTotal(c) * 1.08)
  }

  /** With exact arithmetic the stored order carries the same three amounts
      the customer was shown. */
  lemma StoredMatchesDisplayed(c: Cart)
    ensures StoredAmounts(c) == DisplayedSummary(c)
  {
    var x := CartTotal(c);
    assert x * 1.08 == x + x * 0.08;
  }

  /** For a cart of catalogue items, tax is never negative and the total is
      at least the subtotal; the empty cart costs nothing. */
  lemma SummaryBounds(c: Cart)
    requires NonNegativePrices(c) && PositiveQuantities(c)
    ensures 0.0 <= DisplayedSummary(c).tax
    ensures DisplayedSummary(c).subtotal <= DisplayedSummary(c).total
    ensures c == [] ==> DisplayedSummary(c) == Summary(0.0, 0.0, 0.0)
  {
    TotalNonNegative(c);
  }

  /** Building a cart of two items at 12.99 and one at 5.00 and pricing it:
      three items, subtotal 30.98, tax 2.4784 and total 33.4584; setting the
      second item to zero then leaves two items. */
  lemma BuildAndPriceScenario(a: MenuItem, b: MenuItem)
    requires a.id == 1 && a.price == 12.99 && b.id == 2 && b.price == 5.00
    ensures var c := AddToCart(AddToCart(AddToCart([], a), a), b);
      && c == [Line(a, 2), Line(b, 1)]
      && CartCount(c) == 3
      && DisplayedSummary(c) == Summary(30.98, 2.4784, 33.4584)
      && CartCount(UpdateQuantity(c, 2, 0)) == 2
  {
    var one := AddToCart([], a);
    assert one == [Line(a, 1)];
    var two := AddToCart(one, a);
    assert HasId(one, a.id);
    assert two == [Line(a, 2)];
    var c := AddToCart(two, b);
    assert !HasId(two, b.id);
    assert c == [Line(a, 2), Line(b, 1)];
    SumsOfConcat([Line(a, 2)], [Line(b, 1)]);
    assert CartTotal([Line(a, 2)]) == 25.98 by {
      assert [Line(a, 2)][..0] == [];
    }
    assert CartTotal([Line(b, 1)]) == 5.00 by {
      assert [Line(b, 1)][..0] == [];
    }
    assert CartCount(c) == 3;
    RemoveExistingIsDrop(c, 1);
    assert c[..1] + c[2..] == [Line(a, 2)];
  }
}
