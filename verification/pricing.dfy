/** The order pricing rule the checkout page applies to the cart total
    (`client/src/pages/Checkout.jsx`), and the same rule as the cart page
    writes it out in its order summary (`client/src/pages/Cart.jsx`). */
module Pricing {
  import opened Common
  import opened Carts

  /** Orders with an items price strictly above this ship free. */
  const FreeShippingAbove: real := 100.0
  const FlatShipping: real := 10.0
  const TaxRate: real := 0.1

  datatype Quote = Quote(itemsPrice: real, shippingPrice: real, taxPrice: real, totalPrice: real)

  function ShippingPrice(itemsPrice: real): (s: real)
    ensures s == 0.0 <==> itemsPrice > FreeShippingAbove
    ensures s != 0.0 ==> s == FlatShipping
  {
    if itemsPrice > FreeShippingAbove then 0.0 else FlatShipping
  }

  /** Checkout.jsx:41-44. */
  function CheckoutQuote(itemsPrice: real): (q: Quote)
    ensures q.itemsPrice == itemsPrice
    ensures q.shippingPrice == ShippingPrice(itemsPrice)
    ensures q.taxPrice * 10.0 == itemsPrice
    ensures q.totalPrice == q.itemsPrice + q.shippingPrice + q.taxPrice
    ensures itemsPrice >= 0.0 ==> q.totalPrice >= itemsPrice
  {
    var shipping := ShippingPrice(itemsPrice);
    var tax := itemsPrice * TaxRate;
    Quote(itemsPrice, shipping, tax, itemsPrice + shipping + tax)
  }

  /** The checkout quote of a cart: its items price is the cart's total,
      which for a cart whose totals match its lines is the sum of price
      times quantity over the lines. */
  function QuoteForCart(c: Cart): (q: Quote)
    ensures TotalsMatch(c) ==> q.itemsPrice == Subtotal(c.items)
    ensures q == CheckoutQuote(c.totalPrice)
  {
    CheckoutQuote(c.totalPrice)
  }

  /** The order summary on the cart page, written out there term by term:
      shipping, tax and total from `cart.totalPrice`. */
  function CartPageSummary(c: Cart): Quote {
    var t := c.totalPrice;
    Quote(t, if t > 100.0 then 0.0 else 10.0, t * 0.1,
          t + (if t > 100.0 then 0.0 else 10.0) + t * 0.1)
  }

  /** The cart page and the checkout page show the same figures. */
  lemma CartPageMatchesCheckout(c: Cart)
    ensures CartPageSummary(c) == QuoteForCart(c)
  {
  }

  /** Lines 20 x 2 and 15 x 1: items 55, shipping 10, tax 5.5, total 70.5. */
  lemma WorkedExample(user: UserId)
    ensures var items := [Line("a", 2, 20.0), Line("b", 1, 15.0)];
            QuoteForCart(CalculateTotals(Cart(user, items, 0, 0.0)))
              == Quote(55.0, 10.0, 5.5, 70.5)
  {
    var items := [Line("a", 2, 20.0), Line("b", 1, 15.0)];
    assert Subtotal(items[1..][1..]) == 0.0;
    assert Subtotal(items) == 55.0;
  }

  /** An items price of exactly 100 still pays shipping; just above it does
      not, so crossing the threshold lowers the total. */
  lemma ShippingThreshold()
    ensures CheckoutQuote(100.0).shippingPrice == FlatShipping
    ensures CheckoutQuote(100.01).shippingPrice == 0.0
    ensures CheckoutQuote(100.01).totalPrice < CheckoutQuote(100.0).totalPrice
  {
  }
}
