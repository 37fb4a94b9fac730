/** The cart view's pricing, its checkout gate and its quantity stepper
    (src/components/CartModal.jsx). */
module CartModal {
  import opened Seqs
  import opened JsValues
  import CartStore

  /** `getCartRate`: the cart-level rate by total quantity. */
  function CartRate(totalQty: real): (r: real)
    ensures r == 0.0 || r == 0.05 || r == 0.10
  {
    if totalQty > 15.0 then 0.10
    else if totalQty > 10.0 then 0.05
    else 0.0
  }

  /** `getPerDishRate`: the per-dish rate by a line's quantity. */
  function PerDishRate(qty: real): (r: real)
    ensures r == 0.0 || r == 0.15 || r == 0.25
  {
    if qty > 20.0 then 0.25
    else if qty > 12.0 then 0.15
    else 0.0
  }

  /** The tiers sit exactly on their strict thresholds. */
  lemma RateThresholds()
    ensures CartRate(10.0) == 0.0 && CartRate(11.0) == 0.05 && CartRate(15.0) == 0.05 && CartRate(16.0) == 0.10
    ensures PerDishRate(12.0) == 0.0 && PerDishRate(13.0) == 0.15 && PerDishRate(20.0) == 0.15 && PerDishRate(21.0) == 0.25
  {
  }

  /** Buying more never lowers a rate. */
  lemma RatesMonotone(a: real, b: real)
    requires a <= b
    ensures CartRate(a) <= CartRate(b)
    ensures PerDishRate(a) <= PerDishRate(b)
  {
  }

  /** A line's rate is positive exactly when its quantity is above 12. */
  lemma PerDishRatePositiveIff(qty: real)
    ensures PerDishRate(qty) > 0.0 <==> qty > 12.0
  {
  }

  /** What the view prices: a line's quantity and price before `Number(x) || 0`. */
  datatype PriceInput = PriceInput(productId: string, qty: JsNum, price: JsNum)

  function FromCartLine(l: CartStore.CartLine): PriceInput {
    PriceInput(l.productId, Finite(l.qty), Finite(l.price))
  }

  datatype PricedLine = PricedLine(
    productId: string, qty: real, price: real, rawLineTotal: real,
    perDishRate: real, perDishDiscount: real, afterPerDishTotal: real,
    requiresHeadUp: bool)

  /** One line of the view, with non-numeric quantity or price read as 0. */
  function PriceLine(l: PriceInput): (r: PricedLine)
    ensures r.productId == l.productId
    ensures r.qty == OrZero(l.qty) && r.price == OrZero(l.price)
    ensures r.rawLineTotal == r.qty * r.price
    ensures r.perDishDiscount + r.afterPerDishTotal == r.rawLineTotal
    ensures r.requiresHeadUp <==> r.perDishRate > 0.0
  {
    var qty := OrZero(l.qty);
    var price := OrZero(l.price);
    var raw := qty * price;
    var rate := PerDishRate(qty);
    var discount := raw * rate;
    PricedLine(l.productId, qty, price, raw, rate, discount, raw - discount, qty > 12.0)
  }

  datatype Pricing = Pricing(
    lines: seq<PricedLine>, totalQty: real, rawSubtotal: real,
    perDishDiscountTotal: real, cartRate: real, cartDiscountTotal: real,
    discountTotal: real, finalSubtotal: real, needsHeadUpConfirm: bool)

  /** The cart view's `pricing`: per-dish discounts first, then the cart
      rate on what remains. */
  function ComputePricing(input: seq<PriceInput>): (r: Pricing)
    ensures |r.lines| == |input|
    ensures r.cartRate == CartRate(r.totalQty)
    ensures r.finalSubtotal == r.rawSubtotal - r.perDishDiscountTotal - r.cartDiscountTotal
  {
    var lines := Map(input, PriceLine);
    var totalQty := SumBy(lines, (l: PricedLine) => l.qty);
    var rawSubtotal := SumBy(lines, (l: PricedLine) => l.rawLineTotal);
    var perDish := SumBy(lines, (l: PricedLine) => l.perDishDiscount);
    var afterPerDish := rawSubtotal - perDish;
    var cartRate := CartRate(totalQty);
    var cartDiscount := afterPerDish * cartRate;
    var discountTotal := perDish + cartDiscount;
    Pricing(lines, totalQty, rawSubtotal, perDish, cartRate, cartDiscount,
            discountTotal, rawSubtotal - discountTotal, Any(lines, (l: PricedLine) => l.requiresHeadUp))
  }

  /** The cart discount is taken on the subtotal after per-dish discounts, so
      the final subtotal is that subtotal scaled by one minus the cart rate. */
  lemma FinalSubtotalFactored(input: seq<PriceInput>)
    ensures var r := ComputePricing(input);
      r.cartDiscountTotal == (r.rawSubtotal - r.perDishDiscountTotal) * r.cartRate &&
      r.finalSubtotal == (r.rawSubtotal - r.perDishDiscountTotal) * (1.0 - r.cartRate)
  {
  }

  predicate NonNegativeInput(input: seq<PriceInput>) {
    forall i :: 0 <= i < |input| ==> OrZero(input[i].qty) >= 0.0 && OrZero(input[i].price) >= 0.0
  }

  /** With non-negative quantities and prices the discounts never exceed the
      subtotal: 0 <= final subtotal <= raw subtotal. */
  lemma FinalSubtotalBounds(input: seq<PriceInput>)
    requires NonNegativeInput(input)
    ensures var r := ComputePricing(input);
      0.0 <= r.perDishDiscountTotal <= r.rawSubtotal && 0.0 <= r.finalSubtotal <= r.rawSubtotal
  {
    var lines := Map(input, PriceLine);
    forall i | 0 <= i < |lines|
      ensures 0.0 <= lines[i].perDishDiscount <= lines[i].rawLineTotal
    {
      LineDiscountBounds(input[i]);
    }
    SumByNonNegative(lines, (l: PricedLine) => l.perDishDiscount);
    SumByMonotone(lines, (l: PricedLine) => l.perDishDiscount, (l: PricedLine) => l.rawLineTotal);
    var r := ComputePricing(input);
    var rest := r.rawSubtotal - r.perDishDiscountTotal;
    assert r.finalSubtotal == rest * (1.0 - r.cartRate);
    assert 0.0 <= rest * (1.0 - r.cartRate) <= rest;
  }

  lemma LineDiscountBounds(l: PriceInput)
    requires OrZero(l.qty) >= 0.0 && OrZero(l.price) >= 0.0
    ensures 0.0 <= PriceLine(l).perDishDiscount <= PriceLine(l).rawLineTotal
  {
    var q := OrZero(l.qty);
    var p := OrZero(l.price);
    assert q * p >= 0.0;
  }

  /** The head-up is needed exactly when some line has more than 12 units,
      which is exactly when some line gets a per-dish discount rate. */
  lemma HeadUpIff(input: seq<PriceInput>)
    ensures ComputePricing(input).needsHeadUpConfirm <==>
      exists i :: 0 <= i < |input| && OrZero(input[i].qty) > 12.0
    ensures ComputePricing(input).needsHeadUpConfirm <==>
      exists i :: 0 <= i < |input| && ComputePricing(input).lines[i].perDishRate > 0.0
  {
    var lines := ComputePricing(input).lines;
    assert forall i :: 0 <= i < |input| ==> lines[i] == PriceLine(input[i]);
  }

  /** A line whose quantity or price is not a number contributes nothing. */
  lemma NaNLineIsFree(l: PriceInput)
    requires l.qty.NaN? || l.price.NaN?
    ensures PriceLine(l).rawLineTotal == 0.0 && PriceLine(l).perDishDiscount == 0.0
    ensures !PriceLine(l).requiresHeadUp || l.qty.Finite?
  {
  }

  /** One line of price 100 and quantity 21: per-dish 525, cart 157.5, final 1417.5. */
  lemma SingleBulkLineExample()
    ensures var r := ComputePricing([PriceInput("p", Finite(21.0), Finite(100.0))]);
      r.rawSubtotal == 2100.0 && r.perDishDiscountTotal == 525.0 && r.cartRate == 0.10 &&
      r.cartDiscountTotal == 157.5 && r.finalSubtotal == 1417.5 && r.needsHeadUpConfirm
  {
    var input := [PriceInput("p", Finite(21.0), Finite(100.0))];
    var lines := Map(input, PriceLine);
    assert lines == [PriceLine(input[0])];
    var l := lines[0];
    assert l.qty == 21.0 && l.rawLineTotal == 2100.0 && l.perDishDiscount == 525.0;
    assert SumBy(lines, (l: PricedLine) => l.qty) == 21.0;
    assert SumBy(lines, (l: PricedLine) => l.rawLineTotal) == 2100.0;
    assert SumBy(lines, (l: PricedLine) => l.perDishDiscount) == 525.0;
    assert lines[0].requiresHeadUp;
  }

  // ---------------------------------------------------------------------
  // The checkout button and the stepper

  /** `checkoutDisabled`. */
  predicate CheckoutDisabled(lineCount: nat, shopOpen: bool, pricing: Pricing, confirmed: bool) {
    lineCount == 0 || !shopOpen || (pricing.needsHeadUpConfirm && !confirmed)
  }

  /** With a non-empty cart and an open shop, a bulk cart can check out
      only after the head-up has been confirmed. */
  lemma BulkNeedsConfirm(lineCount: nat, shopOpen: bool, input: seq<PriceInput>, confirmed: bool)
    requires lineCount > 0 && shopOpen
    requires exists i :: 0 <= i < |input| && OrZero(input[i].qty) > 12.0
    ensures CheckoutDisabled(lineCount, shopOpen, ComputePricing(input), confirmed) <==> !confirmed
  {
    HeadUpIff(input);
  }

  /** Checkout is disabled exactly for an empty cart, a closed shop, or a
      line of more than 12 whose head-up is not confirmed. */
  lemma CheckoutDisabledIff(lineCount: nat, shopOpen: bool, input: seq<PriceInput>, confirmed: bool)
    ensures CheckoutDisabled(lineCount, shopOpen, ComputePricing(input), confirmed) <==>
      lineCount == 0 || !shopOpen ||
      (!confirmed && exists i :: 0 <= i < |input| && OrZero(input[i].qty) > 12.0)
  {
    HeadUpIff(input);
  }

  /** `Math.max(1, nextQty)`: what the stepper asks the cart to store. */
  function SafeUpdateQty(nextQty: real): (r: real)
    ensures r >= 1.0
    ensures nextQty >= 1.0 ==> r == nextQty
    ensures nextQty < 1.0 ==> r == 1.0
  {
    if nextQty > 1.0 then nextQty else 1.0
  }

  /** "−" is disabled at one unit or fewer. */
  predicate AtMin(qty: real) {
    qty <= 1.0
  }

  /** When "−" is enabled it asks for less than the current quantity but
      never for less than one; from two units up it lowers by exactly one,
      and below two it asks for exactly one. */
  lemma DecrementStaysPositive(qty: real)
    requires !AtMin(qty)
    ensures 1.0 <= SafeUpdateQty(qty - 1.0) < qty
    ensures qty >= 2.0 ==> SafeUpdateQty(qty - 1.0) == qty - 1.0
    ensures qty < 2.0 ==> SafeUpdateQty(qty - 1.0) == 1.0
  {
  }

  /** The view's confirmation flag, which the effect on `open` clears each
      time the modal goes from closed to open. */
  class CartView {
    var open: bool
    var confirmOneDayAhead: bool

    constructor()
      ensures !open && !confirmOneDayAhead
    {
      open := false;
      confirmOneDayAhead := false;
    }

    method SetOpen(o: bool)
      modifies this
      ensures open == o
      ensures o && !old(open) ==> !confirmOneDayAhead
      ensures !(o && !old(open)) ==> confirmOneDayAhead == old(confirmOneDayAhead)
    {
      if o && !open {
        confirmOneDayAhead := false;
      }
      open := o;
    }

    method SetConfirm(c: bool)
      modifies this
      ensures confirmOneDayAhead == c && open == old(open)
    {
      confirmOneDayAhead := c;
    }
  }
}
