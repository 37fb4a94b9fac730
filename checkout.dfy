/** The checkout dialog (src/components/CheckoutModal.jsx): contact-field
    syntax, the checkout's own pricing and total, the gate on the Place
    button, the two-step Place and Done flow and the order payload. */
module Checkout {
  import opened Wrappers
  import opened Seqs
  import opened Text
  import opened JsValues
  import opened Schedule
  import opened Delivery
  import opened CartStore
  import CartModal

  // ---------------------------------------------------------------------
  // Contact fields

  predicate NoAtOrSpace(s: string) {
    forall i :: 0 <= i < |s| ==> s[i] != '@' && !IsSpace(s[i])
  }

  /** `[^@\s]+@[^@\s]+\.[^@\s]+` split at its `@`. */
  predicate EmailParts(local: string, domain: string) {
    local != [] && NoAtOrSpace(local) && NoAtOrSpace(domain) &&
    exists k :: 1 <= k < |domain| - 1 && domain[k] == '.'
  }

  /** `isValidEmail`: a non-empty address matching `/^[^@\s]+@[^@\s]+\.[^@\s]+$/`. */
  predicate IsValidEmail(email: string) {
    email != "" && exists i :: 0 <= i < |email| && email[i] == '@' && EmailParts(email[..i], email[i + 1..])
  }

  /** A valid address has exactly one `@`, with non-empty text on both sides. */
  lemma EmailSingleAt(email: string, i: nat, j: nat)
    requires IsValidEmail(email)
    requires i < |email| && email[i] == '@' && j < |email| && email[j] == '@'
    ensures i == j && 0 < i < |email| - 3
  {
    var k :| 0 <= k < |email| && email[k] == '@' && EmailParts(email[..k], email[k + 1..]);
  }

  lemma EmailExamples()
    ensures IsValidEmail("a@b.co")
    ensures !IsValidEmail("a@b")
    ensures !IsValidEmail("a@.b")
    ensures !IsValidEmail("a b@c.d")
  {
    var e := "a@b.co";
    assert e[..1] == "a" && e[2..] == "b.co" && e[2..][1] == '.';
    assert EmailParts(e[..1], e[2..]);
    var f := "a@b";
    forall i | 0 <= i < |f| && f[i] == '@' ensures !EmailParts(f[..i], f[i + 1..]) {
      assert i == 1 && |f[i + 1..]| == 1;
    }
    var g := "a@.b";
    forall i | 0 <= i < |g| && g[i] == '@' ensures !EmailParts(g[..i], g[i + 1..]) {
      assert i == 1 && g[i + 1..] == ".b";
    }
    var h := "a b@c.d";
    forall i | 0 <= i < |h| && h[i] == '@' ensures !EmailParts(h[..i], h[i + 1..]) {
      assert i == 3 && h[..i][1] == ' ';
    }
  }

  predicate DigitRun(s: string) {
    8 <= |s| <= 15 && AllDigits(s)
  }

  /** `isValidPhone`: an optional `+` and then 8 to 15 digits. */
  predicate IsValidPhone(phone: string) {
    phone != "" && (DigitRun(phone) || (phone[0] == '+' && DigitRun(phone[1..])))
  }

  /** A valid number is 8 to 16 characters, all digits except a leading `+`. */
  lemma PhoneShape(phone: string)
    requires IsValidPhone(phone)
    ensures 8 <= |phone| <= 16
    ensures forall i :: 0 < i < |phone| ==> IsDigit(phone[i])
    ensures phone[0] == '+' || IsDigit(phone[0])
  {
    if !DigitRun(phone) {
      assert forall i :: 0 < i < |phone| ==> phone[i] == phone[1..][i - 1];
    }
  }

  lemma PhoneExamples()
    ensures IsValidPhone("0812345678") && IsValidPhone("+66812345678")
    ensures !IsValidPhone("1234567") && !IsValidPhone("++66812345678") && !IsValidPhone("081-234-5678")
  {
    var a := "+66812345678";
    assert a[1..] == "66812345678";
    var b := "++66812345678";
    assert !IsDigit(b[1..][0]);
    var c := "081-234-5678";
    assert !IsDigit(c[3]) && c[1..][2] == c[3];
  }

  // ---------------------------------------------------------------------
  // The checkout's pricing

  /** A line with its per-dish discount as the checkout computes it. */
  datatype DiscountedItem = DiscountedItem(line: CartLine, discountRate: real, discountAmount: real, finalPrice: real)

  datatype CheckoutPricing = CheckoutPricing(
    rawSubtotal: real, totalQty: real, cartDiscount: real,
    dishDiscount: real, discountTotal: real, items: seq<DiscountedItem>)

  function DiscountItem(l: CartLine): (r: DiscountedItem)
    ensures r.line == l && r.discountAmount + r.finalPrice == l.price * l.qty
  {
    var rate := CartModal.PerDishRate(l.qty);
    var discount := l.price * l.qty * rate;
    DiscountedItem(l, rate * 100.0, discount, l.price * l.qty - discount)
  }

  function LineAmountOf(l: CartLine): real {
    l.price * l.qty
  }

  function RawSubtotal(lines: seq<CartLine>): real {
    SumBy(lines, LineAmountOf)
  }

  function TotalQty(lines: seq<CartLine>): real {
    SumBy(lines, (l: CartLine) => l.qty)
  }

  /** The checkout's `pricing`: the cart rate is taken on the raw subtotal,
      next to the per-dish discounts. */
  function ComputeCheckoutPricing(lines: seq<CartLine>): (r: CheckoutPricing)
    ensures |r.items| == |lines|
    ensures r.discountTotal == r.cartDiscount + r.dishDiscount
  {
    var raw := RawSubtotal(lines);
    var totalQty := TotalQty(lines);
    var cartDiscount := raw * CartModal.CartRate(totalQty);
    var items := Map(lines, DiscountItem);
    var dish := SumBy(items, (i: DiscountedItem) => i.discountAmount);
    CheckoutPricing(raw, totalQty, cartDiscount, dish, cartDiscount + dish, items)
  }

  /** `rawSubtotal - discountTotal + (deliveryFee || 0)`. */
  function Total(p: CheckoutPricing, fee: Option<real>): real {
    p.rawSubtotal - p.discountTotal + fee.GetOr(0.0)
  }

  /** `cartLines.some((l) => l.qty > 12)`. */
  predicate IsBulkOrder(lines: seq<CartLine>) {
    exists i :: 0 <= i < |lines| && lines[i].qty > 12.0
  }

  function ViewPricing(lines: seq<CartLine>): CartModal.Pricing {
    CartModal.ComputePricing(Map(lines, CartModal.FromCartLine))
  }

  function PerDishDiscountOf(l: CartLine): real {
    l.price * l.qty * CartModal.PerDishRate(l.qty)
  }

  /** The cart view, fed the same lines, sums the same quantities, subtotal
      and per-dish discounts as the checkout. */
  lemma ViewSumsAgree(lines: seq<CartLine>)
    ensures ViewPricing(lines).totalQty == TotalQty(lines)
    ensures ViewPricing(lines).rawSubtotal == RawSubtotal(lines)
    ensures ViewPricing(lines).perDishDiscountTotal == SumBy(lines, PerDishDiscountOf)
  {
    ViewQty(lines);
    ViewRaw(lines);
    ViewPerDish(lines);
  }

  lemma ViewQty(lines: seq<CartLine>)
    ensures ViewPricing(lines).totalQty == TotalQty(lines)
  {
    var inputs := Map(lines, CartModal.FromCartLine);
    SumByMap(inputs, CartModal.PriceLine, (l: CartModal.PricedLine) => l.qty,
             (x: CartModal.PriceInput) => CartModal.PriceLine(x).qty);
    SumByMap(lines, CartModal.FromCartLine, (x: CartModal.PriceInput) => CartModal.PriceLine(x).qty,
             (l: CartLine) => l.qty);
  }

  lemma ViewRaw(lines: seq<CartLine>)
    ensures ViewPricing(lines).rawSubtotal == RawSubtotal(lines)
  {
    var inputs := Map(lines, CartModal.FromCartLine);
    var f := (l: CartModal.PricedLine) => l.rawLineTotal;
    var g := (x: CartModal.PriceInput) => CartModal.PriceLine(x).rawLineTotal;
    assert ViewPricing(lines).rawSubtotal == SumBy(Map(inputs, CartModal.PriceLine), f);
    SumByMap(inputs, CartModal.PriceLine, f, g);
    forall i | 0 <= i < |lines|
      ensures LineAmountOf(lines[i]) == g(CartModal.FromCartLine(lines[i]))
    {
      ViewLineRaw(lines[i]);
    }
    SumByMap(lines, CartModal.FromCartLine, g, LineAmountOf);
  }

  /** The cart view prices a checkout line at its price times quantity. */
  lemma ViewLineRaw(l: CartLine)
    ensures CartModal.PriceLine(CartModal.FromCartLine(l)).rawLineTotal == LineAmountOf(l)
  {
    var r := CartModal.PriceLine(CartModal.FromCartLine(l));
    assert r.qty == l.qty && r.price == l.price;
  }

  lemma ViewPerDish(lines: seq<CartLine>)
    ensures ViewPricing(lines).perDishDiscountTotal == SumBy(lines, PerDishDiscountOf)
  {
    var inputs := Map(lines, CartModal.FromCartLine);
    var f := (l: CartModal.PricedLine) => l.perDishDiscount;
    var g := (x: CartModal.PriceInput) => CartModal.PriceLine(x).perDishDiscount;
    assert ViewPricing(lines).perDishDiscountTotal == SumBy(Map(inputs, CartModal.PriceLine), f);
    SumByMap(inputs, CartModal.PriceLine, f, g);
    forall i | 0 <= i < |lines|
      ensures PerDishDiscountOf(lines[i]) == g(CartModal.FromCartLine(lines[i]))
    {
      ViewLineDiscount(lines[i]);
    }
    SumByMap(lines, CartModal.FromCartLine, g, PerDishDiscountOf);
  }

  /** The cart view's per-dish discount of a checkout line is the checkout's. */
  lemma ViewLineDiscount(l: CartLine)
    ensures CartModal.PriceLine(CartModal.FromCartLine(l)).perDishDiscount == PerDishDiscountOf(l)
  {
    var r := CartModal.PriceLine(CartModal.FromCartLine(l));
    assert r.qty == l.qty && r.price == l.price;
    assert r.perDishDiscount == r.qty * r.price * CartModal.PerDishRate(r.qty);
  }

  lemma DishDiscountSum(lines: seq<CartLine>)
    ensures ComputeCheckoutPricing(lines).dishDiscount == SumBy(lines, PerDishDiscountOf)
  {
    SumByMap(lines, DiscountItem, (i: DiscountedItem) => i.discountAmount, PerDishDiscountOf);
  }

  /** The two copies of the pricing disagree by the cart rate applied to the
      per-dish discounts: the checkout's subtotal after discounts is the
      cart view's final subtotal minus per-dish discount times cart rate. */
  lemma PricingDivergence(lines: seq<CartLine>)
    ensures var view := ViewPricing(lines);
      var chk := ComputeCheckoutPricing(lines);
      view.rawSubtotal == chk.rawSubtotal && view.totalQty == chk.totalQty &&
      view.perDishDiscountTotal == chk.dishDiscount && view.cartRate == CartModal.CartRate(chk.totalQty) &&
      chk.rawSubtotal - chk.discountTotal == view.finalSubtotal - view.perDishDiscountTotal * view.cartRate
  {
    ViewSumsAgree(lines);
    DishDiscountSum(lines);
    CartModal.FinalSubtotalFactored(Map(lines, CartModal.FromCartLine));
  }

  /** One line of price 100 and quantity 21: the checkout charges 1365 before
      the fee where the cart view shows 1417.5. */
  lemma DivergenceExample()
    ensures var lines := [CartLine("p", "Dish", 100.0, "", 21.0, 2100.0)];
      ComputeCheckoutPricing(lines).rawSubtotal - ComputeCheckoutPricing(lines).discountTotal == 1365.0 &&
      ViewPricing(lines).finalSubtotal == 1417.5
  {
    var lines := [CartLine("p", "Dish", 100.0, "", 21.0, 2100.0)];
    PricingDivergence(lines);
    ViewSumsAgree(lines);
    assert TotalQty(lines) == 21.0;
    assert RawSubtotal(lines) == 2100.0;
    assert SumBy(lines, PerDishDiscountOf) == 525.0;
    CartModal.FinalSubtotalFactored(Map(lines, CartModal.FromCartLine));
  }

  // ---------------------------------------------------------------------
  // The Place gate and the payload

  /** The guest's entries. `address` and `orderNote` start out absent. */
  datatype Guest = Guest(
    customerName: string, customerPhone: string, customerEmail: string,
    address: Option<string>, orderNote: Option<string>)

  /** The dialog's own fields besides the guest. */
  datatype ScheduleForm = ScheduleForm(showSchedule: bool, scheduleDate: string, scheduleTime: string)

  predicate Filled(o: Option<string>) {
    o.Some? && o.value != ""
  }

  predicate ContactValid(g: Guest) {
    g.customerName != "" && g.customerPhone != "" && IsValidPhone(g.customerPhone) &&
    g.customerEmail != "" && IsValidEmail(g.customerEmail) && Filled(g.address)
  }

  function Fee(g: Guest, zones: seq<Zone>): Option<real> {
    CalcDeliveryFee(g.address, zones)
  }

  /** `placeDisabled`, term by term as the dialog writes it. */
  predicate PlaceDisabled(g: Guest, f: ScheduleForm, lines: seq<CartLine>, zones: seq<Zone>, now: LocalNow) {
    var bulk := IsBulkOrder(lines);
    g.customerName == "" || g.customerPhone == "" || !IsValidPhone(g.customerPhone) ||
    g.customerEmail == "" || !IsValidEmail(g.customerEmail) || !Filled(g.address) ||
    Fee(g, zones).None? || (bulk && !f.showSchedule) ||
    (f.showSchedule && !IsScheduleValid(f.showSchedule, bulk, f.scheduleDate, f.scheduleTime, now))
  }

  /** Placing is blocked exactly when a contact field is missing or invalid,
      the address has no delivery zone, or the schedule rule fails. */
  lemma PlaceDisabledIff(g: Guest, f: ScheduleForm, lines: seq<CartLine>, zones: seq<Zone>, now: LocalNow)
    ensures PlaceDisabled(g, f, lines, zones, now) <==>
      !ContactValid(g) || Fee(g, zones).None? ||
      !IsScheduleValid(f.showSchedule, IsBulkOrder(lines), f.scheduleDate, f.scheduleTime, now)
  {
  }

  /** A bulk cart with the schedule hidden can never be placed. */
  lemma BulkNeedsSchedule(g: Guest, f: ScheduleForm, lines: seq<CartLine>, zones: seq<Zone>, now: LocalNow, i: nat)
    requires i < |lines| && lines[i].qty > 12.0 && !f.showSchedule
    ensures PlaceDisabled(g, f, lines, zones, now)
  {
  }

  /** The local date and hour the order is scheduled for. Turning them into
      a UTC timestamp depends on the time zone and is not modelled. */
  datatype ScheduledSlot = ScheduledSlot(date: string, time: string)

  datatype PayloadItem = PayloadItem(productId: string, productName: string, qty: real, unitPrice: real)

  datatype OrderPayload = OrderPayload(
    customerName: string, customerPhone: string, customerEmail: string,
    deliveryAddress: string, orderNote: string,
    scheduledDateTime: Option<ScheduledSlot>, items: seq<PayloadItem>,
    subtotal: real, bulkDiscount: real, deliveryFee: Option<real>, totalAmount: real,
    paymentStatus: string, status: string)

  function ItemOf(l: CartLine): PayloadItem {
    PayloadItem(l.productId, l.name, l.qty, l.price)
  }

  /** `handlePlaceOrder`: nothing while placing is blocked, otherwise the
      payload handed to the storefront. */
  function BuildPayload(g: Guest, f: ScheduleForm, lines: seq<CartLine>, zones: seq<Zone>, now: LocalNow): Option<OrderPayload> {
    if PlaceDisabled(g, f, lines, zones, now) then None
    else
      var pricing := ComputeCheckoutPricing(lines);
      var fee := Fee(g, zones);
      Some(OrderPayload(
        g.customerName, g.customerPhone, g.customerEmail, g.address.GetOr(""), g.orderNote.GetOr(""),
        if f.showSchedule then Some(ScheduledSlot(f.scheduleDate, f.scheduleTime)) else None,
        Map(lines, ItemOf),
        pricing.rawSubtotal, pricing.discountTotal, fee, Total(pricing, fee),
        "PAID", "CONFIRMED"))
  }

  /** What a placed order says: paid and confirmed, a delivery fee, a schedule
      exactly when one was shown, one item per line in order, and the
      checkout's subtotal, discount and total. */
  lemma PayloadFacts(g: Guest, f: ScheduleForm, lines: seq<CartLine>, zones: seq<Zone>, now: LocalNow)
    ensures BuildPayload(g, f, lines, zones, now).None? <==> PlaceDisabled(g, f, lines, zones, now)
    ensures BuildPayload(g, f, lines, zones, now).Some? ==>
      var p := BuildPayload(g, f, lines, zones, now).value;
      var pricing := ComputeCheckoutPricing(lines);
      p.paymentStatus == "PAID" && p.status == "CONFIRMED" &&
      p.deliveryFee.Some? && p.deliveryFee == CalcDeliveryFee(g.address, zones) &&
      (p.scheduledDateTime.None? <==> !f.showSchedule) &&
      |p.items| == |lines| &&
      (forall i :: 0 <= i < |lines| ==>
        p.items[i].productId == lines[i].productId && p.items[i].productName == lines[i].name &&
        p.items[i].qty == lines[i].qty && p.items[i].unitPrice == lines[i].price) &&
      p.subtotal == pricing.rawSubtotal && p.bulkDiscount == pricing.discountTotal &&
      p.totalAmount == Total(pricing, p.deliveryFee) &&
      p.deliveryAddress != "" && IsValidEmail(p.customerEmail) && IsValidPhone(p.customerPhone)
  {
  }

  /** The line the payload's item stands for. */
  function LineOfItem(it: PayloadItem): CartLine {
    CartLine(it.productId, it.productName, it.unitPrice, "", it.qty, it.unitPrice * it.qty)
  }

  /** The total recomputed from nothing but the payload's items and fee. */
  function RecomputedTotal(p: OrderPayload): real {
    Total(ComputeCheckoutPricing(Map(p.items, LineOfItem)), p.deliveryFee)
  }

  /** Pricing only reads quantities and prices. */
  lemma PricingOfSameAmounts(a: seq<CartLine>, b: seq<CartLine>)
    requires |a| == |b|
    requires forall i :: 0 <= i < |a| ==> a[i].qty == b[i].qty && a[i].price == b[i].price
    ensures ComputeCheckoutPricing(a).rawSubtotal == ComputeCheckoutPricing(b).rawSubtotal
    ensures ComputeCheckoutPricing(a).discountTotal == ComputeCheckoutPricing(b).discountTotal
  {
    forall i | 0 <= i < |a|
      ensures LineAmountOf(a[i]) == LineAmountOf(b[i]) && PerDishDiscountOf(a[i]) == PerDishDiscountOf(b[i])
    {
      SameAmounts(a[i], b[i]);
    }
    SumByPairwise(a, b, LineAmountOf);
    SumByPairwise(a, b, (l: CartLine) => l.qty);
    SumByPairwise(a, b, PerDishDiscountOf);
    DishDiscountSum(a);
    DishDiscountSum(b);
  }

  lemma SameAmounts(x: CartLine, y: CartLine)
    requires x.qty == y.qty && x.price == y.price
    ensures LineAmountOf(x) == LineAmountOf(y) && PerDishDiscountOf(x) == PerDishDiscountOf(y)
  {
  }

  lemma {:induction false} SumByPairwise(a: seq<CartLine>, b: seq<CartLine>, f: CartLine -> real)
    requires |a| == |b|
    requires forall i :: 0 <= i < |a| ==> f(a[i]) == f(b[i])
    ensures SumBy(a, f) == SumBy(b, f)
    decreases |a|
  {
    if a != [] {
      assert forall i :: 0 <= i < |a[1..]| ==> a[1..][i] == a[i + 1] && b[1..][i] == b[i + 1];
      SumByPairwise(a[1..], b[1..], f);
    }
  }

  /** Recomputing from the stored payload gives back its total exactly. */
  lemma PayloadTotalRoundTrip(g: Guest, f: ScheduleForm, lines: seq<CartLine>, zones: seq<Zone>, now: LocalNow)
    requires BuildPayload(g, f, lines, zones, now).Some?
    ensures RecomputedTotal(BuildPayload(g, f, lines, zones, now).value) == BuildPayload(g, f, lines, zones, now).value.totalAmount
  {
    var p := BuildPayload(g, f, lines, zones, now).value;
    var back := Map(p.items, LineOfItem);
    PricingOfSameAmounts(lines, back);
  }

  // ---------------------------------------------------------------------
  // The dialog's state

  class CheckoutFlow {
    var open: bool
    var step: nat
    var showSchedule: bool
    var scheduleDate: string
    var scheduleTime: string

    function Form(): ScheduleForm
      reads this
    {
      ScheduleForm(showSchedule, scheduleDate, scheduleTime)
    }

    constructor()
      ensures !open && step == 0 && !showSchedule && scheduleDate == "" && scheduleTime == "09:00"
    {
      open := false;
      step := 0;
      showSchedule := false;
      scheduleDate := "";
      scheduleTime := "09:00";
    }

    /** Closing the dialog sends it back to the details step. */
    method SetOpen(o: bool)
      modifies this
      ensures open == o && (!o ==> step == 0) && (o ==> step == old(step))
      ensures Form() == old(Form())
    {
      open := o;
      if !o {
        step := 0;
      }
    }

    method ToggleSchedule()
      modifies this
      ensures showSchedule == !old(showSchedule)
      ensures open == old(open) && step == old(step) && scheduleDate == old(scheduleDate) && scheduleTime == old(scheduleTime)
    {
      showSchedule := !showSchedule;
    }

    method ChooseSlot(date: string, time: string)
      modifies this
      ensures scheduleDate == date && scheduleTime == time
      ensures open == old(open) && step == old(step) && showSchedule == old(showSchedule)
    {
      scheduleDate := date;
      scheduleTime := time;
    }

    /** "Place" moves to the payment step; the button is disabled while placing is blocked. */
    method Place(g: Guest, lines: seq<CartLine>, zones: seq<Zone>, now: LocalNow)
      modifies this
      ensures step == if PlaceDisabled(g, old(Form()), lines, zones, now) then old(step) else 1
      ensures open == old(open) && Form() == old(Form())
    {
      if !PlaceDisabled(g, Form(), lines, zones, now) {
        step := 1;
      }
    }

    method Back()
      modifies this
      ensures step == 0
      ensures open == old(open) && Form() == old(Form())
    {
      step := 0;
    }

    /** "Done" on the payment step: the payload, checked again against the clock now. */
    method Done(g: Guest, lines: seq<CartLine>, zones: seq<Zone>, now: LocalNow) returns (payload: Option<OrderPayload>)
      ensures payload == BuildPayload(g, Form(), lines, zones, now)
      ensures payload.Some? ==> payload.value.paymentStatus == "PAID" && payload.value.status == "CONFIRMED"
    {
      PayloadFacts(g, Form(), lines, zones, now);
      payload := BuildPayload(g, Form(), lines, zones, now);
    }
  }
}
