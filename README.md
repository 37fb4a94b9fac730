# MyFoodDesk ordering rules in Dafny

MyFoodDesk is a single-page food-ordering application. Customers use it to:

- browse the public catalogue;
- fill a cart whose per-dish and whole-cart discounts are tiered by quantity;
- pass a checkout gate that checks contact details, the delivery zone and, for bulk orders, a scheduled hour slot.

Staff use it to:

- move orders along the flow CONFIRMED → COOKING → READY → COMPLETED;
- filter and sort the order list;
- read dashboard figures (KPIs, best seller, sales trend, sales by category) over completed orders;
- maintain products and delivery zones;
- open or close the shop. A "closed" pop-up then greets customers once per day.

This project models those rules and proves properties of them. The model has one Dafny module per source file:

| module | source file | form |
|---|---|---|
| `Delivery` | `src/lib/utils.js` | functions |
| `CartModal` | `src/components/CartModal.jsx` | functions, plus class `CartView` for the confirm flag |
| `Schedule`, `Checkout` | `src/components/CheckoutModal.jsx` | functions; `GenerateHourlyTimeOptions` is a loop; class `CheckoutFlow` for the step and schedule fields |
| `Storage`, `CartStore` | `src/App.jsx` | functions; class `KeyValueStore` for `localStorage`; class `Storefront` holding the cart |
| `Orders` | `src/pages/staff/StaffOrders.jsx` | functions; method `ProductOptions`; class `OrdersPage` |
| `Dashboard` | `src/pages/staff/StaffDashboard.jsx` | functions; loop methods for the KPIs, the trend and the category buckets |
| `Catalog`, `StaffProducts` | `src/pages/staff/StaffProducts.jsx` | functions; category collection as a loop; class `ProductEditor` |
| `StaffZones` | `src/pages/staff/StaffZones.jsx` | functions |
| `PublicProducts` | `src/pages/PublicProducts.jsx` | functions; method `VisibleCategories` |
| `Api` | `src/services/api.js` | functions over a JSON datatype |

Helper modules:

- `Wrappers`: `Option`.
- `Seqs`: filter, find, sum and insertion sort on sequences.
- `Text`: ASCII lower-casing, JavaScript whitespace trimming, split and join, substring search, lexicographic order.
- `JsValues`: a JavaScript number that can be `NaN`.
- `AssocLists`: association lists standing in for JavaScript `Map`.

How JavaScript values are modelled:

- **Numbers.** Prices, quantities and rates are `real`. A value that `Number(x)` could turn into `NaN` is a `JsNum`, and `Number(x) || 0` is `OrZero`.
- **Clock and time zone.** The current time enters as a parameter (`LocalNow`, a date key, or day-start and day-end strings). It is never read.
- **Storage.** `localStorage` is a `map<string, string>`.
- **Sorting.** `Array.prototype.sort` is modelled as an insertion sort by a total preorder (`Seqs.SortBy`). `localeCompare` and the default string sort are both code-point order (`Text.LexLe`).

## Model

| member | source | states |
|---|---|---|
| Delivery.CalcDeliveryFee | src/lib/utils.js:14-22 | The per-zone test `Delivery.ZoneMatches` (line 19) is stated here. The result is `None` exactly when no zone is active with an ASCII-lower-cased keyword occurring in the ASCII-lower-cased address. Otherwise it is the fee of the first such zone, and no earlier zone matches. |
| Delivery.AppendAfterMatch | src/lib/utils.js:16-20 | Once a zone decides the fee, appending zones after it never changes the result (first match wins). |
| Delivery.InactiveNeverDecides | src/lib/utils.js:18 | Dropping every inactive zone never changes the fee, so an inactive zone never decides it. |
| Delivery.AddressCaseIgnored | src/lib/utils.js:15 | Two addresses equal up to ASCII letter case get the same fee. |
| Delivery.SameUpToCaseMatches | src/lib/utils.js:19 | About `Delivery.ZoneMatches`: a zone matches an address iff its ASCII case-variant does. |
| Delivery.KeywordCaseIgnored | src/lib/utils.js:19 | Changing the ASCII letter case of any zone's keywords does not change the fee. |
| Delivery.EmptyKeywordsNeverMatch | src/lib/utils.js:19 | A zone with no keywords never matches. |
| Delivery.EmptyKeywordMatchesAll | src/lib/utils.js:19 | An active zone with an empty keyword matches every address, including a missing one. |
| Delivery.EmptyAddressNoFee | src/lib/utils.js:15-21 | A missing or empty address gets no fee when every keyword is non-empty. |
| Delivery.BangnaExample | src/lib/utils.js:14-22 | Example: the address "123 Bangna Soi 5" resolves to the fee 40 of the matching zone. |
| Delivery.NowhereExample | src/lib/utils.js:14-22 | Example: an address that matches no keyword gets no fee. |
| CartModal.CartRate | src/components/CartModal.jsx:16-20 | The whole-cart rate is one of 0, 0.05 and 0.10. |
| CartModal.PerDishRate | src/components/CartModal.jsx:22-26 | The per-dish rate is one of 0, 0.15 and 0.25. |
| CartModal.RateThresholds | src/components/CartModal.jsx:16-26 | The thresholds are strict. The cart rate is 0 at 10, 0.05 at 11 and 15, 0.10 at 16. The dish rate is 0 at 12, 0.15 at 13 and 20, 0.25 at 21. |
| CartModal.RatesMonotone | src/components/CartModal.jsx:16-26 | Both rate functions are monotone non-decreasing in the quantity. |
| CartModal.PerDishRatePositiveIff | src/components/CartModal.jsx:22-26 | The per-dish rate is positive exactly when qty > 12. |
| CartModal.PriceLine | src/components/CartModal.jsx:53-72 | Qty and price are coerced with `Number(x) \|\| 0`. The raw total is qty × price, and the discount plus the after-discount total equal the raw total. The head-up flag equals a positive dish rate. |
| CartModal.ComputePricing | src/components/CartModal.jsx:74-98 | There is one priced line per cart line. The cart rate is taken from the total quantity. The final subtotal is raw − per-dish − cart discount. |
| CartModal.FinalSubtotalFactored | src/components/CartModal.jsx:77-84 | The cart discount is (raw − per-dish discounts) × cart rate, so the final subtotal is (raw − per-dish) × (1 − rate). |
| CartModal.FinalSubtotalBounds | src/components/CartModal.jsx:74-84 | With non-negative prices and quantities, 0 ≤ final subtotal ≤ raw subtotal. |
| CartModal.LineDiscountBounds | src/components/CartModal.jsx:56-60 | With non-negative qty and price, 0 ≤ per-dish discount ≤ raw line total. |
| CartModal.HeadUpIff | src/components/CartModal.jsx:70-86 | A head-up confirmation is needed exactly when some line has coerced qty > 12, exactly when some line has a positive dish rate. |
| CartModal.NaNLineIsFree | src/components/CartModal.jsx:54-56 | A line whose qty or price is not a number costs 0 and has no dish discount. |
| CartModal.SingleBulkLineExample | src/components/CartModal.jsx:52-99 | One line of 100 × 21 gives a per-dish discount of 525, a cart discount of 157.5 and a final subtotal of 1417.5. |
| CartModal.BulkNeedsConfirm | src/components/CartModal.jsx:101-104 | About `CartModal.CheckoutDisabled`: for a non-empty cart in an open shop with a line of qty > 12, checkout is disabled exactly when the one-day-ahead box is unchecked. |
| CartModal.CheckoutDisabledIff | src/components/CartModal.jsx:101-104 | `CartModal.CheckoutDisabled`, stated over the raw input: checkout is disabled exactly for an empty cart, a closed shop, or a line whose coerced qty exceeds 12 while the head-up is unconfirmed. |
| CartModal.SafeUpdateQty | src/components/CartModal.jsx:48-50 | The requested quantity is never below 1, equals the input whenever that is ≥ 1, and is exactly 1 below that. |
| CartModal.DecrementStaysPositive | src/components/CartModal.jsx:169-171 | When "−" is enabled (qty > 1), the requested quantity is ≥ 1 and below qty, exactly qty − 1 when qty ≥ 2, and exactly 1 when qty < 2. |
| CartModal.CartView.SetOpen | src/components/CartModal.jsx:43-46 | Going from closed to open resets the one-day-ahead confirmation to false. Opening an already open cart, or closing it, leaves the confirmation as it was. |
| CartModal.CartView.SetConfirm | src/components/CartModal.jsx:230 | The checkbox sets the confirmation and nothing else. |
| Schedule.SlotHour | src/components/CheckoutModal.jsx:80 | The hour read from a valid "HH:00" string is below 24. |
| Schedule.HourLabelDigits | src/components/CheckoutModal.jsx:49-50 | The label of hour h < 100 is its two zero-padded digits followed by ":00". |
| Schedule.HourLabelValid | src/components/CheckoutModal.jsx:29-31 | The label of every hour 0..23 is a valid hour string, and it reads back as that hour. |
| Schedule.HourTimeIff | src/components/CheckoutModal.jsx:29-31 | A string is a valid hour string exactly when it is the label of some hour 0..23. |
| Schedule.GenerateHourlyTimeOptions | src/components/CheckoutModal.jsx:46-53 | The options are end − start + 1 labels, or none when end < start. The option at index i is the label of start + i. |
| Schedule.HourLabelOrder | src/components/CheckoutModal.jsx:46-53 | Labels of increasing hours are strictly increasing in string order. |
| Schedule.DefaultOptionsShape | src/components/CheckoutModal.jsx:46-53 | The default options run "09:00".."20:00". All 12 are valid, reading back as hours 9..20, and they are strictly increasing. |
| Schedule.TomorrowIsTodayOrLater | src/components/CheckoutModal.jsx:55-75 | About `Schedule.IsTodayOrLater` and `Schedule.IsAtLeastTomorrow`: `isAtLeastTomorrow` implies `isTodayOrLater`. |
| Schedule.LaterDayAnySlot | src/components/CheckoutModal.jsx:66-108 | On any date from tomorrow on, every well-formed slot passes a shown schedule, whatever the current hour. |
| Schedule.PastDateRejected | src/components/CheckoutModal.jsx:186-191 | About `Schedule.IsScheduleValid` and `Schedule.IsHourTimeValidForDate` (lines 77-108): for a well-formed past date the hour check passes, yet the schedule is invalid. |
| Schedule.ExampleDate | src/components/CheckoutModal.jsx:33-36 | "2024-01-01" is a valid date string and maps to the example clock's day. |
| Schedule.ExampleNextDate | src/components/CheckoutModal.jsx:33-36 | "2024-01-02" is a valid date string and maps to the day after. |
| Schedule.JanuaryDate | src/components/CheckoutModal.jsx:33-36 | A date string "2024-01-0d" is valid and maps to the example day plus d − 1. |
| Schedule.ExampleToday | src/components/CheckoutModal.jsx:55-63 | Today's own date counts as today or later. |
| Schedule.TodaySlotRule | src/components/CheckoutModal.jsx:95-105 | About `Schedule.IsScheduleValid` and `Schedule.IsHourTimeValidForDate`: for a valid date that is today and a valid slot, a shown schedule is accepted iff the slot hour is at least the current hour. |
| Schedule.ExampleTodayHours | src/components/CheckoutModal.jsx:95-105 | At 14:30, an offered slot 09..20 for today is accepted iff its hour is 14 or later, so "14:00" passes and "13:00" fails. |
| Schedule.ExampleTomorrow | src/components/CheckoutModal.jsx:107-108 | Every offered slot 09..20 tomorrow is accepted. |
| Checkout.EmailSingleAt | src/components/CheckoutModal.jsx:133-138 | About `Checkout.IsValidEmail`: a valid e-mail has exactly one "@". It is neither first nor among the last three characters. |
| Checkout.EmailExamples | src/components/CheckoutModal.jsx:133-138 | "a@b.co" is accepted. "a@b", "a@.b" and "a b@c.d" are rejected. |
| Checkout.PhoneShape | src/components/CheckoutModal.jsx:140-145 | About `Checkout.IsValidPhone`: a valid phone has 8..16 characters. Every character after the first is a digit, and the first is "+" or a digit. |
| Checkout.PhoneExamples | src/components/CheckoutModal.jsx:140-145 | Local and "+66" numbers are accepted. Too few digits, a double "+" and dashes are rejected. |
| Checkout.DiscountItem | src/components/CheckoutModal.jsx:154-163 | The item keeps its cart line, and its discount plus its final price equal price × qty. |
| Checkout.ComputeCheckoutPricing | src/components/CheckoutModal.jsx:147-176 | There is one discounted item per line, and the discount total is the cart discount plus the dish discount. |
| Checkout.ViewSumsAgree | src/components/CheckoutModal.jsx:147-165 | The checkout and the cart view agree on total quantity, raw subtotal and per-dish discount total. |
| Checkout.ViewQty | src/components/CheckoutModal.jsx:149 | The two copies agree on the total quantity. |
| Checkout.ViewRaw | src/components/CheckoutModal.jsx:148 | The two copies agree on the raw subtotal. |
| Checkout.ViewPerDish | src/components/CheckoutModal.jsx:154-165 | The cart view's per-dish total is the sum of the per-line dish discounts. |
| Checkout.DishDiscountSum | src/components/CheckoutModal.jsx:165 | The checkout's dish discount is the same sum of per-line dish discounts. |
| Checkout.PricingDivergence | src/components/CheckoutModal.jsx:151-152 | Both copies agree on the raw subtotal, total quantity, per-dish discount and cart rate. The checkout's amount before the fee is the cart view's final subtotal minus per-dish discount × cart rate. |
| Checkout.DivergenceExample | src/components/CheckoutModal.jsx:147-184 | One line of 100 × 21: the cart view shows 1417.5, the checkout charges 1365 before the fee. |
| Checkout.PlaceDisabledIff | src/components/CheckoutModal.jsx:196-205 | `Checkout.PlaceDisabled`, stated here: placing is blocked exactly when any of these holds: name missing; phone missing or invalid; e-mail missing or invalid; address missing; no zone fee; a bulk order without a schedule; a schedule shown but invalid. |
| Checkout.BulkNeedsSchedule | src/components/CheckoutModal.jsx:182-205 | A line of qty > 12 with the schedule hidden always blocks placing. |
| Checkout.PayloadFacts | src/components/CheckoutModal.jsx:207-234 | `Checkout.BuildPayload`, stated here: no payload exists while placing is blocked. Otherwise the payload has status "CONFIRMED" and payment "PAID", and a slot iff the schedule is shown. It has one item per line, in order, with id, name, qty and price. Its subtotal, discount, fee and total are the pricing's. |
| Checkout.PricingOfSameAmounts | src/components/CheckoutModal.jsx:147-166 | Lines with equal quantities and prices price identically. |
| Checkout.PayloadTotalRoundTrip | src/components/CheckoutModal.jsx:220-230 | Re-pricing the payload's own items plus its fee gives back its totalAmount. |
| Checkout.CheckoutFlow.constructor | src/components/CheckoutModal.jsx:123-126 | Starts closed on step 0 with the schedule hidden, no date and the slot "09:00". |
| Checkout.CheckoutFlow.SetOpen | src/components/CheckoutModal.jsx:129-131 | Closing returns to step 0 and keeps the schedule fields. |
| Checkout.CheckoutFlow.ToggleSchedule | src/components/CheckoutModal.jsx:314 | Flips whether the schedule is shown and nothing else. |
| Checkout.CheckoutFlow.ChooseSlot | src/components/CheckoutModal.jsx:327-334 | Sets the date and the hour and nothing else. |
| Checkout.CheckoutFlow.Place | src/components/CheckoutModal.jsx:412-415 | Moves to the payment step exactly when placing is not blocked. |
| Checkout.CheckoutFlow.Back | src/components/CheckoutModal.jsx:431 | Returns to the details step. |
| Checkout.CheckoutFlow.Done | src/components/CheckoutModal.jsx:432 | Returns the payload for the current form, which is PAID and CONFIRMED when present. |
| Storage.PopupShownKey | src/App.jsx:108 | The per-day pop-up key never collides with the shop-open or close-message keys. |
| Storage.CloseMessage | src/App.jsx:28-33 | The stored message if non-empty, else the default. It is never empty. |
| Storage.KeyValueStore.Get | src/App.jsx:25 | Reads a key, which is present exactly when stored. |
| Storage.KeyValueStore.Set | src/App.jsx:115 | Writes one key and nothing else. |
| Storage.KeyValueStore.Remove | src/pages/staff/StaffOrders.jsx:234 | Deletes one key and nothing else. |
| Catalog.FindProduct | src/App.jsx:142 | `None` exactly when no product has the id. Otherwise the first product with that id. |
| Catalog.PurchasableIsListed | src/App.jsx:124 | Anything that can be added to the cart is also shown in the cart lines. |
| CartStore.Prune | src/App.jsx:82-88 | Keeps, in order, exactly the entries whose product exists, is active and is not sold out. |
| CartStore.PruneMultiplicity | src/App.jsx:84-87 | An available entry is kept as many times as it occurs in the cart, an unavailable one not at all. |
| CartStore.PruneNoticeIff | src/App.jsx:89-93 | The removal notice is set exactly when pruning dropped an entry. |
| CartStore.PruneIdempotent | src/App.jsx:82-96 | Pruning twice is pruning once, and the second pass sets no notice. |
| CartStore.FilterKeepsValid | src/App.jsx:84-87 | Filtering a valid cart keeps it valid: one entry per id, every qty ≥ 1. |
| CartStore.PrunePreservesValid | src/App.jsx:82-96 | Pruning keeps the cart valid. |
| CartStore.Increment | src/App.jsx:149 | Adds 1 to the matching entry only, and keeps the order. |
| CartStore.AddToCart | src/App.jsx:141-153 | A missing, inactive or sold-out product changes nothing. The product's entry is incremented if present, else `{id, 1}` is appended. |
| CartStore.AddPreservesValid | src/App.jsx:146-152 | Adding keeps the cart valid: one entry per product, every quantity positive. |
| CartStore.AddKeepsAtLeastOne | src/App.jsx:146-152 | After adding, every quantity is still ≥ 1. |
| CartStore.SetQty | src/App.jsx:166 | Sets the quantity of the matching entries only. |
| CartStore.UpdateQty | src/App.jsx:156-169 | An unavailable product is removed. Otherwise every remaining quantity is positive. |
| CartStore.UpdateQtySets | src/App.jsx:163-168 | About `CartStore.SafeQty` (line 163) within `UpdateQty`: a positive finite quantity is stored as given. |
| CartStore.UpdateQtyNonPositiveRemoves | src/App.jsx:163-168 | About `CartStore.SafeQty`: a quantity ≤ 0 or NaN removes the entry. |
| CartStore.UpdateQtyKeepsOthers | src/App.jsx:164-168 | Other positive entries are kept. |
| CartStore.UpdateQtyAddsNothing | src/App.jsx:164-168 | The `map` then `filter` only rewrites and drops entries: the result is an ordered subsequence of the cart with the quantity set (or of the cart itself when the product is unavailable), every other product's entry was already in the cart, and an id absent from the cart stays absent. |
| CartStore.UpdateQtyPreservesValid | src/App.jsx:156-169 | Updating keeps the cart valid. |
| CartStore.FilterUniqueIds | src/App.jsx:159 | Filtering keeps one entry per product. |
| CartStore.RemoveItem | src/App.jsx:171-173 | Removes every entry of that product and keeps the rest in order. |
| CartStore.RemoveItemExact | src/App.jsx:171-173 | The removed entries plus the kept ones are exactly the original cart, as multisets. |
| CartStore.LineOf | src/App.jsx:120-133 | A line exists exactly when the product exists and is active. It carries the live name and price, the entry's qty and lineTotal = price × qty. |
| CartStore.CartLinesOfListed | src/App.jsx:118-136 | `CartStore.CartLines`, stated here: the cart lines are, in cart order, the lines of the entries whose product exists and is active. |
| CartStore.CartCountOfListed | src/App.jsx:138 | The cart count is the sum of quantities over listed entries. |
| CartStore.SoldOutStillListed | src/App.jsx:121-124 | A sold-out but active product still has a cart line, although pruning drops its entry. |
| CartStore.SubtotalOfListed | src/App.jsx:139 | The subtotal is the sum of live price × qty over listed entries. |
| CartStore.IncrementAddsOne | src/App.jsx:149 | Incrementing a listed entry raises the listed quantity sum by 1. |
| CartStore.AddRaisesCount | src/App.jsx:138-153 | Adding a purchasable product raises the cart count by exactly 1. |
| CartStore.PopupShowsIff | src/App.jsx:99-116 | `CartStore.PopupDecision`, stated here, over `Storage.ShopOpen` (lines 24-27): the pop-up opens exactly for a non-staff visitor, with the shop closed and today's key not "true". It then shows the stored close message. |
| CartStore.PopupOncePerDay | src/App.jsx:108-115 | After the effect has run, it never opens the pop-up again the same day. |
| CartStore.PopupShownKeyInjective | src/App.jsx:108 | Different date keys give different pop-up keys. |
| CartStore.PopupOtherDayUnaffected | src/App.jsx:108-115 | Showing today's pop-up does not change the decision for another day. |
| CartStore.Storefront.constructor | src/App.jsx:44-62 | Starts with no products, an empty cart, no notice and every dialog closed. |
| CartStore.Storefront.ReceiveProducts | src/App.jsx:82-97 | A new catalogue prunes the cart and sets the notice accordingly. Nothing else changes, and validity is kept. |
| CartStore.Storefront.Add | src/App.jsx:141-153 | The cart becomes AddToCart of the old cart. Nothing else changes, and validity is kept. |
| CartStore.Storefront.SetQuantity | src/App.jsx:156-169 | The cart becomes UpdateQty of the old cart. Nothing else changes, and validity is kept. |
| CartStore.Storefront.Remove | src/App.jsx:171-173 | The cart becomes RemoveItem of the old cart. Nothing else changes, and validity is kept. |
| CartStore.Storefront.OpenCheckoutFromCart | src/App.jsx:175-183 | Checkout opens and the cart closes only when the shop is open and there is a cart line. Otherwise nothing changes. |
| CartStore.Storefront.ClosedPopupEffect | src/App.jsx:99-116 | Storage and the pop-up fields follow PopupDecision. The cart is untouched. |
| Orders.TotalCostIff | src/pages/staff/StaffOrders.jsx:6-8 | `Orders.TotalCost`, stated here: the total cost is a number exactly when every item records unitCostAtSale. It is then the sum of cost × qty. |
| Orders.Revenue | src/pages/staff/StaffOrders.jsx:9-11 | Revenue is a number exactly when every item records its cost. It is then totalAmount − Σ cost × qty. |
| Orders.NextStatus | src/pages/staff/StaffOrders.jsx:190-194 | COMPLETED and unknown statuses map to themselves. |
| Orders.NextStatusSteps | src/pages/staff/StaffOrders.jsx:29 | Each flow status maps to the next one in the flow, and the last maps to itself. |
| Orders.ReachesCompleted | src/pages/staff/StaffOrders.jsx:190-194 | From flow position i, 3 − i steps (or more) reach COMPLETED. |
| Orders.ReadyExample | src/pages/staff/StaffOrders.jsx:190-194 | READY advances to COMPLETED, which then stays COMPLETED. |
| Orders.AdvanceRequest | src/pages/staff/StaffOrders.jsx:196-201 | No update exactly when no order has the id (as id or `_id`), or the first one's status would not change. Otherwise the update names the next status. |
| Orders.AdvanceNeverFromCompleted | src/pages/staff/StaffOrders.jsx:196-201 | When every order is COMPLETED or off-flow, no update is sent. |
| Orders.DateKey | src/pages/staff/StaffOrders.jsx:54 | The key is the first 10 characters of the timestamp, or all of it when shorter. |
| Orders.ScheduleDateKey | src/pages/staff/StaffOrders.jsx:52-58 | A key exists exactly when the order has a schedule. The scheduled timestamp takes precedence over the schedule date. |
| Orders.ScheduledElsewhereNotDue | src/pages/staff/StaffOrders.jsx:66-76 | About `Orders.DueToday`: an order scheduled for another day is not due today. |
| Orders.QuickFiltersSkipClosed | src/pages/staff/StaffOrders.jsx:78-86 | About `Orders.QuickOk`: the today, scheduled and bulk quick filters never show a COMPLETED or CANCELLED order. |
| Orders.SearchFindsOwnId | src/pages/staff/StaffOrders.jsx:169-177 | About `Orders.IdText` (line 172, `String(o.id \|\| o._id)`): a search for an order's own id, in any ASCII letter case, keeps that order. |
| Orders.BeforeIsTotalPreorder | src/pages/staff/StaffOrders.jsx:179-183 | The newest-first and oldest-first comparisons are total preorders. |
| Orders.FilterStages | src/pages/staff/StaffOrders.jsx:146-177 | The chain of successive filters is one filter by the conjunction of all active criteria. |
| Orders.ArrangeSpec | src/pages/staff/StaffOrders.jsx:178-186 | The sort and split keep exactly the same orders. Unfinished orders come before completed ones, and each group is sorted by createdAt in the chosen direction. |
| Orders.FilteredOrdersSpec | src/pages/staff/StaffOrders.jsx:146-187 | `Orders.FilteredOrders`, stated here: the result is a permutation of the orders passing every filter. Unfinished orders come before completed ones, and each group is sorted by createdAt in the chosen direction. |
| Orders.NoFilterShowsAll | src/pages/staff/StaffOrders.jsx:146-187 | With no filter set, every order is listed. |
| Orders.ZoneFilterIgnoresActive | src/pages/staff/StaffOrders.jsx:155-161 | The zone filter matches by keyword even for an inactive zone that yields no fee. |
| Orders.PutItemsKeys | src/pages/staff/StaffOrders.jsx:139-141 | Inserting items keeps keys distinct. An id becomes a key iff it was one or appears among the items. |
| Orders.ProductOptionsKeys | src/pages/staff/StaffOrders.jsx:136-144 | The options have distinct ids, exactly those mentioned by some order item. |
| Orders.ProductOptions | src/pages/staff/StaffOrders.jsx:136-144 | The loop builds the options with distinct ids, exactly those mentioned by some order item, each shown with the name on its last line. |
| Orders.PutItemsGet | src/pages/staff/StaffOrders.jsx:139-141 | After the `set` calls a product shows the name of its last line, or its earlier name when no line names it. |
| Orders.ProductOptionsGet | src/pages/staff/StaffOrders.jsx:136-144 | Each option shows the name of the last line, over all orders, for its id. |
| Orders.Toggle | src/pages/staff/StaffOrders.jsx:127-134 | Flips the membership of the one id and keeps every other. |
| Orders.ToggleTwice | src/pages/staff/StaffOrders.jsx:127-134 | Toggling twice restores the set. |
| Orders.LoadedAgreesWithStorefront | src/pages/staff/StaffOrders.jsx:120-125 | Compares the page with `Storage.ShopOpen` (src/App.jsx:24-27). The staff page reads the shop-open flag as the storefront does. With a non-empty stored message it shows that message, the same as `Storage.CloseMessage`. Otherwise it keeps its initial empty message, where `Storage.CloseMessage` gives the default text. |
| Orders.CloseShopRearmsPopup | src/pages/staff/StaffOrders.jsx:229-236 | After closing, the shop reads closed, and a visitor today gets the pop-up with the new message. |
| Orders.ReopenHidesPopup | src/pages/staff/StaffOrders.jsx:221-227 | After reopening, the shop reads open and the pop-up is hidden. |
| Orders.OrdersPage.constructor | src/pages/staff/StaffOrders.jsx:113-117 | Starts open, with the close dialog shut, no message and nothing expanded. |
| Orders.OrdersPage.LoadSettings | src/pages/staff/StaffOrders.jsx:120-125 | Loads the flag when stored and the message when non-empty. |
| Orders.OrdersPage.ToggleExpanded | src/pages/staff/StaffOrders.jsx:127-134 | The expanded set becomes Toggle of the old set. |
| Orders.OrdersPage.ToggleShop | src/pages/staff/StaffOrders.jsx:221-227 | An open shop gets the close dialog without touching storage. A closed shop reopens and writes "true". |
| Orders.OrdersPage.SetCloseMsg | src/pages/staff/StaffOrders.jsx:448 | Edits the message only. |
| Orders.OrdersPage.ConfirmCloseShop | src/pages/staff/StaffOrders.jsx:229-236 | Writes "false" and the message, removes today's pop-up key and closes the dialog. |
| Dashboard.Weekday | src/pages/staff/StaffDashboard.jsx:23 | The weekday lies in 0..6. |
| Dashboard.WeekOfMonthBounds | src/pages/staff/StaffDashboard.jsx:24 | The week lies in 1..6, day 1 is week 1, and seven days later is one week later. |
| Dashboard.MonthlyWeekInRange | src/pages/staff/StaffDashboard.jsx:19-26 | About the week in `Dashboard.WeekOfMonthKey`: a date's week of month lies in 1..6, and the first of the month is week 1. |
| Dashboard.HourlyKeysChronological | src/pages/staff/StaffDashboard.jsx:31-34 | About `Dashboard.GroupKey` (lines 28-42): on one date, hourly keys of increasing hours are strictly increasing in string order. |
| Dashboard.InferCategory | src/pages/staff/StaffDashboard.jsx:48-54 | The result is one of four categories, decided in priority order on the ASCII-lower-cased name: tea/drink, then rice, then brownie/dessert. |
| Dashboard.InferCategoryIgnoresCase | src/pages/staff/StaffDashboard.jsx:49 | ASCII letter case of the name does not matter. |
| Dashboard.InferCategoryPriority | src/pages/staff/StaffDashboard.jsx:50-53 | "Rice Tea" is Drinks and "Fried Rice" is Rice. |
| Dashboard.SteakCountsAsDrink | src/pages/staff/StaffDashboard.jsx:50 | "Beef Steak" is Drinks, through the substring "tea". |
| Dashboard.CategoryOf | src/pages/staff/StaffDashboard.jsx:165-166 | A found product with a non-empty category gives that category. A found product with an empty category, or an unknown product, gives the category inferred from the line's name. The result is never empty. |
| Dashboard.DashFilteredSpec | src/pages/staff/StaffDashboard.jsx:81-110 | `Dashboard.DashFiltered`, stated here: the figures cover exactly the COMPLETED orders passing the zone, product and date filters. With "today" the range is today's and the from/to dates are ignored. |
| Dashboard.SumLiveCost | src/pages/staff/StaffDashboard.jsx:119-126 | Over `Dashboard.LiveCost` (lines 123-124): the nested loop totals qty × live costToMake, with 0 for unknown products. |
| Dashboard.RecordedIsLive | src/pages/staff/StaffDashboard.jsx:44-46 | When every item's recorded cost equals the live catalogue cost, the recorded cost sum equals the live one. |
| Dashboard.LiveCostMatchesRecorded | src/pages/staff/StaffDashboard.jsx:44-46 | Under that assumption the order's recorded total cost equals its live-cost total. |
| Dashboard.QtyByNameFacts | src/pages/staff/StaffDashboard.jsx:130-135 | Each product name appears once. The quantities sum to the total item quantity. A name is present iff some item carries it, and its bucket holds the summed quantity of exactly the items with that name. |
| Dashboard.QtyByProduct | src/pages/staff/StaffDashboard.jsx:130-135 | The loop builds the per-name quantity map. |
| Dashboard.BestSeller | src/pages/staff/StaffDashboard.jsx:137-144 | The result is "-" when no summed quantity exceeds −1, in particular when there are no items. Otherwise it is the first-inserted name with the largest summed quantity. |
| Dashboard.BestSellerUnique | src/pages/staff/StaffDashboard.jsx:137-144 | The best seller is uniquely determined. |
| Dashboard.BestSellerExamples | src/pages/staff/StaffDashboard.jsx:137-144 | A tie goes to the earlier name, and no items give "-". |
| Dashboard.ComputeKpis | src/pages/staff/StaffDashboard.jsx:115-147 | Count, sales total, live cost total, revenue = sales − cost, and the best seller. |
| Dashboard.KeyOrderIsTotalPreorder | src/pages/staff/StaffDashboard.jsx:157 | Ordering trend buckets by key is a total preorder. |
| Dashboard.SalesTrend | src/pages/staff/StaffDashboard.jsx:149-159 | One bucket per distinct group key, sorted ascending by key, holding every accumulated bucket. The values sum to the total sales. A key is present iff some order falls in it, and its bucket holds the total of exactly the orders with that key. |
| Dashboard.AddLines | src/pages/staff/StaffDashboard.jsx:164-169 | The inner loop adds each line's unitPrice × qty to its category's bucket, as the accumulation over the order's lines. |
| Dashboard.CategoryBuckets | src/pages/staff/StaffDashboard.jsx:161-170 | The nested loop sums unitPrice × qty per category. |
| Dashboard.SalesByCategory | src/pages/staff/StaffDashboard.jsx:161-175 | One bucket per category, sorted by value descending. The values sum to Σ unitPrice × qty. A category is present iff some item falls in it, and its bucket holds Σ unitPrice × qty over exactly the items of that category. |
| AssocLists.AddToIsSet | src/pages/staff/StaffDashboard.jsx:168 | Accumulating `x` under a key is `set` of the old value (0 when absent) plus `x`. |
| AssocLists.AddToGetSame | src/pages/staff/StaffDashboard.jsx:168 | Afterwards `get` of that key is the old value, or 0, plus `x`. |
| AssocLists.AddToGetOther | src/pages/staff/StaffDashboard.jsx:168 | Every other key keeps its value. |
| AssocLists.AddToSum | src/pages/staff/StaffDashboard.jsx:168 | On a map with distinct keys, the values' total grows by exactly `x`. |
| AssocLists.AccumulateFacts | src/pages/staff/StaffDashboard.jsx:131-135 | Starting from a map with distinct keys, a `forEach` of accumulations keeps each key once, adds the sum of the values to the total, has a key exactly for the keys met, and leaves under each key its starting value (or 0) plus the values of exactly the items with that key. |
| AssocLists.AccumulateNestedFacts | src/pages/staff/StaffDashboard.jsx:163-170 | The same four facts for a `forEach` nested in a `forEach`: each key's bucket gains the values of exactly the inner items with that key. |
| AssocLists.AccumulateGet | src/pages/staff/StaffDashboard.jsx:131-135 | `map.get(k)` after the loop is the starting value (or 0) plus the values of exactly the items with key `k` when `k` was present or met, and nothing otherwise. |
| AssocLists.AccumulateNestedGet | src/pages/staff/StaffDashboard.jsx:163-170 | The same for the nested loops: the sum over the outer items of their inner items with key `k`. |
| AssocLists.SortedAccumulateGet | src/pages/staff/StaffDashboard.jsx:149-159 | Sorting the entries of a map built from empty keeps each key's bucket: the sum for `k` when `k` was met, none otherwise. |
| AssocLists.SortedAccumulateNestedGet | src/pages/staff/StaffDashboard.jsx:161-175 | The same for the nested map. |
| AssocLists.GetOfPermutation | src/pages/staff/StaffDashboard.jsx:157 | Two orders of the same distinct-key entries give the same `get` for every key. |
| Catalog.AscendingIsTotalPreorder | src/pages/staff/StaffProducts.jsx:47 | Code-point string order is a total preorder. |
| Catalog.CollectCategories | src/pages/staff/StaffProducts.jsx:43-46 | The loop collects, without duplicates, exactly the trimmed non-empty categories. |
| Catalog.Categories | src/pages/staff/StaffProducts.jsx:42-48 | The result is distinct and sorted, and holds exactly the trimmed non-empty product categories. Each one is non-empty and trimmed. |
| StaffProducts.ParseMadeWith | src/pages/staff/StaffProducts.jsx:5-8 | "" gives []. Every item is trimmed, non-empty and comma-free. |
| StaffProducts.MadeWithRoundTrip | src/pages/staff/StaffProducts.jsx:5-8 | Parsing the ", "-join of a list of trimmed, non-empty, comma-free items gives the list back. |
| StaffProducts.FilteredProducts | src/pages/staff/StaffProducts.jsx:50-67 | A subsequence of the products. A product is listed iff the trimmed ASCII-lower-cased query is blank or occurs in its name, category or description, and the filter is ALL or equals its category up to ASCII case. |
| StaffProducts.BlankQueryShowsAll | src/pages/staff/StaffProducts.jsx:50-67 | A blank query with "ALL" lists every product. |
| StaffProducts.CategoryFilterIgnoresCase | src/pages/staff/StaffProducts.jsx:60-63 | ASCII-lower-casing a non-ALL filter does not change the list. |
| StaffProducts.EditForm | src/pages/staff/StaffProducts.jsx:96-106 | The form copies the product. A missing isActive counts as active, and isSoldOut is coerced to a boolean. |
| StaffProducts.AddMode | src/pages/staff/StaffProducts.jsx:79-85 | "existing" exactly when some category exists. |
| StaffProducts.EditMode | src/pages/staff/StaffProducts.jsx:111-118 | "existing" exactly when the trimmed category is non-empty and listed up to ASCII case. Otherwise "new", pre-filled with the trimmed category. |
| StaffProducts.FinalCategory | src/pages/staff/StaffProducts.jsx:123-126 | The chosen category is trimmed. |
| StaffProducts.EditKeepsCategory | src/pages/staff/StaffProducts.jsx:111-126 | Opening a product for editing and finalising gives back its trimmed category. |
| StaffProducts.CheckImage | src/pages/staff/StaffProducts.jsx:142-154 | No file gives no check. A file is accepted iff its type starts with "image/" and its size ≤ 2 MiB. It is too large iff it is an image above that size. |
| StaffProducts.ImageExamples | src/pages/staff/StaffProducts.jsx:146-154 | An image of exactly 2 MiB is accepted, one byte more is too large, and a PDF is the wrong type. |
| StaffProducts.SaveOutcomeOf | src/pages/staff/StaffProducts.jsx:171-204 | No call iff the trimmed name or the final category is empty. Otherwise a missing image with no call iff the image is empty. Otherwise a create when adding, or an update of the edited id. The payload is built from the form. |
| StaffProducts.SavedPayloadWellFormed | src/pages/staff/StaffProducts.jsx:183-195 | A saved payload has a trimmed non-empty name and category, an image and a clean ingredient list. |
| StaffProducts.EditFormReadBack | src/pages/staff/StaffProducts.jsx:90-121 | The edit form reads back the product's name, category and ingredient list. |
| StaffProducts.EditThenSaveKeepsProduct | src/pages/staff/StaffProducts.jsx:90-208 | Editing and saving unchanged sends an update of the product's id. It carries the product's own fields, with the category trimmed and the flags coerced to booleans. |
| StaffProducts.SaveReadBack | src/pages/staff/StaffProducts.jsx:171-208 | A form matching a product saves as an update with that product's fields. |
| StaffProducts.DeleteCategoryTargets | src/pages/staff/StaffProducts.jsx:128-132 | An empty name touches nothing. Otherwise the targets are exactly the products whose trimmed category equals the name, in order. |
| StaffProducts.ToggleActiveRequest | src/pages/staff/StaffProducts.jsx:210-215 | No call for an unknown id. Otherwise the negated active flag. |
| StaffProducts.ToggleSoldOutRequest | src/pages/staff/StaffProducts.jsx:217-222 | No call for an unknown id. Otherwise the negated sold-out flag. |
| StaffProducts.WithActive | src/pages/staff/StaffProducts.jsx:213 | Applying an update keeps the length and all ids. |
| StaffProducts.ToggleActiveTwice | src/pages/staff/StaffProducts.jsx:210-215 | Applying the toggle and toggling again requests the original flag. |
| StaffProducts.ProductEditor.constructor | src/pages/staff/StaffProducts.jsx:26-40 | The editor starts closed. It has an empty form, mode "existing", and no preview or error. |
| StaffProducts.ProductEditor.StartAdd | src/pages/staff/StaffProducts.jsx:69-88 | Opens an empty form with the add-mode choice. |
| StaffProducts.ProductEditor.StartEdit | src/pages/staff/StaffProducts.jsx:90-121 | Opens the edit form with the joined ingredients, the product's image and the edit-mode choice. |
| StaffProducts.ProductEditor.PickImage | src/pages/staff/StaffProducts.jsx:142-164 | Reading starts iff the file is accepted. The error follows the check. Nothing else changes. |
| StaffProducts.ProductEditor.ImageLoaded | src/pages/staff/StaffProducts.jsx:157-161 | Sets the preview and the form image to the data URL. |
| StaffProducts.ProductEditor.RemoveImage | src/pages/staff/StaffProducts.jsx:166-169 | Clears the preview and the form image. |
| StaffProducts.ProductEditor.Save | src/pages/staff/StaffProducts.jsx:171-208 | The outcome is SaveOutcomeOf the form. A missing image sets the error. A successful call closes the dialog. |
| StaffProducts.ProductEditor.DeleteCategory | src/pages/staff/StaffProducts.jsx:128-140 | Returns the target products, and clears the form category when it equals the deleted one. |
| StaffZones.FilteredZones | src/pages/staff/StaffZones.jsx:36-50 | A blank query gives the zones unchanged. Otherwise the result is a subsequence holding exactly the zones whose ASCII-lower-cased "name keywords…" contains the query. |
| StaffZones.ZoneFoundByName | src/pages/staff/StaffZones.jsx:36-50 | Searching for a zone's own trimmed name finds that zone. |
| StaffZones.EditZoneForm | src/pages/staff/StaffZones.jsx:24-34 | The form copies name, fee and flag. The keyword text is the ", "-join. |
| StaffZones.ZoneSaveOf | src/pages/staff/StaffZones.jsx:52-73 | No call iff the trimmed name is blank. Otherwise a create or an update of the edited id, with trimmed name, coerced fee, boolean flag and parsed keywords. |
| StaffZones.SavedZoneShape | src/pages/staff/StaffZones.jsx:55-66 | A saved zone has a trimmed name, and every keyword is trimmed, non-empty and without commas. |
| StaffZones.EditThenSaveKeepsZone | src/pages/staff/StaffZones.jsx:24-73 | Editing and saving a saved zone unchanged sends an update with the same fields. |
| StaffZones.SavedZonesIgnoreEmptyAddress | src/pages/staff/StaffZones.jsx:55-58 | With only saved zones, an empty or missing address never gets a fee. |
| StaffZones.ZoneToggleRequest | src/pages/staff/StaffZones.jsx:81-86 | No call for an unknown id. Otherwise the negated flag of the first zone with that id. |
| StaffZones.EditorAfterDelete | src/pages/staff/StaffZones.jsx:88-101 | After a confirmed, successful delete the editor never still holds the deleted zone. Deleting the zone being edited closes the editor, clears it and empties form and keyword text. Any other outcome leaves the editor as it was. |
| StaffZones.DeletedZoneNeverUpdated | src/pages/staff/StaffZones.jsx:52-101 | After deleting a zone, saving the editor never sends an update of that zone. |
| Text.ParseJoinRoundTrip | src/pages/staff/StaffZones.jsx:55-58 | About `Text.ParseCommaList` and `Text.Join`: splitting on commas, trimming and dropping empties inverts the ", "-join of clean items. |
| Text.Trim | src/pages/staff/StaffZones.jsx:53 | `String.prototype.trim`: the result has no leading or trailing whitespace and is no longer than the input. |
| Text.TrimInfix | src/pages/staff/StaffZones.jsx:53 | The trimmed string is a window of the input with only whitespace on either side of it. |
| Text.Split | src/pages/staff/StaffZones.jsx:56 | `split` on one character gives at least one part, and no part contains the separator. |
| Text.ParseCommaList | src/pages/staff/StaffZones.jsx:55-58 | Every parsed item is trimmed, non-empty and free of commas. |
| PublicProducts.Visible | src/pages/PublicProducts.jsx:9-11 | A subsequence holding exactly the products whose isActive is not false. A missing flag counts as visible here, but `src/App.jsx:247` passes only products whose `isActive` is truthy, so on the page a product without the flag never reaches this filter. |
| PublicProducts.VisibleCategory | src/pages/PublicProducts.jsx:13-19 | A category occurs among the visible products iff some visible product carries it. |
| PublicProducts.VisibleCategories | src/pages/PublicProducts.jsx:13-19 | The result is distinct and sorted, and holds exactly the trimmed non-empty categories of visible products. |
| PublicProducts.FilteredByCategory | src/pages/PublicProducts.jsx:21-24 | "ALL" gives the visible list. Otherwise the result is a subsequence of exactly the products whose trimmed category equals the choice, case-sensitively. |
| PublicProducts.CategoryButtonShowsProducts | src/pages/PublicProducts.jsx:13-24 | Every category button lists at least one product. |
| PublicProducts.CardOf | src/pages/PublicProducts.jsx:50-51 | The card's sold-out flag is the coerced boolean. Everything else is the product. |
| PublicProducts.SoldOutStaysListed | src/pages/PublicProducts.jsx:21-24 | Sold-out products are still listed. |
| Api.MapId | src/services/api.js:15-22 | Falsy values pass through. Arrays keep their length. An object with a truthy `_id` and no truthy `id` gains `id = _id`, with other fields unchanged. Every other object is returned as-is. |
| Api.MapIdElements | src/services/api.js:17 | Arrays are mapped elementwise. |
| Api.MapIdIdempotent | src/services/api.js:15-22 | mapId(mapId(x)) = mapId(x). |
| Api.MapIdGivesIds | src/services/api.js:17-20 | After mapping, every record with an `_id` has an `id`. |
| Api.Login | src/services/api.js:131-135 | `None` exactly when no user matches both e-mail and password. Otherwise the mapped first matching user. |
| Api.LoginReturnsListedUser | src/services/api.js:127-135 | The user returned is one of the fetched users. |

## Left out

- Network I/O is not modelled: every `fetch`, `refresh()`, the server's response and failure handling. Only the guards and payloads are modelled; the outcome of a call is a parameter (`callSucceeds`) or a returned request value.
- `placeOrder` and `cancelOrder` in `src/App.jsx` and `src/pages/staff/StaffOrders.jsx` are left out. They are plumbing around network calls.
- The `window.confirm` and `alert` prompts are not modelled. `DeleteCategory` models the path where the user confirms. A failed category update is not modelled.
- StaffZones.EditorAfterDelete: the confirmation prompt and the server call's success enter as one flag, `deleted`. The server-side removal and the `refresh()` of the zone list are not modelled.
- The 3-second timer that clears the cart notice is left out.
- `FileReader` runs asynchronously. It is split into `PickImage` (the checks) and `ImageLoaded` (its `onload`), and the read error is not modelled.
- Recharts, JSX rendering and formatting (`currency`, `fmtDateTime`, `fmtSchedule`, `statusPillClass`) are left out.
- The clock is a parameter. `todayKey`, `startOfDayISO` and `endOfDayISO` become parameters, and the local calendar fields of a timestamp come from a function parameter. No time zone is modelled: no offset goes in anywhere, local-to-UTC conversions are not performed, and daylight saving time is not modelled.
- Checkout.PayloadFacts: the payload's `scheduledDateTime` stays the local (date, hour) pair the customer picked (`Checkout.ScheduledSlot`). The source sends ``new Date(`${scheduleDate}T${scheduleTime}:00`).toISOString()``, a UTC instant that depends on the browser's time zone; that conversion is not modelled.
- Timestamps are compared as strings, which is how the source compares `createdAt`. The sort by `new Date(createdAt)` is a comparison on the ISO strings, valid for canonical UTC ISO strings.
- `localeCompare` is code-point order. Locale collation is not modelled.
- Seqs.SortBy: the in-place `Array.prototype.sort` is a sorted copy that is a permutation. Its stability is not proved.
- Text.Lower: `toLowerCase` is modelled on ASCII only. `A`–`Z` are lower-cased and every other character is kept, so Unicode case folding (for example `É` to `é`) is not modelled. Thai, the language of the example addresses, has no letter case. Every comparison "up to case" below means ASCII case.
- CalcDeliveryFee: keywords and addresses are matched after ASCII lower-casing only, so an address differing from a keyword only in non-ASCII case (such as "CAFÉ" against "café") gets no fee here, while `toLowerCase` would match it.
- AddressCaseIgnored: holds for addresses equal up to ASCII case. Non-ASCII case variants are not covered.
- SameUpToCaseMatches: the case-variant is an ASCII case-variant. Non-ASCII case variants are not covered.
- KeywordCaseIgnored: changing the case of keywords is covered for ASCII letters only.
- InferCategory: the name is lower-cased with the ASCII-only fold before the substring tests.
- InferCategoryIgnoresCase: holds for ASCII case only.
- FilteredProducts: the query, the product texts and the category filter are folded with the ASCII-only lower-casing.
- CategoryFilterIgnoresCase: holds for ASCII case only.
- EditMode: "listed up to case" compares with the ASCII-only lower-casing.
- FilteredZones: the zone text is folded with the ASCII-only lower-casing.
- The order search in `src/pages/staff/StaffOrders.jsx` (`Orders.QueryOk`) lower-cases with the same ASCII-only fold.
- Orders.DateKey: takes the first 10 characters of the timestamp. It does not redo `new Date(x).toISOString()`, so it assumes canonical UTC ISO strings, the form `toISOString` itself produces and the form in which the checkout sends the scheduled time (`src/components/CheckoutModal.jsx:217`). The model does not produce those strings itself: it keeps the checkout's slot as a local pair (see the `Checkout.PayloadFacts` line above). A timestamp with another offset would get its local date here instead of its UTC date. An invalid date, where `toISOString` throws, is not modelled.
- Numbers are real numbers, not floating point. Infinity is not modelled apart from `NaN`.
- `Number(string)` parsing is not modelled. Text inputs for price and fee arrive as `JsNum`.
- A missing `items` array is the empty sequence, as `(o.items \|\| [])` gives.
- `Orders.TotalCostIff`: `calcTotalCost` reads `items` without that fallback, so a missing array would be an exception in the source.
- Api.MapId: key order of objects is not modelled; objects are maps.
- Api.Login: a `null` entry in the user list would throw in JavaScript. Here it just does not match.
- `_id` lookups: `toggleActive`/`toggleSoldOut` also match `_id`; the model finds products by `id` only, since `Api.MapId` always makes `id` present.
- The closed-shop message in `CartModal.jsx` reuses the same storage reads as `App.jsx`. Both are modelled once, by `Storage.ShopOpen` and `Storage.CloseMessage`.
- Staff login UI and the password security concerns are left out. Only the matching rule is modelled.

## Notes on the source

- The current hour counts as valid for today (`scheduled >= nowRoundedToHour`), so at 14:30 the slot "14:00" is accepted although that hour has already begun. Rejecting it would need `>` instead of `>=` at `src/components/CheckoutModal.jsx:105`. The model follows the code (`Schedule.ExampleTodayHours`).
- `isAtLeastTomorrow` is never used by the page. It is still modelled, and `Schedule.TomorrowIsTodayOrLater` relates it to `isTodayOrLater`.
- `new Date(y, m - 1, d)` reads years 0..99 as 1900 + y. `Schedule.JsFullYear` models this.
- The cart view and the checkout compute the whole-cart discount on different bases. The model keeps both copies as written, and `Checkout.PricingDivergence` states the difference.
- The checkout payload never includes `unitCostAtSale`, but `calcTotalCost` reads it. `Orders.Revenue` is a number only when every item records it.
- `Dashboard.LiveCostMatchesRecorded` states the assumption under which the recorded cost and the dashboard's live cost agree.
- `calcOrderCost` in the dashboard is the same computation as `calcTotalCost`, so both are modelled by `Orders.TotalCost`.
- `inferCategory` classifies "Steak" as Drinks because of the substring "tea" (`Dashboard.SteakCountsAsDrink`).
- On the public page, a category literally named "ALL" would select every visible product, because "ALL" is also the sentinel value for no filter.
