/** The staff order board of src/pages/staff/StaffOrders.jsx: cost and
    revenue of an order, the status workflow, the quick filters, the filter
    and sort pipeline of the list, the product options of the product filter,
    and the shop open/close switch kept in the browser store. */
module Orders {
  import opened Wrappers
  import opened Seqs
  import opened Text
  import opened JsValues
  import opened AssocLists
  import opened Delivery
  import opened Storage
  import CartStore

  /** One line of a stored order. `unitCostAtSale` is `None` when the field is absent. */
  datatype OrderItem = OrderItem(productId: string, productName: string, qty: real,
                                 unitPrice: real, unitCostAtSale: Option<real>)

  /** A stored order as the board receives it. `id` and `dbId` (`_id`) may be
      absent; `createdAt` is a canonical UTC ISO-8601 timestamp;
      `scheduleDate` is the legacy `schedule.date` field. */
  datatype Order = Order(id: Option<string>, dbId: Option<string>, status: string,
                         createdAt: string, customerName: Option<string>,
                         deliveryAddress: Option<string>, totalAmount: real,
                         items: seq<OrderItem>, scheduledDateTime: Option<string>,
                         scheduleDate: Option<string>)

  const Completed: string := "COMPLETED"
  const Cancelled: string := "CANCELLED"

  // ---------------------------------------------------------------------
  // Cost and revenue

  /** `it.unitCostAtSale * it.qty`: NaN when the cost is absent. */
  function ItemCost(it: OrderItem): JsNum {
    match it.unitCostAtSale
    case Some(c) => Finite(c * it.qty)
    case None => NaN
  }

  /** `a + b` on numbers: NaN absorbs. */
  function AddNum(a: JsNum, b: JsNum): JsNum {
    if a.Finite? && b.Finite? then Finite(a.v + b.v) else NaN
  }

  /** `items.reduce((s, it) => s + it.unitCostAtSale * it.qty, 0)`, folded from the left. */
  function TotalCost(items: seq<OrderItem>): JsNum
    decreases |items|
  {
    if items == [] then Finite(0.0)
    else AddNum(TotalCost(items[..|items| - 1]), ItemCost(items[|items| - 1]))
  }

  predicate CostsRecorded(items: seq<OrderItem>) {
    forall i | 0 <= i < |items| :: items[i].unitCostAtSale.Some?
  }

  function RecordedCost(it: OrderItem): real {
    it.unitCostAtSale.GetOr(0.0) * it.qty
  }

  /** The cost is a number exactly when every line records its unit cost,
      and it is then the sum of unit cost times quantity. */
  lemma {:induction false} TotalCostIff(items: seq<OrderItem>)
    ensures TotalCost(items).Finite? <==> CostsRecorded(items)
    ensures TotalCost(items).Finite? ==> TotalCost(items).v == SumBy(items, RecordedCost)
    decreases |items|
  {
    if items != [] {
      var init, last := items[..|items| - 1], items[|items| - 1];
      TotalCostIff(init);
      assert items == init + [last];
      SumByAppend(init, [last], RecordedCost);
      assert CostsRecorded(items) <==> CostsRecorded(init) && last.unitCostAtSale.Some? by {
        if CostsRecorded(init) && last.unitCostAtSale.Some? {
          forall i | 0 <= i < |items|
            ensures items[i].unitCostAtSale.Some?
          {
            if i < |init| {
              assert items[i] == init[i];
            }
          }
        }
        if CostsRecorded(items) {
          forall i | 0 <= i < |init|
            ensures init[i].unitCostAtSale.Some?
          {
            assert init[i] == items[i];
          }
        }
      }
    }
  }

  /** `order.totalAmount - calcTotalCost(order)`. */
  function Revenue(o: Order): (r: JsNum)
    ensures r.Finite? <==> CostsRecorded(o.items)
    ensures r.Finite? ==> r.v == o.totalAmount - SumBy(o.items, RecordedCost)
  {
    TotalCostIff(o.items);
    match TotalCost(o.items)
    case Finite(c) => Finite(o.totalAmount - c)
    case NaN => NaN
  }

  // ---------------------------------------------------------------------
  // The status workflow

  const OrderFlow: seq<string> := ["CONFIRMED", "COOKING", "READY", "COMPLETED"]

  /** `nextStatus`: the following stage of the flow; the last stage and any
      status outside the flow stay put. */
  function NextStatus(cur: string): (r: string)
    ensures cur !in OrderFlow ==> r == cur
    ensures cur == Completed ==> r == cur
  {
    match FindIndex(OrderFlow, s => s == cur)
    case None => cur
    case Some(idx) => if idx == |OrderFlow| - 1 then cur else OrderFlow[idx + 1]
  }

  /** Each step moves exactly one stage forward, except from the last stage. */
  lemma NextStatusSteps(i: nat)
    requires i < |OrderFlow|
    ensures NextStatus(OrderFlow[i]) == if i == |OrderFlow| - 1 then OrderFlow[i] else OrderFlow[i + 1]
  {
    var v := FindIndex(OrderFlow, s => s == OrderFlow[i]);
    assert v == Some(i) by {
      assert forall j, k :: 0 <= j < k < |OrderFlow| ==> OrderFlow[j] != OrderFlow[k];
    }
  }

  /** `nextStatus` applied `n` times. */
  function Advanced(s: string, n: nat): string
    decreases n
  {
    if n == 0 then s else Advanced(NextStatus(s), n - 1)
  }

  lemma AdvancedStep(s: string, n: nat)
    requires n > 0
    ensures Advanced(s, n) == Advanced(NextStatus(s), n - 1)
  {
  }

  /** A status that `nextStatus` keeps is kept by any number of steps. */
  lemma {:induction false} AdvancedFixed(s: string, n: nat)
    requires NextStatus(s) == s
    ensures Advanced(s, n) == s
    decreases n
  {
    if n > 0 {
      AdvancedFixed(s, n - 1);
    }
  }

  /** From any stage of the flow, "COMPLETED" is reached after the remaining
      number of steps and then stays. */
  lemma {:induction false} ReachesCompleted(i: nat, extra: nat)
    requires i < |OrderFlow|
    ensures Advanced(OrderFlow[i], |OrderFlow| - 1 - i + extra) == Completed
    decreases |OrderFlow| - i
  {
    NextStatusSteps(i);
    if i < |OrderFlow| - 1 {
      ReachesCompleted(i + 1, extra);
      AdvancedStep(OrderFlow[i], |OrderFlow| - 1 - i + extra);
    } else {
      AdvancedFixed(OrderFlow[i], extra);
    }
  }

  /** "READY" advances to "COMPLETED"; a second advance changes nothing. */
  lemma ReadyExample()
    ensures NextStatus("READY") == Completed
    ensures NextStatus(NextStatus("READY")) == Completed
  {
    NextStatusSteps(2);
  }

  datatype StatusUpdate = StatusUpdate(orderId: string, status: string)

  predicate HasOrderId(o: Order, orderId: string) {
    o.id == Some(orderId) || o.dbId == Some(orderId)
  }

  /** `advance(orderId)`: the update sent for the first order with that `id`
      or `_id`, or none when no order has it or its status would not change. */
  function AdvanceRequest(orders: seq<Order>, orderId: string): (r: Option<StatusUpdate>)
    ensures r.None? <==>
      match Find(orders, o => HasOrderId(o, orderId))
      case None => true
      case Some(o) => NextStatus(o.status) == o.status
    ensures r.Some? ==>
      exists i | 0 <= i < |orders| ::
        HasOrderId(orders[i], orderId) &&
        (forall j | 0 <= j < i :: !HasOrderId(orders[j], orderId)) &&
        r.value == StatusUpdate(orderId, NextStatus(orders[i].status)) &&
        r.value.status != orders[i].status
  {
    match Find(orders, o => HasOrderId(o, orderId))
    case None => None
    case Some(o) =>
      var nxt := NextStatus(o.status);
      if nxt == o.status then None else Some(StatusUpdate(orderId, nxt))
  }

  /** Completed orders, and orders in a status outside the flow, are never updated. */
  lemma AdvanceNeverFromCompleted(orders: seq<Order>, orderId: string)
    requires forall i | 0 <= i < |orders| :: orders[i].status == Completed || orders[i].status !in OrderFlow
    ensures AdvanceRequest(orders, orderId).None?
  {
    match Find(orders, o => HasOrderId(o, orderId))
    case None =>
    case Some(o) =>
      assert o in orders;
  }

  // ---------------------------------------------------------------------
  // Schedules and the quick filters

  /** `new Date(iso).toISOString().slice(0, 10)` on a canonical UTC timestamp. */
  function DateKey(iso: string): (r: string)
    ensures |r| == if |iso| < 10 then |iso| else 10
    ensures StartsWith(iso, r)
  {
    if |iso| < 10 then iso else iso[..10]
  }

  predicate Present(s: Option<string>) {
    s.Some? && s.value != ""
  }

  /** `orderHasSchedule`: a non-empty `scheduledDateTime` or `schedule.date`. */
  predicate HasSchedule(o: Order) {
    Present(o.scheduledDateTime) || Present(o.scheduleDate)
  }

  /** `getScheduleDateKey`: the date of `scheduledDateTime`, else `schedule.date`, else `null`. */
  function ScheduleDateKey(o: Order): (r: Option<string>)
    ensures r.Some? <==> HasSchedule(o)
    ensures Present(o.scheduledDateTime) ==> r == Some(DateKey(o.scheduledDateTime.value))
    ensures !Present(o.scheduledDateTime) && Present(o.scheduleDate) ==> r == o.scheduleDate
  {
    if Present(o.scheduledDateTime) then Some(DateKey(o.scheduledDateTime.value))
    else if Present(o.scheduleDate) then o.scheduleDate
    else None
  }

  predicate IsClosed(o: Order) {
    o.status == Completed || o.status == Cancelled
  }

  /** `isScheduledForToday`, with today's UTC date key as a parameter. */
  predicate ScheduledForToday(o: Order, today: string) {
    match ScheduleDateKey(o)
    case None => false
    case Some(d) => d != "" && d == today
  }

  /** `isDueToday`: open orders scheduled for today, and open unscheduled
      orders created today. */
  predicate DueToday(o: Order, today: string) {
    !IsClosed(o) &&
    (ScheduledForToday(o, today) || (!HasSchedule(o) && DateKey(o.createdAt) == today))
  }

  /** `orderHasBulkPerDish`: some line has more than 12 of a dish. */
  predicate IsBulk(o: Order) {
    exists i | 0 <= i < |o.items| :: o.items[i].qty > 12.0
  }

  /** The quick filter buttons ("NONE" and any other value keep every order). */
  predicate QuickOk(quick: string, today: string, o: Order) {
    if quick == "TODAY" then DueToday(o, today)
    else if quick == "SCHEDULED" then !IsClosed(o) && HasSchedule(o)
    else if quick == "BULK" then !IsClosed(o) && IsBulk(o)
    else if quick == "COMPLETED" then o.status == Completed
    else true
  }

  /** An order scheduled for another day is not due today, whatever its creation date. */
  lemma ScheduledElsewhereNotDue(o: Order, today: string)
    requires HasSchedule(o) && ScheduleDateKey(o) != Some(today)
    ensures !DueToday(o, today)
  {
  }

  /** The "SCHEDULED", "BULK" and "TODAY" buttons never show a completed or cancelled order. */
  lemma QuickFiltersSkipClosed(quick: string, today: string, o: Order)
    requires quick in {"TODAY", "SCHEDULED", "BULK"} && IsClosed(o)
    ensures !QuickOk(quick, today, o)
  {
  }

  // ---------------------------------------------------------------------
  // The list pipeline

  /** The filter controls. `fromStart` is `startOfDayISO(from)` and `toEnd`
      is `endOfDayISO(to)`, both absent when the date field is empty. */
  datatype FilterSettings = FilterSettings(quick: string, status: string, zoneId: string,
                                           productId: string, fromStart: Option<string>,
                                           toEnd: Option<string>, q: string, sort: string)

  predicate StatusOk(f: FilterSettings, o: Order) {
    f.status == "ALL" || o.status == f.status
  }

  /** The zone filter: an unknown zone id filters nothing; otherwise some
      keyword of the zone occurs in the address (active or not). */
  predicate ZoneOk(f: FilterSettings, zones: seq<Zone>, o: Order) {
    f.zoneId == "ALL" ||
    match Find(zones, (z: Zone) => z.id == f.zoneId)
    case None => true
    case Some(z) => HasKeywordIn(AddressText(o.deliveryAddress), z)
  }

  /** Some line of `items` is for the product. */
  predicate ItemsMention(items: seq<OrderItem>, productId: string) {
    exists i | 0 <= i < |items| :: items[i].productId == productId
  }

  predicate HasProduct(o: Order, productId: string) {
    ItemsMention(o.items, productId)
  }

  predicate ProductOk(f: FilterSettings, o: Order) {
    f.productId == "ALL" || HasProduct(o, f.productId)
  }

  /** The date bounds, compared as strings. */
  predicate DatesOk(f: FilterSettings, o: Order) {
    (f.fromStart.None? || LexLe(f.fromStart.value, o.createdAt)) &&
    (f.toEnd.None? || LexLe(o.createdAt, f.toEnd.value))
  }

  /** `String(o.id || o._id)`. */
  function IdText(o: Order): string {
    if Present(o.id) then o.id.value
    else match o.dbId
      case Some(s) => s
      case None => "undefined"
  }

  function LowerName(it: OrderItem): string {
    Lower(it.productName)
  }

  /** The search box: the lower-cased query occurs in the id, the customer
      name or the space-joined item names. */
  predicate QueryOk(f: FilterSettings, o: Order) {
    var low := Lower(f.q);
    f.q == "" ||
    Contains(Lower(IdText(o)), low) ||
    Contains(Lower(o.customerName.GetOr("")), low) ||
    Contains(Join(Map(o.items, LowerName), " "), low)
  }

  /** Searching for an order's own id (in any letter case) keeps it. */
  lemma SearchFindsOwnId(f: FilterSettings, o: Order)
    requires Lower(f.q) == Lower(IdText(o))
    ensures QueryOk(f, o)
  {
    var s := Lower(IdText(o));
    ContainsPrefix(s, |s|);
    assert s[..|s|] == s;
  }

  /** Every test of the pipeline at once. */
  predicate Passes(f: FilterSettings, zones: seq<Zone>, today: string, o: Order) {
    QuickOk(f.quick, today, o) && StatusOk(f, o) && ZoneOk(f, zones, o) &&
    ProductOk(f, o) && DatesOk(f, o) && QueryOk(f, o)
  }

  /** The sort order: newest first for "NEWEST", oldest first otherwise. */
  function Before(sort: string): (Order, Order) -> bool {
    if sort == "NEWEST" then (a: Order, b: Order) => LexLe(b.createdAt, a.createdAt)
    else (a: Order, b: Order) => LexLe(a.createdAt, b.createdAt)
  }

  lemma BeforeIsTotalPreorder(sort: string)
    ensures TotalPreorder(Before(sort))
  {
    var le := Before(sort);
    forall a: Order, b: Order
      ensures le(a, b) || le(b, a)
    {
      LexLeTotal(a.createdAt, b.createdAt);
    }
    forall a: Order, b: Order, c: Order | le(a, b) && le(b, c)
      ensures le(a, c)
    {
      if sort == "NEWEST" {
        LexLeTransitive(c.createdAt, b.createdAt, a.createdAt);
      } else {
        LexLeTransitive(a.createdAt, b.createdAt, c.createdAt);
      }
    }
  }

  predicate Unfinished(o: Order) {
    o.status != Completed
  }

  predicate Finished(o: Order) {
    o.status == Completed
  }

  /** The filters in the order the board applies them; a disabled filter
      keeps everything. */
  function FilterChain(orders: seq<Order>, zones: seq<Zone>, f: FilterSettings, today: string): seq<Order> {
    var a1 := Filter(orders, o => QuickOk(f.quick, today, o));
    var a2 := Filter(a1, o => StatusOk(f, o));
    var a3 := Filter(a2, o => ZoneOk(f, zones, o));
    var a4 := Filter(a3, o => ProductOk(f, o));
    var a5 := Filter(a4, o => DatesOk(f, o));
    Filter(a5, o => QueryOk(f, o))
  }

  /** The sort by `createdAt`, then open orders before completed ones. */
  function Arrange(kept: seq<Order>, sort: string): seq<Order> {
    var sorted := SortBy(kept, Before(sort));
    Filter(sorted, Unfinished) + Filter(sorted, Finished)
  }

  /** The `filtered` list. */
  function FilteredOrders(orders: seq<Order>, zones: seq<Zone>, f: FilterSettings, today: string): seq<Order> {
    Arrange(FilterChain(orders, zones, f, today), f.sort)
  }

  /** The successive filters keep exactly the orders that pass every test. */
  lemma FilterStages(orders: seq<Order>, zones: seq<Zone>, f: FilterSettings, today: string)
    ensures FilterChain(orders, zones, f, today) == Filter(orders, o => Passes(f, zones, today, o))
  {
    var p1 := (o: Order) => QuickOk(f.quick, today, o);
    var p2 := (o: Order) => p1(o) && StatusOk(f, o);
    var p3 := (o: Order) => p2(o) && ZoneOk(f, zones, o);
    var p4 := (o: Order) => p3(o) && ProductOk(f, o);
    var p5 := (o: Order) => p4(o) && DatesOk(f, o);
    var p6 := (o: Order) => Passes(f, zones, today, o);
    FilterFilter(orders, p1, o => StatusOk(f, o), p2);
    FilterFilter(orders, p2, o => ZoneOk(f, zones, o), p3);
    FilterFilter(orders, p3, o => ProductOk(f, o), p4);
    FilterFilter(orders, p4, o => DatesOk(f, o), p5);
    FilterFilter(orders, p5, o => QueryOk(f, o), p6);
  }

  /** Arranging keeps the orders, puts open ones first and keeps each group
      in creation order (newest first for "NEWEST"). */
  lemma ArrangeSpec(kept: seq<Order>, sort: string)
    ensures var r := Arrange(kept, sort);
      multiset(r) == multiset(kept) &&
      (forall i, j | 0 <= i < j < |r| :: Finished(r[i]) ==> Finished(r[j])) &&
      (forall i, j | 0 <= i < j < |r| && Finished(r[i]) == Finished(r[j]) :: Before(sort)(r[i], r[j]))
  {
    var le := Before(sort);
    var sorted := SortBy(kept, le);
    BeforeIsTotalPreorder(sort);
    SortBySorted(kept, le);
    SortedPartition(sorted, Unfinished, Finished, le);
  }

  /** The board shows exactly the orders that pass every filter, each once;
      open orders come before completed ones, and within each group the
      orders are in creation order (newest first for "NEWEST"). */
  lemma FilteredOrdersSpec(orders: seq<Order>, zones: seq<Zone>, f: FilterSettings, today: string)
    ensures var r := FilteredOrders(orders, zones, f, today);
      multiset(r) == multiset(Filter(orders, o => Passes(f, zones, today, o))) &&
      (forall i | 0 <= i < |r| :: Passes(f, zones, today, r[i])) &&
      (forall i, j | 0 <= i < j < |r| :: Finished(r[i]) ==> Finished(r[j])) &&
      (forall i, j | 0 <= i < j < |r| && Finished(r[i]) == Finished(r[j]) :: Before(f.sort)(r[i], r[j]))
  {
    var kept := Filter(orders, o => Passes(f, zones, today, o));
    FilterStages(orders, zones, f, today);
    ArrangeSpec(kept, f.sort);
    PermutedFilterPasses(Arrange(kept, f.sort), orders, o => Passes(f, zones, today, o));
  }

  /** With no filter set, the board shows every order. */
  lemma NoFilterShowsAll(orders: seq<Order>, zones: seq<Zone>, today: string, sort: string)
    ensures var f := FilterSettings("NONE", "ALL", "ALL", "ALL", None, None, "", sort);
      multiset(FilteredOrders(orders, zones, f, today)) == multiset(orders)
  {
    var f := FilterSettings("NONE", "ALL", "ALL", "ALL", None, None, "", sort);
    var p := (o: Order) => Passes(f, zones, today, o);
    forall i | 0 <= i < |orders|
      ensures p(orders[i])
    {
      assert QuickOk(f.quick, today, orders[i]) && ZoneOk(f, zones, orders[i]);
      assert QueryOk(f, orders[i]);
    }
    FilterAllKept(orders, p);
    FilteredOrdersSpec(orders, zones, f, today);
  }

  /** The zone filter ignores the zone's active flag, unlike the fee
      calculation: an inactive zone still selects the orders it names. */
  lemma ZoneFilterIgnoresActive(f: FilterSettings, zones: seq<Zone>, o: Order, z: Zone)
    requires f.zoneId != "ALL" && zones == [z] && z.id == f.zoneId && !z.isActive
    requires HasKeywordIn(AddressText(o.deliveryAddress), z)
    ensures ZoneOk(f, zones, o)
    ensures CalcDeliveryFee(o.deliveryAddress, zones).None?
  {
    assert Find(zones, (w: Zone) => w.id == f.zoneId) == Some(z) by {
      assert zones[0] == z;
    }
  }

  // ---------------------------------------------------------------------
  // Options of the product filter

  /** The items' `map.set(productId, productName)` calls, in order. */
  function PutItems(m: seq<Entry<string, string>>, items: seq<OrderItem>): seq<Entry<string, string>>
    decreases |items|
  {
    if items == [] then m
    else
      var last := items[|items| - 1];
      Put(PutItems(m, items[..|items| - 1]), last.productId, last.productName)
  }

  /** The map built by the nested loops over `orders`. */
  function ProductOptionsOf(orders: seq<Order>): seq<Entry<string, string>>
    decreases |orders|
  {
    if orders == [] then []
    else PutItems(ProductOptionsOf(orders[..|orders| - 1]), orders[|orders| - 1].items)
  }

  predicate MentionsProduct(orders: seq<Order>, id: string) {
    exists i | 0 <= i < |orders| :: HasProduct(orders[i], id)
  }

  lemma ItemsMentionSnoc(items: seq<OrderItem>, id: string)
    requires items != []
    ensures ItemsMention(items, id) <==>
      ItemsMention(items[..|items| - 1], id) || items[|items| - 1].productId == id
  {
    var init := items[..|items| - 1];
    if ItemsMention(init, id) {
      var k :| 0 <= k < |init| && init[k].productId == id;
      assert items[k] == init[k];
    }
    if ItemsMention(items, id) {
      var k :| 0 <= k < |items| && items[k].productId == id;
      if k < |init| {
        assert init[k] == items[k];
      }
    }
  }

  lemma {:induction false} PutItemsKeys(m: seq<Entry<string, string>>, items: seq<OrderItem>, id: string)
    requires DistinctKeys(m)
    ensures DistinctKeys(PutItems(m, items))
    ensures id in Keys(PutItems(m, items)) <==> id in Keys(m) || ItemsMention(items, id)
    decreases |items|
  {
    if items != [] {
      var init, last := items[..|items| - 1], items[|items| - 1];
      PutItemsKeys(m, init, id);
      PutDistinct(PutItems(m, init), last.productId, last.productName);
      ItemsMentionSnoc(items, id);
    }
  }

  /** Each product id appears once among the options, and an id appears
      exactly when some order has a line for it. */
  lemma {:induction false} ProductOptionsKeys(orders: seq<Order>, id: string)
    ensures DistinctKeys(ProductOptionsOf(orders))
    ensures id in Keys(ProductOptionsOf(orders)) <==> MentionsProduct(orders, id)
    decreases |orders|
  {
    if orders != [] {
      var init, last := orders[..|orders| - 1], orders[|orders| - 1];
      ProductOptionsKeys(init, id);
      PutItemsKeys(ProductOptionsOf(init), last.items, id);
      assert MentionsProduct(orders, id) <==> MentionsProduct(init, id) || HasProduct(last, id) by {
        if MentionsProduct(init, id) {
          var k :| 0 <= k < |init| && HasProduct(init[k], id);
          assert orders[k] == init[k];
        }
        if MentionsProduct(orders, id) {
          var k :| 0 <= k < |orders| && HasProduct(orders[k], id);
          if k < |init| {
            assert init[k] == orders[k];
          }
        }
      }
    }
  }

  /** The name on the last line, among `items`, for product `id`. */
  function LastItemName(items: seq<OrderItem>, id: string): Option<string>
    decreases |items|
  {
    if items == [] then None
    else if items[|items| - 1].productId == id then Some(items[|items| - 1].productName)
    else LastItemName(items[..|items| - 1], id)
  }

  /** The name on the last line for product `id` over all the orders: the
      last order that has such a line decides. */
  function LastOrderedName(orders: seq<Order>, id: string): Option<string>
    decreases |orders|
  {
    if orders == [] then None
    else if LastItemName(orders[|orders| - 1].items, id).Some? then LastItemName(orders[|orders| - 1].items, id)
    else LastOrderedName(orders[..|orders| - 1], id)
  }

  /** After the `set` calls, a product shows the name of its last line, or
      the name it had before when no line names it. */
  lemma {:induction false} PutItemsGet(m: seq<Entry<string, string>>, items: seq<OrderItem>, id: string)
    requires DistinctKeys(m)
    ensures Get(PutItems(m, items), id) ==
            if LastItemName(items, id).Some? then LastItemName(items, id) else Get(m, id)
    decreases |items|
  {
    if items != [] {
      var init, last := items[..|items| - 1], items[|items| - 1];
      PutItemsGet(m, init, id);
      PutItemsKeys(m, init, id);
      PutGet(PutItems(m, init), last.productId, last.productName, id);
    }
  }

  /** Each option shows the name of the last line for its id: a later
      `set` overwrites an earlier one. */
  lemma {:induction false} ProductOptionsGet(orders: seq<Order>, id: string)
    ensures Get(ProductOptionsOf(orders), id) == LastOrderedName(orders, id)
    decreases |orders|
  {
    if orders != [] {
      var init := orders[..|orders| - 1];
      ProductOptionsGet(init, id);
      ProductOptionsKeys(init, id);
      PutItemsGet(ProductOptionsOf(init), orders[|orders| - 1].items, id);
    }
  }

  /** `productOptions`: the nested `forEach` loops filling the map. */
  method ProductOptions(orders: seq<Order>) returns (options: seq<Entry<string, string>>)
    ensures options == ProductOptionsOf(orders)
    ensures DistinctKeys(options)
    ensures forall id :: id in Keys(options) <==> MentionsProduct(orders, id)
    ensures forall id :: Get(options, id) == LastOrderedName(orders, id)
  {
    var m: seq<Entry<string, string>> := [];
    var i := 0;
    while i < |orders|
      invariant 0 <= i <= |orders|
      invariant m == ProductOptionsOf(orders[..i])
    {
      var items := orders[i].items;
      var base := m;
      var j := 0;
      while j < |items|
        invariant 0 <= j <= |items|
        invariant m == PutItems(base, items[..j])
      {
        assert items[..j + 1][..j] == items[..j];
        m := Put(m, items[j].productId, items[j].productName);
        j := j + 1;
      }
      assert items[..j] == items;
      assert orders[..i + 1][..i] == orders[..i];
      i := i + 1;
    }
    assert orders[..i] == orders;
    options := m;
    forall id
      ensures id in Keys(options) <==> MentionsProduct(orders, id)
    {
      ProductOptionsKeys(orders, id);
    }
    forall id
      ensures Get(options, id) == LastOrderedName(orders, id)
    {
      ProductOptionsGet(orders, id);
    }
    ProductOptionsKeys(orders, "");
  }

  // ---------------------------------------------------------------------
  // Expanded rows

  /** `toggleExpanded`: flips membership of `id` and nothing else. */
  function Toggle(s: set<string>, id: string): (r: set<string>)
    ensures id in r <==> id !in s
    ensures forall x :: x != id ==> (x in r <==> x in s)
  {
    if id in s then s - {id} else s + {id}
  }

  lemma ToggleTwice(s: set<string>, id: string)
    ensures Toggle(Toggle(s, id), id) == s
  {
  }

  // ---------------------------------------------------------------------
  // The shop switch

  /** The page's shop flag after reading the store on first render. */
  function LoadedShopOpen(prev: bool, m: map<string, string>): bool {
    match GetItem(m, ShopOpenKey)
    case None => prev
    case Some(v) => v == "true"
  }

  function LoadedCloseMsg(prev: string, m: map<string, string>): string {
    match GetItem(m, CloseMsgKey)
    case Some(v) => if v != "" then v else prev
    case None => prev
  }

  /** Starting from its initial state, the page reads the shop-open flag as
      the storefront does. It shows the stored message when that is
      non-empty, exactly as the storefront's `CloseMessage`; otherwise it
      keeps its empty message where the storefront falls back to the default. */
  lemma LoadedAgreesWithStorefront(m: map<string, string>)
    ensures LoadedShopOpen(true, m) == ShopOpen(m)
    ensures CloseMsgKey in m && m[CloseMsgKey] != "" ==>
              LoadedCloseMsg("", m) == m[CloseMsgKey] == CloseMessage(m)
    ensures !(CloseMsgKey in m && m[CloseMsgKey] != "") ==>
              LoadedCloseMsg("", m) == "" && CloseMessage(m) == DefaultCloseMsg
  {
  }

  /** The store after `confirmCloseShop` with message `msg` on the day keyed `today`. */
  function AfterCloseShop(m: map<string, string>, msg: string, today: string): map<string, string> {
    m[ShopOpenKey := "false"][CloseMsgKey := msg] - {PopupShownKey(today)}
  }

  /** Closing the shop re-arms today's popup: the next visitor sees the new
      message, or the default one when it is empty. */
  lemma CloseShopRearmsPopup(m: map<string, string>, msg: string, today: string)
    ensures !ShopOpen(AfterCloseShop(m, msg, today))
    ensures CartStore.PopupDecision(false, AfterCloseShop(m, msg, today), today) ==
            CartStore.ShowPopup(if msg != "" then msg else DefaultCloseMsg)
  {
    var m2 := AfterCloseShop(m, msg, today);
    assert GetItem(m2, ShopOpenKey) == Some("false");
    assert GetItem(m2, CloseMsgKey) == Some(msg);
  }

  /** Reopening the shop hides the popup for every visitor. */
  lemma ReopenHidesPopup(m: map<string, string>, today: string)
    ensures ShopOpen(m[ShopOpenKey := "true"])
    ensures CartStore.PopupDecision(false, m[ShopOpenKey := "true"], today) == CartStore.HidePopup
  {
  }

  /** The board's state. */
  class OrdersPage {
    var shopOpen: bool
    var closeModalOpen: bool
    var closeMsg: string
    var expanded: set<string>
    const store: KeyValueStore

    constructor(store: KeyValueStore)
      ensures this.store == store
      ensures shopOpen && !closeModalOpen && closeMsg == "" && expanded == {}
    {
      this.store := store;
      shopOpen := true;
      closeModalOpen := false;
      closeMsg := "";
      expanded := {};
    }

    /** The first-render effect reading the shop settings. */
    method LoadSettings()
      modifies this
      ensures shopOpen == LoadedShopOpen(old(shopOpen), store.entries)
      ensures closeMsg == LoadedCloseMsg(old(closeMsg), store.entries)
      ensures closeModalOpen == old(closeModalOpen) && expanded == old(expanded)
    {
      var v := store.Get(ShopOpenKey);
      if v.Some? {
        shopOpen := v.value == "true";
      }
      var m := store.Get(CloseMsgKey);
      if m.Some? && m.value != "" {
        closeMsg := m.value;
      }
    }

    method ToggleExpanded(id: string)
      modifies this
      ensures expanded == Toggle(old(expanded), id)
      ensures shopOpen == old(shopOpen) && closeModalOpen == old(closeModalOpen) && closeMsg == old(closeMsg)
    {
      expanded := Toggle(expanded, id);
    }

    /** `toggleShop`: an open shop asks for a closing message first; a
        closed shop reopens at once. */
    method ToggleShop()
      modifies this, store
      ensures old(shopOpen) ==> closeModalOpen && shopOpen && store.entries == old(store.entries)
      ensures !old(shopOpen) ==> shopOpen && closeModalOpen == old(closeModalOpen) &&
                                 store.entries == old(store.entries)[ShopOpenKey := "true"]
      ensures closeMsg == old(closeMsg) && expanded == old(expanded)
    {
      if shopOpen {
        closeModalOpen := true;
      } else {
        shopOpen := true;
        store.Set(ShopOpenKey, "true");
      }
    }

    method SetCloseMsg(msg: string)
      modifies this
      ensures closeMsg == msg
      ensures shopOpen == old(shopOpen) && closeModalOpen == old(closeModalOpen) && expanded == old(expanded)
    {
      closeMsg := msg;
    }

    /** `confirmCloseShop` on the day keyed `today`. */
    method ConfirmCloseShop(today: string)
      modifies this, store
      ensures !shopOpen && !closeModalOpen
      ensures store.entries == AfterCloseShop(old(store.entries), closeMsg, today)
      ensures closeMsg == old(closeMsg) && expanded == old(expanded)
    {
      shopOpen := false;
      store.Set(ShopOpenKey, "false");
      store.Set(CloseMsgKey, closeMsg);
      store.Remove(PopupShownKey(today));
      closeModalOpen := false;
    }
  }
}
