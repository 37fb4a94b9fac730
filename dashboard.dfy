/** The sales dashboard of src/pages/staff/StaffDashboard.jsx: which orders
    count, the KPI loops, the best seller, and the two bucketed series
    (sales by time bucket and sales by category). */
module Dashboard {
  import opened Wrappers
  import opened Seqs
  import opened Text
  import opened JsValues
  import opened AssocLists
  import opened Delivery
  import opened Catalog
  import opened Schedule
  import opened Orders

  // ---------------------------------------------------------------------
  // Time buckets

  /** The local calendar reading of a timestamp (`getFullYear`, `getMonth() + 1`,
      `getDate`, `getHours`); the time zone is outside the model. */
  datatype LocalTime = LocalTime(year: int, month: int, day: int, hour: int)

  /** `getDay()` of a day number counted from 1970-01-01, a Thursday; 0 is Sunday. */
  function Weekday(dayNumber: int): (r: int)
    ensures 0 <= r < 7
  {
    (dayNumber + 4) % 7
  }

  /** `Math.floor((day + offset - 1) / 7) + 1`, with `offset` the weekday of the 1st. */
  function WeekOfMonth(day: int, offset: int): int {
    (day + offset - 1) / 7 + 1
  }

  /** Weeks run from 1 to 6, the 1st is always in week 1, and a week later
      is the next week. */
  lemma WeekOfMonthBounds(day: int, offset: int)
    requires 1 <= day <= 31 && 0 <= offset < 7
    ensures 1 <= WeekOfMonth(day, offset) <= 6
    ensures day == 1 ==> WeekOfMonth(day, offset) == 1
    ensures WeekOfMonth(day + 7, offset) == WeekOfMonth(day, offset) + 1
  {
  }

  function WeekIndex(t: LocalTime): int {
    WeekOfMonth(t.day, Weekday(LocalDay(t.year, t.month - 1, 1)))
  }

  /** `weekOfMonthKey`: "YYYY-MM-Wn". */
  function WeekOfMonthKey(t: LocalTime): string {
    IntToString(t.year) + "-" + PadStart2(IntToString(t.month)) + "-W" + IntToString(WeekIndex(t))
  }

  /** `groupKey`: the UTC date with the local hour for "today"/"daily", the
      UTC date for "weekly", the week of the month for "monthly", and the
      local year and month otherwise. */
  function GroupKey(createdAt: string, t: LocalTime, groupBy: string): string {
    if groupBy == "today" || groupBy == "daily" then DateKey(createdAt) + " " + PadStart2(IntToString(t.hour)) + ":00"
    else if groupBy == "weekly" then DateKey(createdAt)
    else if groupBy == "monthly" then WeekOfMonthKey(t)
    else IntToString(t.year) + "-" + PadStart2(IntToString(t.month))
  }

  /** Hourly keys of one date sort in hour order, so the ascending trend is chronological. */
  lemma HourlyKeysChronological(c1: string, c2: string, t1: LocalTime, t2: LocalTime, groupBy: string)
    requires groupBy == "today" || groupBy == "daily"
    requires DateKey(c1) == DateKey(c2) && 0 <= t1.hour < t2.hour < 24
    ensures LexLe(GroupKey(c1, t1, groupBy), GroupKey(c2, t2, groupBy))
    ensures GroupKey(c1, t1, groupBy) != GroupKey(c2, t2, groupBy)
  {
    var p := DateKey(c1) + " ";
    assert GroupKey(c1, t1, groupBy) == p + HourLabel(t1.hour);
    assert GroupKey(c2, t2, groupBy) == p + HourLabel(t2.hour);
    HourLabelOrder(t1.hour, t2.hour);
    LexLeCommonPrefix(p, HourLabel(t1.hour), HourLabel(t2.hour));
    assert (p + HourLabel(t1.hour))[|p|..] == HourLabel(t1.hour);
    assert (p + HourLabel(t2.hour))[|p|..] == HourLabel(t2.hour);
  }

  /** The week part of a monthly key lies in 1..6. */
  lemma MonthlyWeekInRange(t: LocalTime)
    requires 1 <= t.day <= 31
    ensures 1 <= WeekIndex(t) <= 6
    ensures t.day == 1 ==> WeekIndex(t) == 1
  {
    WeekOfMonthBounds(t.day, Weekday(LocalDay(t.year, t.month - 1, 1)));
  }

  // ---------------------------------------------------------------------
  // Categories

  /** `inferCategory`: the first rule that matches the lower-cased name wins. */
  function InferCategory(productName: string): (r: string)
    ensures r in {"Drinks", "Rice", "Dessert", "Other"}
    ensures var n := Lower(productName);
      (r == "Drinks" <==> Contains(n, "tea") || Contains(n, "drink")) &&
      (r == "Rice" <==> !(Contains(n, "tea") || Contains(n, "drink")) && Contains(n, "rice")) &&
      (r == "Dessert" <==> !(Contains(n, "tea") || Contains(n, "drink")) && !Contains(n, "rice") &&
                           (Contains(n, "brownie") || Contains(n, "dessert")))
  {
    var n := Lower(productName);
    if Contains(n, "tea") || Contains(n, "drink") then "Drinks"
    else if Contains(n, "rice") then "Rice"
    else if Contains(n, "brownie") || Contains(n, "dessert") then "Dessert"
    else "Other"
  }

  /** The rules ignore case. */
  lemma InferCategoryIgnoresCase(productName: string)
    ensures InferCategory(Lower(productName)) == InferCategory(productName)
  {
    LowerIdempotent(productName);
  }

  /** A name matching several rules takes the earliest: "Rice Tea" is a drink. */
  lemma InferCategoryPriority()
    ensures InferCategory("Rice Tea") == "Drinks"
    ensures InferCategory("Fried Rice") == "Rice"
  {
    assert Lower("Rice Tea") == "rice tea";
    assert OccursAt("rice tea", "tea", 5);
    var n := Lower("Fried Rice");
    assert n == "fried rice";
    assert OccursAt(n, "rice", 6);
    assert !Contains(n, "tea") by {
      forall i | 0 <= i <= |n| - 3
        ensures !OccursAt(n, "tea", i)
      {
        assert n[i..i + 3][0] == n[i];
      }
    }
    assert !Contains(n, "drink") by {
      forall i | 0 <= i <= |n| - 5
        ensures !OccursAt(n, "drink", i)
      {
        assert n[i..i + 5][0] == n[i] && n[i..i + 5][1] == n[i + 1];
      }
    }
  }

  /** The rules match substrings, not words: a steak is counted as a drink. */
  lemma SteakCountsAsDrink()
    ensures InferCategory("Beef Steak") == "Drinks"
  {
    assert Lower("Beef Steak") == "beef steak";
    assert OccursAt("beef steak", "tea", 6);
  }

  /** The category of a sold line: the catalog product's non-empty category,
      else the inferred one. */
  function CategoryOf(products: seq<Product>, it: OrderItem): (r: string)
    ensures r != ""
    ensures match FindProduct(products, it.productId)
      case Some(p) => if p.category != "" then r == p.category else r == InferCategory(it.productName)
      case None => r == InferCategory(it.productName)
  {
    match FindProduct(products, it.productId)
    case Some(p) => if p.category != "" then p.category else InferCategory(it.productName)
    case None => InferCategory(it.productName)
  }

  // ---------------------------------------------------------------------
  // Which orders count

  datatype DashSettings = DashSettings(groupBy: string, zoneId: string, productId: string,
                                       fromStart: Option<string>, toEnd: Option<string>)

  /** The zone, product and date controls in the form the order board uses. */
  function AsOrderFilter(s: DashSettings): FilterSettings {
    FilterSettings("NONE", "ALL", s.zoneId, s.productId, s.fromStart, s.toEnd, "", "NEWEST")
  }

  /** "today" keeps only orders created between today's start and end
      (`todayStart`, `todayEnd`: `startOfDayISO`/`endOfDayISO` of today). */
  predicate InTodayRange(s: DashSettings, todayStart: string, todayEnd: string, o: Order) {
    s.groupBy != "today" || (LexLe(todayStart, o.createdAt) && LexLe(o.createdAt, todayEnd))
  }

  /** The date bounds apply only outside "today". */
  predicate DashDatesOk(s: DashSettings, o: Order) {
    s.groupBy == "today" || DatesOk(AsOrderFilter(s), o)
  }

  predicate Counts(s: DashSettings, zones: seq<Zone>, todayStart: string, todayEnd: string, o: Order) {
    Finished(o) && InTodayRange(s, todayStart, todayEnd, o) && ZoneOk(AsOrderFilter(s), zones, o) &&
    ProductOk(AsOrderFilter(s), o) && DashDatesOk(s, o)
  }

  /** `completedBase` and then `filtered`, in the order the dashboard applies them. */
  function DashFiltered(orders: seq<Order>, zones: seq<Zone>, s: DashSettings, todayStart: string, todayEnd: string): seq<Order> {
    var a0 := Filter(orders, Finished);
    var a1 := Filter(a0, o => InTodayRange(s, todayStart, todayEnd, o));
    var a2 := Filter(a1, o => ZoneOk(AsOrderFilter(s), zones, o));
    var a3 := Filter(a2, o => ProductOk(AsOrderFilter(s), o));
    Filter(a3, o => DashDatesOk(s, o))
  }

  /** The dashboard counts exactly the completed orders passing the controls,
      in list order; with "today" they were all created today. */
  lemma DashFilteredSpec(orders: seq<Order>, zones: seq<Zone>, s: DashSettings, todayStart: string, todayEnd: string)
    ensures DashFiltered(orders, zones, s, todayStart, todayEnd) ==
            Filter(orders, o => Counts(s, zones, todayStart, todayEnd, o))
    ensures var r := DashFiltered(orders, zones, s, todayStart, todayEnd);
      IsSubsequence(r, orders) &&
      forall i | 0 <= i < |r| :: r[i].status == Completed &&
        (s.groupBy == "today" ==> LexLe(todayStart, r[i].createdAt) && LexLe(r[i].createdAt, todayEnd))
  {
    var p1 := (o: Order) => Finished(o) && InTodayRange(s, todayStart, todayEnd, o);
    var p2 := (o: Order) => p1(o) && ZoneOk(AsOrderFilter(s), zones, o);
    var p3 := (o: Order) => p2(o) && ProductOk(AsOrderFilter(s), o);
    var p4 := (o: Order) => Counts(s, zones, todayStart, todayEnd, o);
    FilterFilter(orders, Finished, o => InTodayRange(s, todayStart, todayEnd, o), p1);
    FilterFilter(orders, p1, o => ZoneOk(AsOrderFilter(s), zones, o), p2);
    FilterFilter(orders, p2, o => ProductOk(AsOrderFilter(s), o), p3);
    FilterFilter(orders, p3, o => DashDatesOk(s, o), p4);
    FilterSubsequence(orders, p4);
  }

  // ---------------------------------------------------------------------
  // KPIs

  function Amount(o: Order): real {
    o.totalAmount
  }

  /** `Number(prod.costToMake || 0)` of the catalog product, 0 when it is not in the catalog. */
  function LiveCost(products: seq<Product>, productId: string): real {
    match FindProduct(products, productId)
    case Some(p) => p.costToMake
    case None => 0.0
  }

  function ItemLiveCostFn(products: seq<Product>): OrderItem -> real {
    (it: OrderItem) => LiveCost(products, it.productId) * it.qty
  }

  function OrderLiveCostFn(products: seq<Product>): Order -> real {
    (o: Order) => SumBy(o.items, ItemLiveCostFn(products))
  }

  /** Σ over the counted orders' lines of live cost times quantity. */
  function TotalLiveCost(products: seq<Product>, orders: seq<Order>): real {
    SumBy(orders, OrderLiveCostFn(products))
  }

  /** The `totalCost` loops. */
  method SumLiveCost(orders: seq<Order>, products: seq<Product>) returns (totalCost: real)
    ensures totalCost == TotalLiveCost(products, orders)
  {
    totalCost := 0.0;
    var i := 0;
    while i < |orders|
      invariant 0 <= i <= |orders|
      invariant totalCost == SumBy(orders[..i], OrderLiveCostFn(products))
    {
      var items := orders[i].items;
      var j := 0;
      while j < |items|
        invariant 0 <= j <= |items|
        invariant totalCost == SumBy(orders[..i], OrderLiveCostFn(products)) + SumBy(items[..j], ItemLiveCostFn(products))
      {
        SumByPrefix(items, j, ItemLiveCostFn(products));
        totalCost := totalCost + LiveCost(products, items[j].productId) * items[j].qty;
        j := j + 1;
      }
      assert items[..j] == items;
      SumByPrefix(orders, i, OrderLiveCostFn(products));
      i := i + 1;
    }
    assert orders[..i] == orders;
  }

  /** Every line recorded the catalog's current cost. */
  predicate RecordsLiveCosts(products: seq<Product>, items: seq<OrderItem>) {
    forall i | 0 <= i < |items| :: items[i].unitCostAtSale == Some(LiveCost(products, items[i].productId))
  }

  lemma RecordedIsLive(products: seq<Product>, items: seq<OrderItem>)
    requires RecordsLiveCosts(products, items)
    ensures CostsRecorded(items)
    ensures SumBy(items, RecordedCost) == SumBy(items, ItemLiveCostFn(products))
  {
    forall i | 0 <= i < |items|
      ensures RecordedCost(items[i]) == ItemLiveCostFn(products)(items[i])
    {
      var c := LiveCost(products, items[i].productId);
      assert items[i].unitCostAtSale == Some(c);
    }
    SumBySame(items, RecordedCost, ItemLiveCostFn(products));
  }

  /** When every line recorded the catalog's current cost, the live cost is
      the recorded cost of `calcOrderCost`. */
  lemma LiveCostMatchesRecorded(products: seq<Product>, o: Order)
    requires RecordsLiveCosts(products, o.items)
    ensures TotalCost(o.items) == Finite(OrderLiveCostFn(products)(o))
  {
    RecordedIsLive(products, o.items);
    TotalCostIff(o.items);
  }

  function ItemsOf(o: Order): seq<OrderItem> {
    o.items
  }

  function ItemName(it: OrderItem): string {
    it.productName
  }

  function ItemQty(it: OrderItem): real {
    it.qty
  }

  /** `qtyByProduct`: summed quantity per product name, names in first-sale order. */
  function QtyByName(orders: seq<Order>): seq<Entry<string, real>> {
    AccumulateNested([], orders, ItemsOf, ItemName, ItemQty)
  }

  /** Each name appears once, the buckets hold all the quantity sold, and
      each name's bucket holds the quantity of its own lines. */
  lemma QtyByNameFacts(orders: seq<Order>, name: string)
    ensures DistinctKeys(QtyByName(orders))
    ensures SumValues(QtyByName(orders)) == SumBy(orders, InnerSum(ItemsOf, ItemQty))
    ensures name in Keys(QtyByName(orders)) <==> InnerKeyOfSome(orders, ItemsOf, ItemName, name)
    ensures Get(QtyByName(orders), name) ==
            if InnerKeyOfSome(orders, ItemsOf, ItemName, name)
            then Some(SumBy(orders, InnerKeySum(ItemsOf, ItemName, ItemQty, name)))
            else None
  {
    AccumulateNestedDistinct([], orders, ItemsOf, ItemName, ItemQty);
    AccumulateNestedSum([], orders, ItemsOf, ItemName, ItemQty);
    AccumulateNestedKeys([], orders, ItemsOf, ItemName, ItemQty, name);
    AccumulateNestedEmptyGet(orders, ItemsOf, ItemName, ItemQty, name);
  }

  /** The `qtyByProduct` loops. */
  method QtyByProduct(orders: seq<Order>) returns (m: seq<Entry<string, real>>)
    ensures m == QtyByName(orders)
  {
    m := [];
    var i := 0;
    while i < |orders|
      invariant 0 <= i <= |orders|
      invariant m == AccumulateNested([], orders[..i], ItemsOf, ItemName, ItemQty)
    {
      var items := orders[i].items;
      var base := m;
      var j := 0;
      while j < |items|
        invariant 0 <= j <= |items|
        invariant m == Accumulate(base, items[..j], ItemName, ItemQty)
      {
        assert items[..j + 1][..j] == items[..j];
        m := AddTo(m, items[j].productName, items[j].qty);
        j := j + 1;
      }
      assert items[..j] == items;
      assert orders[..i + 1][..i] == orders[..i];
      i := i + 1;
    }
    assert orders[..i] == orders;
  }

  /** The best-seller rule: "-" when no bucket exceeds the starting mark of
      -1; otherwise the first name, in insertion order, with the largest quantity. */
  ghost predicate IsBestSeller(m: seq<Entry<string, real>>, best: string) {
    if forall j | 0 <= j < |m| :: m[j].value <= -1.0 then best == "-"
    else exists k | 0 <= k < |m| ::
      best == m[k].key &&
      (forall j | 0 <= j < |m| :: m[j].value <= m[k].value) &&
      (forall j | 0 <= j < k :: m[j].value < m[k].value)
  }

  /** The `bestSeller` loop: keeps a name only on a strictly larger quantity. */
  method BestSeller(m: seq<Entry<string, real>>) returns (best: string)
    ensures IsBestSeller(m, best)
  {
    best := "-";
    var bestQty := -1.0;
    ghost var at := -1;
    var i := 0;
    while i < |m|
      invariant 0 <= i <= |m|
      invariant -1 <= at < i
      invariant at == -1 ==> best == "-" && bestQty == -1.0 && forall j | 0 <= j < i :: m[j].value <= -1.0
      invariant at >= 0 ==>
        best == m[at].key && bestQty == m[at].value && bestQty > -1.0 &&
        (forall j | 0 <= j < i :: m[j].value <= bestQty) &&
        (forall j | 0 <= j < at :: m[j].value < bestQty)
    {
      if m[i].value > bestQty {
        bestQty := m[i].value;
        best := m[i].key;
        at := i;
      }
      i := i + 1;
    }
  }

  /** The rule picks one name. */
  lemma BestSellerUnique(m: seq<Entry<string, real>>, a: string, b: string)
    requires IsBestSeller(m, a) && IsBestSeller(m, b)
    ensures a == b
  {
    if !forall j | 0 <= j < |m| :: m[j].value <= -1.0 {
      var k1 :| 0 <= k1 < |m| && a == m[k1].key &&
        (forall j | 0 <= j < |m| :: m[j].value <= m[k1].value) &&
        (forall j | 0 <= j < k1 :: m[j].value < m[k1].value);
      var k2 :| 0 <= k2 < |m| && b == m[k2].key &&
        (forall j | 0 <= j < |m| :: m[j].value <= m[k2].value) &&
        (forall j | 0 <= j < k2 :: m[j].value < m[k2].value);
    }
  }

  /** Ties go to the name sold first; nothing sold shows "-". */
  lemma BestSellerExamples(best: string, none: string)
    requires IsBestSeller([Entry("Pad Thai", 3.0), Entry("Green Curry", 3.0)], best)
    requires IsBestSeller([], none)
    ensures best == "Pad Thai" && none == "-"
  {
    var m := [Entry("Pad Thai", 3.0), Entry("Green Curry", 3.0)];
    assert m[0].value > -1.0;
    assert m[1].value <= m[0].value;
  }

  datatype Kpis = Kpis(totalOrders: nat, totalSales: real, totalCost: real, totalRevenue: real, bestSeller: string)

  /** `kpis` of the counted orders. */
  method ComputeKpis(filtered: seq<Order>, products: seq<Product>) returns (k: Kpis)
    ensures k.totalOrders == |filtered|
    ensures k.totalSales == SumBy(filtered, Amount)
    ensures k.totalCost == TotalLiveCost(products, filtered)
    ensures k.totalRevenue == k.totalSales - k.totalCost
    ensures IsBestSeller(QtyByName(filtered), k.bestSeller)
  {
    var totalSales := SumBy(filtered, Amount);
    var totalCost := SumLiveCost(filtered, products);
    var qty := QtyByProduct(filtered);
    var best := BestSeller(qty);
    k := Kpis(|filtered|, totalSales, totalCost, totalSales - totalCost, best);
  }

  // ---------------------------------------------------------------------
  // Sales trend and sales by category

  function TrendKeyFn(local: string -> LocalTime, groupBy: string): Order -> string {
    (o: Order) => GroupKey(o.createdAt, local(o.createdAt), groupBy)
  }

  function KeyOrder(): (Entry<string, real>, Entry<string, real>) -> bool {
    (a: Entry<string, real>, b: Entry<string, real>) => LexLe(a.key, b.key)
  }

  function ValueDescending(): (Entry<string, real>, Entry<string, real>) -> bool {
    (a: Entry<string, real>, b: Entry<string, real>) => b.value <= a.value
  }

  lemma KeyOrderIsTotalPreorder()
    ensures TotalPreorder(KeyOrder())
  {
    var le := KeyOrder();
    forall a: Entry<string, real>, b: Entry<string, real>
      ensures le(a, b) || le(b, a)
    {
      LexLeTotal(a.key, b.key);
    }
    forall a: Entry<string, real>, b: Entry<string, real>, c: Entry<string, real> | le(a, b) && le(b, c)
      ensures le(a, c)
    {
      LexLeTransitive(a.key, b.key, c.key);
    }
  }

  /** `salesTrend`: one bucket per distinct group key, with that bucket's
      order totals, sorted by key. */
  method SalesTrend(filtered: seq<Order>, local: string -> LocalTime, groupBy: string)
    returns (trend: seq<Entry<string, real>>)
    ensures multiset(trend) == multiset(Accumulate([], filtered, TrendKeyFn(local, groupBy), Amount))
    ensures DistinctKeys(trend) && Sorted(trend, KeyOrder())
    ensures SumValues(trend) == SumBy(filtered, Amount)
    ensures forall k :: k in Keys(trend) <==> KeyOfSome(filtered, TrendKeyFn(local, groupBy), k)
    ensures forall k :: Get(trend, k) ==
              if KeyOfSome(filtered, TrendKeyFn(local, groupBy), k)
              then Some(KeySum(filtered, TrendKeyFn(local, groupBy), Amount, k))
              else None
  {
    var key := TrendKeyFn(local, groupBy);
    var m: seq<Entry<string, real>> := [];
    var i := 0;
    while i < |filtered|
      invariant 0 <= i <= |filtered|
      invariant m == Accumulate([], filtered[..i], key, Amount)
    {
      assert filtered[..i + 1][..i] == filtered[..i];
      var o := filtered[i];
      var k := GroupKey(o.createdAt, local(o.createdAt), groupBy);
      m := AddTo(m, k, o.totalAmount);
      i := i + 1;
    }
    assert filtered[..i] == filtered;
    trend := SortBy(m, KeyOrder());
    AccumulateDistinct([], filtered, key, Amount);
    AccumulateSum([], filtered, key, Amount);
    SortDistinct(m, KeyOrder());
    KeyOrderIsTotalPreorder();
    SortBySorted(m, KeyOrder());
    SortSum(m, KeyOrder());
    forall k
      ensures k in Keys(trend) <==> KeyOfSome(filtered, key, k)
    {
      AccumulateKeys([], filtered, key, Amount, k);
      KeysOfPermutation(trend, m, k);
    }
    forall k
      ensures Get(trend, k) == if KeyOfSome(filtered, key, k) then Some(KeySum(filtered, key, Amount, k)) else None
    {
      SortedAccumulateGet(filtered, key, Amount, KeyOrder(), k);
    }
  }

  function CategoryFn(products: seq<Product>): OrderItem -> string {
    (it: OrderItem) => CategoryOf(products, it)
  }

  function LineAmount(it: OrderItem): real {
    it.unitPrice * it.qty
  }

  /** Σ unit price × quantity over every line of the counted orders. */
  function LineSales(orders: seq<Order>): real {
    SumBy(orders, InnerSum(ItemsOf, LineAmount))
  }

  /** The inner loop of `salesByCategory`: one order's lines added to the map. */
  method AddLines(base: seq<Entry<string, real>>, items: seq<OrderItem>, cat: OrderItem -> string)
    returns (m: seq<Entry<string, real>>)
    ensures m == Accumulate(base, items, cat, LineAmount)
  {
    m := base;
    var j := 0;
    while j < |items|
      invariant 0 <= j <= |items|
      invariant m == Accumulate(base, items[..j], cat, LineAmount)
    {
      assert items[..j + 1][..j] == items[..j];
      m := AddTo(m, cat(items[j]), LineAmount(items[j]));
      j := j + 1;
    }
    assert items[..j] == items;
  }

  /** The `salesByCategory` loops filling the map. */
  method CategoryBuckets(filtered: seq<Order>, products: seq<Product>) returns (m: seq<Entry<string, real>>)
    ensures m == AccumulateNested([], filtered, ItemsOf, CategoryFn(products), LineAmount)
  {
    var cat := CategoryFn(products);
    m := [];
    var i := 0;
    while i < |filtered|
      invariant 0 <= i <= |filtered|
      invariant m == AccumulateNested([], filtered[..i], ItemsOf, cat, LineAmount)
    {
      m := AddLines(m, ItemsOf(filtered[i]), cat);
      assert filtered[..i + 1][..i] == filtered[..i];
      i := i + 1;
    }
    assert filtered[..i] == filtered;
  }

  /** `salesByCategory`: one bucket per category with its line totals,
      largest first. */
  method SalesByCategory(filtered: seq<Order>, products: seq<Product>)
    returns (cats: seq<Entry<string, real>>)
    ensures multiset(cats) == multiset(AccumulateNested([], filtered, ItemsOf, CategoryFn(products), LineAmount))
    ensures DistinctKeys(cats) && Sorted(cats, ValueDescending())
    ensures SumValues(cats) == LineSales(filtered)
    ensures forall k :: k in Keys(cats) <==> InnerKeyOfSome(filtered, ItemsOf, CategoryFn(products), k)
    ensures forall k :: Get(cats, k) ==
              if InnerKeyOfSome(filtered, ItemsOf, CategoryFn(products), k)
              then Some(SumBy(filtered, InnerKeySum(ItemsOf, CategoryFn(products), LineAmount, k)))
              else None
  {
    var m := CategoryBuckets(filtered, products);
    cats := SortBy(m, ValueDescending());
    var cat := CategoryFn(products);
    AccumulateNestedDistinct([], filtered, ItemsOf, cat, LineAmount);
    AccumulateNestedSum([], filtered, ItemsOf, cat, LineAmount);
    SortDistinct(m, ValueDescending());
    SortBySorted(m, ValueDescending());
    SortSum(m, ValueDescending());
    forall k
      ensures k in Keys(cats) <==> InnerKeyOfSome(filtered, ItemsOf, cat, k)
    {
      AccumulateNestedKeys([], filtered, ItemsOf, cat, LineAmount, k);
      KeysOfPermutation(cats, m, k);
    }
    forall k
      ensures Get(cats, k) ==
              if InnerKeyOfSome(filtered, ItemsOf, cat, k)
              then Some(SumBy(filtered, InnerKeySum(ItemsOf, cat, LineAmount, k)))
              else None
    {
      SortedAccumulateNestedGet(filtered, ItemsOf, cat, LineAmount, ValueDescending(), k);
    }
  }
}
