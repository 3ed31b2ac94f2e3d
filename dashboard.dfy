/** The admin dashboard aggregates computed on a cache miss of `admin-stats`: revenue
    folds, the six-month order chart, the category breakdown, the user ratio and the
    latest transactions, over the products, users and orders the queries return. */
module Dashboard {
  import opened Wrappers
  import opened Arith
  import opened Dates
  import opened Users
  import Orders

  /** A JavaScript number as far as the aggregates need one: an integer, NaN (from
      `undefined` in a sum, or 0 / 0) or Infinity (from n / 0). */
  datatype JsNumber = Finite(value: int) | NaN | Infinity

  /** `slot += x` for a number or `undefined`. */
  function AddTo(slot: JsNumber, x: Option<int>): JsNumber
  {
    match x
    case None => NaN
    case Some(t) =>
      match slot
      case Finite(n) => Finite(n + t)
      case NaN => NaN
      case Infinity => Infinity
  }

  /** The fields of a product the dashboard reads. */
  datatype ProductRecord = ProductRecord(category: string, createdAt: Date)

  /** An order document as the dashboard's queries return it; `total` may be absent. */
  datatype OrderDoc = OrderDoc(
    id: string, orderItems: seq<Orders.OrderItem>, discount: Option<int>,
    total: Option<int>, status: string, createdAt: Date)

  /** What the three collections hold when the dashboard's queries run. */
  datatype Collections = Collections(
    products: seq<ProductRecord>, users: seq<UserDoc>, orders: seq<OrderDoc>)

  // ---------------------------------------------------------------- queries

  /** `Product.find(...)` and `User.find(...)` with `{ createdAt: { $gte, $lte } }`, then
      `.length`: the number of positions whose creation day lies in the window. */
  function CountCreatedIn(days: seq<Date>, w: Window): (n: nat)
    ensures n <= |days|
    ensures n == |set i | 0 <= i < |days| && InWindow(days[i], w)|
    ensures n == 0 <==> forall i :: 0 <= i < |days| ==> !InWindow(days[i], w)
  {
    if days == [] then 0
    else
      var init, last := days[..|days| - 1], days[|days| - 1];
      assert (set i | 0 <= i < |days| && InWindow(days[i], w)) ==
             (set i | 0 <= i < |init| && InWindow(init[i], w)) + (if InWindow(last, w) then {|init|} else {});
      CountCreatedIn(init, w) + (if InWindow(last, w) then 1 else 0)
  }

  /** The creation days of the products, and of the users, in store order. */
  function ProductDays(ps: seq<ProductRecord>): (days: seq<Date>)
    ensures |days| == |ps| && forall i :: 0 <= i < |ps| ==> days[i] == ps[i].createdAt
  {
    seq(|ps|, i requires 0 <= i < |ps| => ps[i].createdAt)
  }

  function UserDays(us: seq<UserDoc>): (days: seq<Date>)
    ensures |days| == |us| && forall i :: 0 <= i < |us| ==> days[i] == us[i].createdAt
  {
    seq(|us|, i requires 0 <= i < |us| => us[i].createdAt)
  }

  /** `Order.find({ createdAt: { $gte, $lte } })`, in store order. */
  function OrdersCreatedIn(os: seq<OrderDoc>, w: Window): (r: seq<OrderDoc>)
    ensures |r| <= |os|
    ensures forall o :: o in r <==> o in os && InWindow(o.createdAt, w)
    ensures r == [] <== forall i :: 0 <= i < |os| ==> !InWindow(os[i].createdAt, w)
  {
    if os == [] then []
    else
      var last := os[|os| - 1];
      OrdersCreatedIn(os[..|os| - 1], w) + (if InWindow(last.createdAt, w) then [last] else [])
  }

  /** The query of a concatenation is the concatenation of the queries, so order and repetition are kept. */
  lemma {:induction false} OrdersCreatedInAppend(a: seq<OrderDoc>, b: seq<OrderDoc>, w: Window)
    ensures OrdersCreatedIn(a + b, w) == OrdersCreatedIn(a, w) + OrdersCreatedIn(b, w)
    decreases |b|
  {
    if b != [] {
      var b' := b[..|b| - 1];
      assert (a + b)[..|a + b| - 1] == a + b';
      assert (a + b)[|a + b| - 1] == b[|b| - 1];
      OrdersCreatedInAppend(a, b', w);
    } else {
      assert a + b == a;
    }
  }

  /** A single order is returned once when it lies in the window, and not at all otherwise. */
  lemma OrdersCreatedInOne(o: OrderDoc, w: Window)
    ensures OrdersCreatedIn([o], w) == if InWindow(o.createdAt, w) then [o] else []
  {
    assert [o][..0] == [];
  }

  /** `User.countDocuments({ gender: 'female' })`: the number of female users. */
  function FemaleUsers(us: seq<UserDoc>): (n: nat)
    ensures n <= |us|
    ensures n == |set i | 0 <= i < |us| && us[i].gender == Female|
  {
    if us == [] then 0
    else
      var init, last := us[..|us| - 1], us[|us| - 1];
      assert (set i | 0 <= i < |us| && us[i].gender == Female) ==
             (set i | 0 <= i < |init| && init[i].gender == Female) + (if last.gender == Female then {|init|} else {});
      FemaleUsers(init) + (if last.gender == Female then 1 else 0)
  }

  /** `Product.countDocuments({ category })`: the number of products of category `c`. */
  function CategoryCount(ps: seq<ProductRecord>, c: string): (n: nat)
    ensures n <= |ps|
    ensures n == |set i | 0 <= i < |ps| && ps[i].category == c|
    ensures n == 0 <==> forall i :: 0 <= i < |ps| ==> ps[i].category != c
  {
    if ps == [] then 0
    else
      var init, last := ps[..|ps| - 1], ps[|ps| - 1];
      assert (set i | 0 <= i < |ps| && ps[i].category == c) ==
             (set i | 0 <= i < |init| && init[i].category == c) + (if last.category == c then {|init|} else {});
      CategoryCount(init, c) + (if last.category == c then 1 else 0)
  }

  /** `Product.distinct('category')`, listed in order of first appearance. */
  function Categories(ps: seq<ProductRecord>): (cs: seq<string>)
    ensures forall i, j :: 0 <= i < j < |cs| ==> cs[i] != cs[j]
    ensures forall i :: 0 <= i < |ps| ==> ps[i].category in cs
    ensures forall c :: c in cs ==> CategoryCount(ps, c) > 0
  {
    if ps == [] then []
    else
      var init := ps[..|ps| - 1];
      var cs := Categories(init);
      var c := ps[|ps| - 1].category;
      assert forall i :: 0 <= i < |init| ==> ps[i] == init[i];
      if c in cs then cs else cs + [c]
  }

  // ---------------------------------------------------------------- revenue

  /** `order?.total || 0` */
  function TotalOrZero(o: OrderDoc): int
  {
    match o.total
    case Some(t) => t
    case None => 0
  }

  /** `orders.reduce((total, order) => total + (order?.total || 0), 0)` */
  function Revenue(orders: seq<OrderDoc>): int
  {
    if orders == [] then 0
    else Revenue(orders[..|orders| - 1]) + TotalOrZero(orders[|orders| - 1])
  }

  /** The fold adds up each part of a split list separately. */
  lemma {:induction false} RevenueAppend(a: seq<OrderDoc>, b: seq<OrderDoc>)
    ensures Revenue(a + b) == Revenue(a) + Revenue(b)
    decreases |b|
  {
    if b != [] {
      var b' := b[..|b| - 1];
      assert (a + b)[..|a + b| - 1] == a + b';
      assert (a + b)[|a + b| - 1] == b[|b| - 1];
      RevenueAppend(a, b');
    } else {
      assert a + b == a;
    }
  }

  /** An order without a total adds nothing; one with a total adds exactly that total. */
  lemma RevenueOfOne(orders: seq<OrderDoc>, o: OrderDoc)
    ensures o.total.None? ==> Revenue(orders + [o]) == Revenue(orders)
    ensures o.total.Some? ==> Revenue(orders + [o]) == Revenue(orders) + o.total.value
  {
    assert (orders + [o])[..|orders|] == orders;
  }

  // ---------------------------------------------------------------- six-month chart

  const ChartMonths := 6

  /** The slot `6 - monthDiff - 1` of an order the loop counts, when `monthDiff` is the
      month distance back from today and lies in 0..5. */
  function ChartSlot(today: Date, o: OrderDoc): (slot: Option<int>)
    ensures slot.Some? ==> 0 <= slot.value < ChartMonths
  {
    var monthDiff := MonthsBack(today, o.createdAt);
    if 0 <= monthDiff < ChartMonths then Some(ChartMonths - monthDiff - 1) else None
  }

  /** `orderMonthCounts` after the loop has seen `orders`. */
  function MonthCounts(today: Date, orders: seq<OrderDoc>): (counts: seq<int>)
    ensures |counts| == ChartMonths
  {
    if orders == [] then [0, 0, 0, 0, 0, 0]
    else
      var counts := MonthCounts(today, orders[..|orders| - 1]);
      match ChartSlot(today, orders[|orders| - 1])
      case Some(i) => counts[i := counts[i] + 1]
      case None => counts
  }

  /** `orderMonthlyRevenue` after the loop has seen `orders`; the loop adds `order.total`
      without a default, so an order without a total turns its slot into NaN. */
  function MonthRevenue(today: Date, orders: seq<OrderDoc>): (revenue: seq<JsNumber>)
    ensures |revenue| == ChartMonths
  {
    if orders == [] then [Finite(0), Finite(0), Finite(0), Finite(0), Finite(0), Finite(0)]
    else
      var revenue := MonthRevenue(today, orders[..|orders| - 1]);
      var o := orders[|orders| - 1];
      match ChartSlot(today, o)
      case Some(i) => revenue[i := AddTo(revenue[i], o.total)]
      case None => revenue
  }

  /** One more order moves the charts by its own slot only. */
  lemma ChartStep(today: Date, orders: seq<OrderDoc>, o: OrderDoc)
    ensures var counts, revenue := MonthCounts(today, orders), MonthRevenue(today, orders);
      match ChartSlot(today, o)
      case Some(i) =>
        && MonthCounts(today, orders + [o]) == counts[i := counts[i] + 1]
        && MonthRevenue(today, orders + [o]) == revenue[i := AddTo(revenue[i], o.total)]
      case None =>
        && MonthCounts(today, orders + [o]) == counts
        && MonthRevenue(today, orders + [o]) == revenue
  {
    assert (orders + [o])[..|orders|] == orders;
  }

  /** The `forEach` over the six-month orders, filling two zeroed arrays of length 6. */
  method FillMonthCharts(today: Date, orders: seq<OrderDoc>) returns (counts: seq<int>, revenue: seq<JsNumber>)
    ensures counts == MonthCounts(today, orders)
    ensures revenue == MonthRevenue(today, orders)
  {
    var orderMonthCounts := new int[ChartMonths](_ => 0);
    var orderMonthlyRevenue := new JsNumber[ChartMonths](_ => Finite(0));
    assert orderMonthCounts[..] == [0, 0, 0, 0, 0, 0];
    assert orderMonthlyRevenue[..] == [Finite(0), Finite(0), Finite(0), Finite(0), Finite(0), Finite(0)];
    var i := 0;
    while i < |orders|
      invariant 0 <= i <= |orders|
      invariant orderMonthCounts[..] == MonthCounts(today, orders[..i])
      invariant orderMonthlyRevenue[..] == MonthRevenue(today, orders[..i])
    {
      var order := orders[i];
      ChartStep(today, orders[..i], order);
      assert orders[..i + 1] == orders[..i] + [order];
      var monthDiff := MonthsBack(today, order.createdAt);
      if 0 <= monthDiff < ChartMonths {
        var slot := ChartMonths - monthDiff - 1;
        orderMonthCounts[slot] := orderMonthCounts[slot] + 1;
        orderMonthlyRevenue[slot] := AddTo(orderMonthlyRevenue[slot], order.total);
      }
      i := i + 1;
    }
    assert orders[..|orders|] == orders;
    counts := orderMonthCounts[..];
    revenue := orderMonthlyRevenue[..];
  }

  /** The orders of `orders` that land in chart slot `k`, in order. */
  function OrdersInSlot(today: Date, orders: seq<OrderDoc>, k: int): seq<OrderDoc>
  {
    if orders == [] then []
    else
      var o := orders[|orders| - 1];
      OrdersInSlot(today, orders[..|orders| - 1], k) + (if ChartSlot(today, o) == Some(k) then [o] else [])
  }

  /** The orders that land in some slot: those 0 to 5 months back. */
  function ChartedOrders(today: Date, orders: seq<OrderDoc>): seq<OrderDoc>
  {
    if orders == [] then []
    else
      var o := orders[|orders| - 1];
      ChartedOrders(today, orders[..|orders| - 1]) + (if ChartSlot(today, o).Some? then [o] else [])
  }

  predicate AllTotalsPresent(orders: seq<OrderDoc>)
  {
    forall i :: 0 <= i < |orders| ==> orders[i].total.Some?
  }

  /** Slot k of the charts holds the number of orders placed k - 5 months from now, and
      their revenue, which is NaN as soon as one of them has no total. */
  lemma {:induction false} MonthChartsBySlot(today: Date, orders: seq<OrderDoc>, k: int)
    requires 0 <= k < ChartMonths
    ensures MonthCounts(today, orders)[k] == |OrdersInSlot(today, orders, k)|
    ensures MonthRevenue(today, orders)[k] ==
              if AllTotalsPresent(OrdersInSlot(today, orders, k))
              then Finite(Revenue(OrdersInSlot(today, orders, k)))
              else NaN
  {
    if orders != [] {
      var init, o := orders[..|orders| - 1], orders[|orders| - 1];
      MonthChartsBySlot(today, init, k);
      var s := OrdersInSlot(today, init, k);
      var rev := MonthRevenue(today, init);
      if ChartSlot(today, o) == Some(k) {
        assert OrdersInSlot(today, orders, k) == s + [o];
        assert MonthRevenue(today, orders)[k] == AddTo(rev[k], o.total);
        RevenueOfOne(s, o);
        assert (s + [o])[|s|] == o;
        assert AllTotalsPresent(s + [o]) <==> AllTotalsPresent(s) && o.total.Some? by {
          assert forall i :: 0 <= i < |s| ==> (s + [o])[i] == s[i];
        }
      } else {
        assert OrdersInSlot(today, orders, k) == s + [] == s;
        assert MonthRevenue(today, orders)[k] == rev[k];
      }
    }
  }

  function Sum(s: seq<int>): int
  {
    if s == [] then 0 else Sum(s[..|s| - 1]) + s[|s| - 1]
  }

  lemma {:induction false} ZeroSum(s: seq<int>)
    requires forall i :: 0 <= i < |s| ==> s[i] == 0
    ensures Sum(s) == 0
    decreases |s|
  {
    if s != [] {
      ZeroSum(s[..|s| - 1]);
    }
  }

  lemma {:induction false} SumBump(s: seq<int>, i: int)
    requires 0 <= i < |s|
    ensures Sum(s[i := s[i] + 1]) == Sum(s) + 1
    decreases |s|
  {
    var t := s[i := s[i] + 1];
    var n := |s| - 1;
    assert t[..n] == if i < n then s[..n][i := s[i] + 1] else s[..n];
    if i < n {
      SumBump(s[..n], i);
    }
  }

  /** The counts add up to the number of orders 0 to 5 months back; older orders (and any
      dated after today) contribute nothing. */
  lemma {:induction false} MonthCountsTotal(today: Date, orders: seq<OrderDoc>)
    ensures Sum(MonthCounts(today, orders)) == |ChartedOrders(today, orders)|
  {
    if orders == [] {
      ZeroSum([0, 0, 0, 0, 0, 0]);
    } else {
      var init, o := orders[..|orders| - 1], orders[|orders| - 1];
      MonthCountsTotal(today, init);
      match ChartSlot(today, o)
      case Some(i) => SumBump(MonthCounts(today, init), i);
      case None =>
    }
  }

  /** The six-month query and the slot rule together chart exactly the orders of the
      current month and the five before it. */
  lemma ChartedOrdersOfWindow(today: Date, o: OrderDoc)
    requires 0 <= today.month < 12 && ValidDate(o.createdAt)
    requires InWindow(o.createdAt, LastSixMonths(today))
    ensures ChartSlot(today, o).Some? <==> MonthsBack(today, o.createdAt) < ChartMonths
  {
    SixMonthWindowMonthsBack(today, o.createdAt);
  }

  /** The slot index as the loop writes it, `6 - monthDiff - 1`, with the year-blind
      `monthDiff` of `today.getMonth() - creationDate.getMonth()`. */
  function AsWrittenChartIndex(today: Date, created: Date): int
  {
    ChartMonths - AsWrittenMonthDiff(today, created) - 1
  }

  /** An order of the six-month window from the previous year passes the loop's
      `monthDiff < 6` test with a negative `monthDiff`, while it belongs in one of the six
      slots.  Its index is at least 6: `orderMonthCounts[index] += 1` on the length-6
      array reads `undefined` and stores NaN there, so both arrays grow past six entries,
      the ones between stay holes, and the response sends them as `null`. */
  lemma CrossYearOrderMissesChart(today: Date, created: Date)
    requires 0 <= today.month < 12 && ValidDate(created)
    requires InWindow(created, LastSixMonths(today))
    requires created.year < today.year
    ensures AsWrittenMonthDiff(today, created) < 0
    ensures AsWrittenChartIndex(today, created) >= ChartMonths
    ensures 1 <= MonthsBack(today, created) <= 6
  {
    SixMonthWindowMonthsBack(today, created);
  }

  // ---------------------------------------------------------------- categories

  datatype CategoryTally = CategoryTally(category: string, count: nat)
  datatype CategoryShare = CategoryShare(category: string, percent: JsNumber)

  /** `Math.round((count / total) * 100)` on exact values: the percentage rounded half up.
      0 / 0 is NaN and n / 0 is Infinity. */
  function RoundedPercent(count: nat, total: nat): (p: JsNumber)
    ensures total > 0 ==> p.Finite? && 2 * total * p.value - total <= 200 * count < 2 * total * p.value + total
    ensures total == 0 ==> p == if count == 0 then NaN else Infinity
  {
    if total == 0 then (if count == 0 then NaN else Infinity)
    else
      var q := (200 * count + total) / (2 * total);
      DivBounds(200 * count + total, 2 * total);
      Finite(q)
  }

  /** A part of the whole is between 0 and 100 percent. */
  lemma RoundedPercentBounds(count: nat, total: nat)
    requires 0 < total && count <= total
    ensures 0 <= RoundedPercent(count, total).value <= 100
  {
    var p := RoundedPercent(count, total).value;
    var n, d := 200 * count + total, 2 * total;
    assert p == n / d;
    DivBounds(n, d);
    if p < 0 {
      MulMonotone(d, p, -1);
      assert false;
    }
    if p > 100 {
      MulMonotone(d, 101, p);
      assert false;
    }
  }

  /** One tally per distinct category: `Product.countDocuments({ category })` each. */
  function Tallies(ps: seq<ProductRecord>): (ts: seq<CategoryTally>)
    ensures |ts| == |Categories(ps)|
  {
    var cs := Categories(ps);
    seq(|cs|, i requires 0 <= i < |cs| => CategoryTally(cs[i], CategoryCount(ps, cs[i])))
  }

  /** `categoryCount`: one `{ [category]: percent }` entry per tally, in order. */
  function ShareList(ts: seq<CategoryTally>, productsCount: nat): (shares: seq<CategoryShare>)
    ensures |shares| == |ts|
  {
    seq(|ts|, i requires 0 <= i < |ts| => CategoryShare(ts[i].category, RoundedPercent(ts[i].count, productsCount)))
  }

  /** The `forEach` that pushes one entry per category. */
  method CategoryShares(ts: seq<CategoryTally>, productsCount: nat) returns (shares: seq<CategoryShare>)
    ensures shares == ShareList(ts, productsCount)
  {
    shares := [];
    var i := 0;
    while i < |ts|
      invariant 0 <= i <= |ts|
      invariant shares == ShareList(ts[..i], productsCount)
    {
      shares := shares + [CategoryShare(ts[i].category, RoundedPercent(ts[i].count, productsCount))];
      i := i + 1;
    }
    assert ts[..|ts|] == ts;
  }

  /** Every entry names a distinct category, in the order `distinct` lists them, and its
      percentage is a number from 0 to 100: a category exists only if some product does,
      so the division by the product count never divides by zero. */
  lemma CategorySharesWellDefined(ps: seq<ProductRecord>)
    ensures var shares := ShareList(Tallies(ps), |ps|);
      && |shares| == |Categories(ps)|
      && forall i :: 0 <= i < |shares| ==>
           && shares[i].category == Categories(ps)[i]
           && shares[i].percent == RoundedPercent(CategoryCount(ps, Categories(ps)[i]), |ps|)
           && shares[i].percent.Finite?
           && 0 <= shares[i].percent.value <= 100
  {
    var cs := Categories(ps);
    var shares := ShareList(Tallies(ps), |ps|);
    forall i | 0 <= i < |shares|
      ensures shares[i].category == cs[i] && shares[i].percent == RoundedPercent(CategoryCount(ps, cs[i]), |ps|)
              && shares[i].percent.Finite? && 0 <= shares[i].percent.value <= 100
    {
      assert CategoryCount(ps, cs[i]) > 0;
      RoundedPercentBounds(CategoryCount(ps, cs[i]), |ps|);
    }
  }

  // ---------------------------------------------------------------- users, transactions

  datatype UserRatio = UserRatio(male: int, female: int)

  /** `{ male: usersCount - femaleUsersCount, female: femaleUsersCount }` */
  function Ratio(usersCount: nat, femaleUsersCount: nat): (r: UserRatio)
    ensures r.male + r.female == usersCount && r.female == femaleUsersCount
    ensures femaleUsersCount <= usersCount ==> r.male >= 0
  {
    UserRatio(usersCount - femaleUsersCount, femaleUsersCount)
  }

  datatype Transaction = Transaction(
    id: string, discount: Option<int>, amount: Option<int>, quantity: nat, status: string)

  const TransactionLimit := 4

  /** `Order.find({}).select([...]).limit(4)` mapped to `{ _id, discount, amount: total,
      quantity: orderItems.length, status }`. */
  function LatestTransactions(orders: seq<OrderDoc>): (r: seq<Transaction>)
    ensures |r| == if |orders| < TransactionLimit then |orders| else TransactionLimit
    ensures forall i :: 0 <= i < |r| ==>
              && r[i].id == orders[i].id
              && r[i].discount == orders[i].discount
              && r[i].amount == orders[i].total
              && r[i].quantity == |orders[i].orderItems|
              && r[i].status == orders[i].status
  {
    var n := if |orders| < TransactionLimit then |orders| else TransactionLimit;
    seq(n, i requires 0 <= i < n => var o := orders[i];
      Transaction(o.id, o.discount, o.total, |o.orderItems|, o.status))
  }

  // ---------------------------------------------------------------- the stats object

  datatype ChangePercent = ChangePercent(revenue: int, product: int, user: int, order: int)
  datatype Counts = Counts(revenue: int, user: nat, product: nat, order: nat)
  datatype Chart = Chart(order: seq<int>, revenue: seq<JsNumber>)
  datatype Stats = Stats(
    categoryCount: seq<CategoryShare>, changePercent: ChangePercent, counts: Counts,
    chart: Chart, userRatio: UserRatio, latestTransaction: seq<Transaction>)

  /** The `changePercent` part of the stats, for a given last-month window: this month's
      revenue, new products, new users and orders against last month's, each through
      `percent` (`calculatePercentage`, whose definition is not part of this model). */
  function Changes(c: Collections, today: Date, percent: (int, int) -> int, lastMonth: Window): ChangePercent
  {
    var thisMonthOrders := OrdersCreatedIn(c.orders, ThisMonth(today));
    var lastMonthOrders := OrdersCreatedIn(c.orders, lastMonth);
    ChangePercent(
      percent(Revenue(thisMonthOrders), Revenue(lastMonthOrders)),
      percent(CountCreatedIn(ProductDays(c.products), ThisMonth(today)),
              CountCreatedIn(ProductDays(c.products), lastMonth)),
      percent(CountCreatedIn(UserDays(c.users), ThisMonth(today)),
              CountCreatedIn(UserDays(c.users), lastMonth)),
      percent(|thisMonthOrders|, |lastMonthOrders|))
  }

  /** With the last-month window as written, every last-month figure is 0, so each
      percentage compares this month's figure against 0. */
  lemma AsWrittenChangesCompareWithZero(c: Collections, today: Date, percent: (int, int) -> int)
    requires forall i :: 0 <= i < |c.products| ==> ValidDate(c.products[i].createdAt)
    requires forall i :: 0 <= i < |c.users| ==> ValidDate(c.users[i].createdAt)
    requires forall i :: 0 <= i < |c.orders| ==> ValidDate(c.orders[i].createdAt)
    ensures var thisMonthOrders := OrdersCreatedIn(c.orders, ThisMonth(today));
      Changes(c, today, percent, AsWrittenLastMonth(today)) == ChangePercent(
        percent(Revenue(thisMonthOrders), 0),
        percent(CountCreatedIn(ProductDays(c.products), ThisMonth(today)), 0),
        percent(CountCreatedIn(UserDays(c.users), ThisMonth(today)), 0),
        percent(|thisMonthOrders|, 0))
  {
    var w := AsWrittenLastMonth(today);
    forall d: Date | ValidDate(d) ensures !InWindow(d, w) {
      AsWrittenLastMonthIsEmpty(today, d);
    }
  }

  /** The stats object built on a miss, with the corrected last-month window and the
      corrected month distance of the charts. */
  function DashboardStats(c: Collections, today: Date, percent: (int, int) -> int): Stats
  {
    var sixMonthOrders := OrdersCreatedIn(c.orders, LastSixMonths(today));
    Stats(
      ShareList(Tallies(c.products), |c.products|),
      Changes(c, today, percent, LastMonth(today)),
      Counts(Revenue(c.orders), |c.users|, |c.products|, |c.orders|),
      Chart(MonthCounts(today, sixMonthOrders), MonthRevenue(today, sixMonthOrders)),
      Ratio(|c.users|, FemaleUsers(c.users)),
      LatestTransactions(c.orders))
  }

  /** What the dashboard promises about its stats object.  The six-slot charts are a
      property of the corrected month distance: as written, the loop can also write past
      the sixth slot. */
  lemma DashboardStatsProperties(c: Collections, today: Date, percent: (int, int) -> int)
    ensures var s := DashboardStats(c, today, percent);
      && s.counts.order == |c.orders|
      && s.counts.revenue == Revenue(c.orders)
      && |s.chart.order| == ChartMonths && |s.chart.revenue| == ChartMonths
      && Sum(s.chart.order) == |ChartedOrders(today, OrdersCreatedIn(c.orders, LastSixMonths(today)))|
      && |s.categoryCount| == |Categories(c.products)|
      && (forall i :: 0 <= i < |s.categoryCount| ==>
            s.categoryCount[i].percent.Finite? && 0 <= s.categoryCount[i].percent.value <= 100)
      && s.userRatio.male + s.userRatio.female == |c.users|
      && s.userRatio.male >= 0
      && |s.latestTransaction| <= TransactionLimit
  {
    MonthCountsTotal(today, OrdersCreatedIn(c.orders, LastSixMonths(today)));
    CategorySharesWellDefined(c.products);
  }
}
