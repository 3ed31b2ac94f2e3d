/** The order handlers and the dashboard handler over the shared cache and the order
    collection: the read-through readers, and the writes that change the collection and
    ask for cache invalidation. */
module Handlers {
  import opened Wrappers
  import opened Dates
  import opened Orders
  import opened Cache
  import Dashboard

  /** A call into code that is not part of this model, recorded in the order made. */
  datatype ExternalCall =
    | ReduceStock(items: seq<OrderItem>)
    | InvalidateCache(request: InvalidationRequest)

  /** The request `newOrder` sends: product, order and admin flags set, the body's user,
      and the product ids of the stored order's items. */
  function NewOrderRequest(o: Order): (req: InvalidationRequest)
    ensures req.product && req.order && req.admin
    ensures req.userId == Some(o.user) && req.orderId.None?
    ensures req.productId.Some? && req.productId.value == ProductIds(o.orderItems)
  {
    InvalidationRequest(true, true, true, Some(o.user), None, Some(ProductIds(o.orderItems)))
  }

  /** The request `processOrder` and `deleteOrder` send: no product flag, order and admin
      flags set, the order's user and the order's id. */
  function OrderWriteRequest(o: Order): (req: InvalidationRequest)
    ensures !req.product && req.order && req.admin
    ensures req.userId == Some(o.user) && req.orderId == Some(o.id) && req.productId.None?
  {
    InvalidationRequest(false, true, true, Some(o.user), Some(o.id), None)
  }

  /** Every entry of an order key holds what a fresh query of the collection would return,
      and `admin-stats` holds a stats object. */
  ghost predicate Coherent(entries: map<string, CacheValue>, orders: seq<Order>)
  {
    && (AllOrdersKey in entries ==> entries[AllOrdersKey] == OrderList(orders))
    && (forall u :: MyOrdersKey(u) in entries ==>
          entries[MyOrdersKey(u)] == OrderList(OrdersOfUser(orders, u)))
    && (forall id :: OrderKey(id) in entries ==>
          FindById(orders, id).Some? && entries[OrderKey(id)] == OneOrder(FindById(orders, id).value))
    && (AdminStatsKey in entries ==> entries[AdminStatsKey].StatsValue?)
  }

  /** Caching a fresh query result keeps the cache coherent. */
  lemma SetKeepsCoherent(entries: map<string, CacheValue>, orders: seq<Order>, key: string, v: CacheValue)
    requires Coherent(entries, orders)
    requires key == AllOrdersKey ==> v == OrderList(orders)
    requires forall u :: key == MyOrdersKey(u) ==> v == OrderList(OrdersOfUser(orders, u))
    requires forall id :: key == OrderKey(id) ==> FindById(orders, id).Some? && v == OneOrder(FindById(orders, id).value)
    requires key == AdminStatsKey ==> v.StatsValue?
    ensures Coherent(entries[key := v], orders)
  {
  }

  /** Caching a stats object under `admin-stats` touches no order entry. */
  lemma SetStatsKeepsCoherent(entries: map<string, CacheValue>, orders: seq<Order>, stats: Dashboard.Stats)
    requires Coherent(entries, orders)
    ensures Coherent(entries[AdminStatsKey := StatsValue(stats)], orders)
  {
    forall u ensures AdminStatsKey != MyOrdersKey(u) {
      KeyFamiliesDisjoint(u, "");
    }
    forall id ensures AdminStatsKey != OrderKey(id) {
      KeyFamiliesDisjoint("", id);
    }
    SetKeepsCoherent(entries, orders, AdminStatsKey, StatsValue(stats));
  }

  /** Under the assumed eviction set, saving an order with its next status and then
      invalidating keeps the cache coherent. */
  lemma ProcessKeepsCoherent(entries: map<string, CacheValue>, orders: seq<Order>, o: Order)
    requires DistinctIds(orders) && Coherent(entries, orders) && FindById(orders, o.id) == Some(o)
    ensures var saved := o.(status := NextStatus(o.status));
      Coherent(entries - KeySet(AssumedEvictions(OrderWriteRequest(o))), ReplaceById(orders, saved))
  {
    var saved := o.(status := NextStatus(o.status));
    var req := OrderWriteRequest(o);
    var e := entries - KeySet(AssumedEvictions(req));
    var s := ReplaceById(orders, saved);
    FoundIsOnlyOne(orders, o.id);
    ReplaceByIdEffect(orders, saved);
    forall u | MyOrdersKey(u) in e
      ensures e[MyOrdersKey(u)] == OrderList(OrdersOfUser(s, u))
    {
      EvictionsAreExact(req, u, o.id);
      ReplaceOtherUser(orders, saved, u);
    }
    forall id | OrderKey(id) in e
      ensures FindById(s, id).Some? && e[OrderKey(id)] == OneOrder(FindById(s, id).value)
    {
      EvictionsAreExact(req, o.user, id);
    }
  }

  /** Under the assumed eviction set, deleting an order and then invalidating keeps the
      cache coherent. */
  lemma DeleteKeepsCoherent(entries: map<string, CacheValue>, orders: seq<Order>, o: Order)
    requires DistinctIds(orders) && Coherent(entries, orders) && FindById(orders, o.id) == Some(o)
    ensures Coherent(entries - KeySet(AssumedEvictions(OrderWriteRequest(o))), RemoveById(orders, o.id))
  {
    var req := OrderWriteRequest(o);
    var e := entries - KeySet(AssumedEvictions(req));
    var s := RemoveById(orders, o.id);
    FoundIsOnlyOne(orders, o.id);
    RemoveByIdEffect(orders, o.id);
    forall u | MyOrdersKey(u) in e
      ensures e[MyOrdersKey(u)] == OrderList(OrdersOfUser(s, u))
    {
      EvictionsAreExact(req, u, o.id);
      RemoveOtherUser(orders, o.id, u);
    }
    forall id | OrderKey(id) in e
      ensures FindById(s, id).Some? && e[OrderKey(id)] == OneOrder(FindById(s, id).value)
    {
      EvictionsAreExact(req, o.user, id);
    }
  }

  /** Under the assumed eviction set, storing a new order under a fresh id and then
      invalidating keeps the cache coherent.  Its own `order-` key needs no eviction: a
      lookup of an id that was not stored is never cached. */
  lemma CreateKeepsCoherent(entries: map<string, CacheValue>, orders: seq<Order>, o: Order)
    requires DistinctIds(orders) && Coherent(entries, orders) && FindById(orders, o.id).None?
    ensures Coherent(entries - KeySet(AssumedEvictions(NewOrderRequest(o))), orders + [o])
  {
    var req := NewOrderRequest(o);
    var e := entries - KeySet(AssumedEvictions(req));
    var s := orders + [o];
    AppendEffect(orders, o);
    forall u | MyOrdersKey(u) in e
      ensures e[MyOrdersKey(u)] == OrderList(OrdersOfUser(s, u))
    {
      EvictionsAreExact(req, u, o.id);
      AppendUserLists(orders, o, u);
      assert OrdersOfUser(orders, u) + [] == OrdersOfUser(orders, u);
    }
  }

  /** The handlers' shared state: the process-wide cache, the order collection in the
      store's natural order, the log of calls into code outside the model, and a count of
      the cache misses that went to the store (a dashboard miss runs many queries and
      counts once). */
  class Backend {
    const cache: NodeCache
    var orders: seq<Order>
    var calls: seq<ExternalCall>
    ghost var storeReads: nat

    ghost predicate Valid()
      reads this, cache
    {
      DistinctIds(orders) && Coherent(cache.entries, orders)
    }

    /** `export const myCache = new NodeCache()` next to an existing collection. */
    constructor (initial: seq<Order>)
      requires DistinctIds(initial)
      ensures Valid() && fresh(cache)
      ensures orders == initial && cache.entries == map[] && calls == [] && storeReads == 0
    {
      cache := new NodeCache();
      orders := initial;
      calls := [];
      storeReads := 0;
    }

    /** `myOrders`: the orders of `user`, from the cache under `my-orders-${user}` when
        present, otherwise from the collection, then cached. */
    method MyOrders(user: string) returns (result: seq<Order>)
      requires Valid()
      modifies this, cache
      ensures Valid()
      ensures result == OrdersOfUser(orders, user)
      ensures orders == old(orders) && calls == old(calls)
      ensures old(MyOrdersKey(user) in cache.entries) ==>
                && OrderList(result) == old(cache.entries[MyOrdersKey(user)])
                && cache.entries == old(cache.entries) && storeReads == old(storeReads)
      ensures old(MyOrdersKey(user) !in cache.entries) ==>
                && cache.entries == old(cache.entries)[MyOrdersKey(user) := OrderList(result)]
                && storeReads == old(storeReads) + 1
    {
      var key := MyOrdersKey(user);
      if cache.Has(key) {
        var v := cache.Get(key);
        result := v.value.orders;
      } else {
        result := OrdersOfUser(orders, user);
        storeReads := storeReads + 1;
        forall u | key == MyOrdersKey(u) ensures OrderList(result) == OrderList(OrdersOfUser(orders, u)) {
          KeysInjective(user, u, "", "");
        }
        forall id | key == OrderKey(id) ensures false {
          KeyFamiliesDisjoint(user, id);
        }
        KeyFamiliesDisjoint(user, "");
        SetKeepsCoherent(cache.entries, orders, key, OrderList(result));
        cache.Set(key, OrderList(result));
      }
    }

    /** `allOrders`: every order, from the cache under `all-orders` when present, otherwise
        from the collection, then cached. */
    method AllOrders() returns (result: seq<Order>)
      requires Valid()
      modifies this, cache
      ensures Valid()
      ensures result == orders
      ensures orders == old(orders) && calls == old(calls)
      ensures AllOrdersKey in cache.entries
      ensures old(AllOrdersKey in cache.entries) ==>
                && OrderList(result) == old(cache.entries[AllOrdersKey])
                && cache.entries == old(cache.entries) && storeReads == old(storeReads)
      ensures old(AllOrdersKey !in cache.entries) ==>
                && cache.entries == old(cache.entries)[AllOrdersKey := OrderList(result)]
                && storeReads == old(storeReads) + 1
    {
      if cache.Has(AllOrdersKey) {
        var v := cache.Get(AllOrdersKey);
        result := v.value.orders;
      } else {
        result := orders;
        storeReads := storeReads + 1;
        forall u ensures AllOrdersKey != MyOrdersKey(u) {
          KeyFamiliesDisjoint(u, "");
        }
        forall id ensures AllOrdersKey != OrderKey(id) {
          KeyFamiliesDisjoint("", id);
        }
        SetKeepsCoherent(cache.entries, orders, AllOrdersKey, OrderList(result));
        cache.Set(AllOrdersKey, OrderList(result));
      }
    }

    /** `getSingleOrder`: the order with `id`, from the cache under `order-${id}` when
        present, otherwise from the collection; a found order is cached, a missing one is
        a 404 and is not cached. */
    method GetSingleOrder(id: string) returns (result: Result<Order>)
      requires Valid()
      modifies this, cache
      ensures Valid()
      ensures result.Ok? <==> FindById(orders, id).Some?
      ensures result.Ok? ==> result.value == FindById(orders, id).value
      ensures result.Err? ==> result.error == OrderNotFound
      ensures orders == old(orders) && calls == old(calls)
      ensures old(OrderKey(id) in cache.entries) ==>
                && result.Ok? && OneOrder(result.value) == old(cache.entries[OrderKey(id)])
                && cache.entries == old(cache.entries) && storeReads == old(storeReads)
      ensures old(OrderKey(id) !in cache.entries) ==>
                && storeReads == old(storeReads) + 1
                && (result.Err? ==> cache.entries == old(cache.entries))
                && (result.Ok? ==> cache.entries == old(cache.entries)[OrderKey(id) := OneOrder(result.value)])
    {
      var key := OrderKey(id);
      if cache.Has(key) {
        var v := cache.Get(key);
        result := Ok(v.value.order);
      } else {
        storeReads := storeReads + 1;
        var found := FindById(orders, id);
        if found.None? {
          return Err(OrderNotFound);
        }
        result := Ok(found.value);
        forall u | key == MyOrdersKey(u) ensures false {
          KeyFamiliesDisjoint(u, id);
        }
        forall id' | key == OrderKey(id') ensures id' == id {
          KeysInjective("", "", id, id');
        }
        KeyFamiliesDisjoint("", id);
        SetKeepsCoherent(cache.entries, orders, key, OneOrder(found.value));
        cache.Set(key, OneOrder(found.value));
      }
    }

    /** The call to `invalidateCache`: recorded, and the assumed eviction set removed. */
    method Invalidate(req: InvalidationRequest)
      modifies this, cache
      ensures calls == old(calls) + [InvalidateCache(req)]
      ensures cache.entries == old(cache.entries) - KeySet(AssumedEvictions(req))
      ensures orders == old(orders) && storeReads == old(storeReads)
    {
      calls := calls + [InvalidateCache(req)];
      var removed := cache.Del(AssumedEvictions(req));
    }

    /** `newOrder`: a body missing a required field is a 400 that changes nothing;
        otherwise the order is stored under the id the store assigns, with status
        Processing, then stock is reduced, then the cache invalidated. */
    method NewOrder(body: NewOrderBody, newId: string) returns (result: Result<Order>)
      requires Valid()
      requires FindById(orders, newId).None?
      modifies this, cache
      ensures Valid()
      ensures storeReads == old(storeReads)
      ensures !HasRequiredFields(body) ==>
                && result == Err(MissingOrderFields)
                && orders == old(orders) && calls == old(calls) && cache.entries == old(cache.entries)
      ensures HasRequiredFields(body) ==>
                var o := CreatedOrder(body, newId);
                && result == Ok(o)
                && orders == old(orders) + [o]
                && calls == old(calls) + [ReduceStock(o.orderItems), InvalidateCache(NewOrderRequest(o))]
                && cache.entries == old(cache.entries) - KeySet(AssumedEvictions(NewOrderRequest(o)))
    {
      if !HasRequiredFields(body) {
        return Err(MissingOrderFields);
      }
      var o := CreatedOrder(body, newId);
      CreateKeepsCoherent(cache.entries, orders, o);
      AppendEffect(orders, o);
      orders := orders + [o];
      calls := calls + [ReduceStock(o.orderItems)];
      Invalidate(NewOrderRequest(o));
      result := Ok(o);
    }

    /** `processOrder`: an unknown id is a 404 that changes nothing; otherwise the order is
        saved with its next status, then the cache invalidated. */
    method ProcessOrder(id: string) returns (result: Result<Order>)
      requires Valid()
      modifies this, cache
      ensures Valid()
      ensures storeReads == old(storeReads)
      ensures FindById(old(orders), id).None? ==>
                && result == Err(OrderNotFound)
                && orders == old(orders) && calls == old(calls) && cache.entries == old(cache.entries)
      ensures FindById(old(orders), id).Some? ==>
                var o := FindById(old(orders), id).value;
                var saved := o.(status := NextStatus(o.status));
                && result == Ok(saved)
                && orders == ReplaceById(old(orders), saved)
                && calls == old(calls) + [InvalidateCache(OrderWriteRequest(o))]
                && cache.entries == old(cache.entries) - KeySet(AssumedEvictions(OrderWriteRequest(o)))
    {
      var found := FindById(orders, id);
      if found.None? {
        return Err(OrderNotFound);
      }
      var o := found.value;
      var saved := o.(status := NextStatus(o.status));
      ProcessKeepsCoherent(cache.entries, orders, o);
      ReplaceByIdEffect(orders, saved);
      orders := ReplaceById(orders, saved);
      Invalidate(OrderWriteRequest(o));
      result := Ok(saved);
    }

    /** `deleteOrder`: an unknown id is a 404 that changes nothing; otherwise the order
        leaves the collection, then the cache is invalidated. */
    method DeleteOrder(id: string) returns (result: Result<Order>)
      requires Valid()
      modifies this, cache
      ensures Valid()
      ensures storeReads == old(storeReads)
      ensures FindById(old(orders), id).None? ==>
                && result == Err(OrderNotFound)
                && orders == old(orders) && calls == old(calls) && cache.entries == old(cache.entries)
      ensures FindById(old(orders), id).Some? ==>
                var o := FindById(old(orders), id).value;
                && result == Ok(o)
                && orders == RemoveById(old(orders), id)
                && calls == old(calls) + [InvalidateCache(OrderWriteRequest(o))]
                && cache.entries == old(cache.entries) - KeySet(AssumedEvictions(OrderWriteRequest(o)))
    {
      var found := FindById(orders, id);
      if found.None? {
        return Err(OrderNotFound);
      }
      var o := found.value;
      DeleteKeepsCoherent(cache.entries, orders, o);
      RemoveKeepsDistinct(orders, id);
      orders := RemoveById(orders, id);
      Invalidate(OrderWriteRequest(o));
      result := Ok(o);
    }

    /** `getDashboardStats`: the stats object from the cache under `admin-stats` when
        present, otherwise computed from what the dashboard's queries return (`c`), then
        cached.  `today` and `percent` (`calculatePercentage`) are parameters. */
    method GetDashboardStats(c: Dashboard.Collections, today: Date, percent: (int, int) -> int)
      returns (stats: Dashboard.Stats)
      requires Valid()
      modifies this, cache
      ensures Valid()
      ensures orders == old(orders) && calls == old(calls)
      ensures AdminStatsKey in cache.entries
      ensures old(AdminStatsKey in cache.entries) ==>
                && StatsValue(stats) == old(cache.entries[AdminStatsKey])
                && cache.entries == old(cache.entries) && storeReads == old(storeReads)
      ensures old(AdminStatsKey !in cache.entries) ==>
                && stats == Dashboard.DashboardStats(c, today, percent)
                && cache.entries == old(cache.entries)[AdminStatsKey := StatsValue(stats)]
                && storeReads == old(storeReads) + 1
    {
      if cache.Has(AdminStatsKey) {
        var v := cache.Get(AdminStatsKey);
        stats := v.value.stats;
      } else {
        storeReads := storeReads + 1;
        stats := Dashboard.DashboardStats(c, today, percent);
        SetStatsKeepsCoherent(cache.entries, orders, stats);
        cache.Set(AdminStatsKey, StatsValue(stats));
      }
    }
  }
}
