/** The process-wide `NodeCache` (`myCache`), the keys the read-through handlers use,
    and the invalidation requests the write handlers send. */
module Cache {
  import opened Wrappers
  import Orders
  import Dashboard

  const AllOrdersKey := "all-orders"
  const AdminStatsKey := "admin-stats"
  const MyOrdersPrefix := "my-orders-"
  const OrderPrefix := "order-"

  /** `my-orders-${user}` */
  function MyOrdersKey(user: string): (k: string)
    ensures |k| == |MyOrdersPrefix| + |user| && k[..|MyOrdersPrefix|] == MyOrdersPrefix
  {
    MyOrdersPrefix + user
  }

  /** `order-${id}` */
  function OrderKey(id: string): (k: string)
    ensures |k| == |OrderPrefix| + |id| && k[..|OrderPrefix|] == OrderPrefix
  {
    OrderPrefix + id
  }

  /** Different users, and different orders, get different keys. */
  lemma KeysInjective(u1: string, u2: string, id1: string, id2: string)
    ensures MyOrdersKey(u1) == MyOrdersKey(u2) <==> u1 == u2
    ensures OrderKey(id1) == OrderKey(id2) <==> id1 == id2
  {
    if MyOrdersKey(u1) == MyOrdersKey(u2) {
      assert u1 == MyOrdersKey(u1)[|MyOrdersPrefix|..];
      assert u2 == MyOrdersKey(u2)[|MyOrdersPrefix|..];
    }
    if OrderKey(id1) == OrderKey(id2) {
      assert id1 == OrderKey(id1)[|OrderPrefix|..];
      assert id2 == OrderKey(id2)[|OrderPrefix|..];
    }
  }

  /** The four key families never collide: no user's list, no single order and neither
      fixed key can be mistaken for another. */
  lemma KeyFamiliesDisjoint(u: string, id: string)
    ensures MyOrdersKey(u) != OrderKey(id)
    ensures MyOrdersKey(u) != AllOrdersKey && MyOrdersKey(u) != AdminStatsKey
    ensures OrderKey(id) != AllOrdersKey && OrderKey(id) != AdminStatsKey
    ensures AllOrdersKey != AdminStatsKey
  {
    assert MyOrdersKey(u)[0] == 'm' && OrderKey(id)[0] == 'o';
    assert AllOrdersKey[1] == 'l' && AdminStatsKey[1] == 'd';
  }

  /** A cached value.  The handlers store `JSON.stringify` of the value and `JSON.parse`
      it back; the model stores the value itself. */
  datatype CacheValue =
    | OrderList(orders: seq<Orders.Order>)
    | OneOrder(order: Orders.Order)
    | StatsValue(stats: Dashboard.Stats)

  /** The set of keys in a `del` argument. */
  function KeySet(keys: seq<string>): set<string>
  {
    set k | k in keys
  }

  lemma KeySetStep(keys: seq<string>, i: int)
    requires 0 <= i < |keys|
    ensures KeySet(keys[..i + 1]) == KeySet(keys[..i]) + {keys[i]}
  {
    assert keys[..i + 1] == keys[..i] + [keys[i]];
  }

  lemma CountStep(present: set<string>, seen: set<string>, k: string)
    ensures k in present && k !in seen ==> |present * (seen + {k})| == |present * seen| + 1
    ensures !(k in present && k !in seen) ==> present * (seen + {k}) == present * seen
  {
    if k in present && k !in seen {
      assert present * (seen + {k}) == (present * seen) + {k};
    }
  }

  /** One more listed key: it leaves the entries, and it adds to the count iff it was still
      present. */
  lemma DelStep(before: map<string, CacheValue>, keys: seq<string>, i: int)
    requires 0 <= i < |keys|
    ensures (before - KeySet(keys[..i])) - {keys[i]} == before - KeySet(keys[..i + 1])
    ensures keys[i] in before - KeySet(keys[..i]) ==>
              |before.Keys * KeySet(keys[..i + 1])| == |before.Keys * KeySet(keys[..i])| + 1
    ensures keys[i] !in before - KeySet(keys[..i]) ==>
              |before.Keys * KeySet(keys[..i + 1])| == |before.Keys * KeySet(keys[..i])|
  {
    KeySetStep(keys, i);
    CountStep(before.Keys, KeySet(keys[..i]), keys[i]);
  }

  /** `new NodeCache()` with the operations the handlers use; entries never expire. */
  class NodeCache {
    var entries: map<string, CacheValue>

    constructor ()
      ensures entries == map[]
    {
      entries := map[];
    }

    /** `myCache.has(key)` */
    predicate Has(key: string)
      reads this
    {
      key in entries
    }

    /** `myCache.get(key)`: the stored value, or `undefined`. */
    method Get(key: string) returns (v: Option<CacheValue>)
      ensures v.Some? <==> key in entries
      ensures v.Some? ==> v.value == entries[key]
    {
      if key in entries {
        v := Some(entries[key]);
      } else {
        v := None;
      }
    }

    /** `myCache.set(key, value)` */
    method Set(key: string, value: CacheValue)
      modifies this
      ensures entries == old(entries)[key := value]
    {
      entries := entries[key := value];
    }

    /** `myCache.del(keys)`: removes each listed key, and answers how many entries it
        removed (a key listed twice is removed once). */
    method Del(keys: seq<string>) returns (removed: nat)
      modifies this
      ensures entries == old(entries) - KeySet(keys)
      ensures removed == |old(entries).Keys * KeySet(keys)|
    {
      removed := 0;
      var i := 0;
      ghost var before := entries;
      while i < |keys|
        invariant 0 <= i <= |keys|
        invariant entries == before - KeySet(keys[..i])
        invariant removed == |before.Keys * KeySet(keys[..i])|
      {
        var k := keys[i];
        DelStep(before, keys, i);
        if k in entries {
          removed := removed + 1;
        }
        entries := entries - {k};
        i := i + 1;
      }
      assert keys[..|keys|] == keys;
    }
  }

  /** The argument of `invalidateCache`, with the flags as each write handler passes them. */
  datatype InvalidationRequest = InvalidationRequest(
    product: bool, order: bool, admin: bool,
    userId: Option<string>, orderId: Option<string>, productId: Option<seq<string>>)

  /** ASSUMED eviction set of `invalidateCache`, whose body is not part of this model: the
      `order` flag evicts the order keys the readers use (`all-orders`, and the user's and
      the order's keys when given), the `admin` flag evicts `admin-stats`, and the
      `product` flag evicts none of the keys modelled here. */
  function AssumedEvictions(req: InvalidationRequest): (keys: seq<string>)
    ensures req.order ==> AllOrdersKey in keys
    ensures req.order && req.userId.Some? ==> MyOrdersKey(req.userId.value) in keys
    ensures req.order && req.orderId.Some? ==> OrderKey(req.orderId.value) in keys
    ensures req.admin <==> AdminStatsKey in keys
    ensures !req.order ==> forall k :: k in keys ==> k == AdminStatsKey
  {
    KeyFamiliesDisjoint(if req.userId.Some? then req.userId.value else "",
                        if req.orderId.Some? then req.orderId.value else "");
    var orderKeys :=
      if req.order then
        [AllOrdersKey]
        + (if req.userId.Some? then [MyOrdersKey(req.userId.value)] else [])
        + (if req.orderId.Some? then [OrderKey(req.orderId.value)] else [])
      else [];
    orderKeys + (if req.admin then [AdminStatsKey] else [])
  }

  /** Exactly the listed keys of the request's families are evicted; in particular no
      other user's list and no other order's entry. */
  lemma EvictionsAreExact(req: InvalidationRequest, u: string, id: string)
    ensures MyOrdersKey(u) in AssumedEvictions(req) <==> req.order && req.userId == Some(u)
    ensures OrderKey(id) in AssumedEvictions(req) <==> req.order && req.orderId == Some(id)
  {
    var keys := AssumedEvictions(req);
    KeyFamiliesDisjoint(u, id);
    if req.userId.Some? {
      KeyFamiliesDisjoint(req.userId.value, id);
      KeysInjective(u, req.userId.value, id, id);
    }
    if req.orderId.Some? {
      KeyFamiliesDisjoint(u, req.orderId.value);
      KeysInjective(u, u, id, req.orderId.value);
    }
  }
}
