/** Orders: the stored document, the status switch of `processOrder`, the field check of
    `newOrder`, and the order collection's lookups and updates as the order handlers use
    them.  The collection is a sequence in the store's natural order; ids are unique. */
module Orders {
  import opened Wrappers

  const Processing := "Processing"
  const Shipped := "Shipped"
  const Delivered := "Delivered"

  /** The status switch: Processing becomes Shipped; every other status, Shipped
      included, becomes Delivered. */
  function NextStatus(status: string): (next: string)
    ensures next == Shipped <==> status == Processing
    ensures next == Delivered <==> status != Processing
  {
    if status == Processing then Shipped
    else if status == Shipped then Delivered
    else Delivered
  }

  /** Delivered is a fixed point, and from any status two steps reach it. */
  lemma StatusReachesDelivered(status: string)
    ensures NextStatus(Delivered) == Delivered
    ensures NextStatus(NextStatus(status)) == Delivered
    ensures NextStatus(status) != Processing
  {
  }

  /** The shipping address as the client sent it; the handlers only pass it through. */
  datatype ShippingInfo = ShippingInfo(details: string)

  /** An order line; the handlers read only its product id. */
  datatype OrderItem = OrderItem(productId: string, quantity: int)

  datatype Order = Order(
    id: string, user: string, shippingInfo: ShippingInfo, orderItems: seq<OrderItem>,
    subtotal: int, tax: int, shippingCharges: Option<int>, discount: Option<int>,
    total: int, status: string)

  /** The body of a new-order request; every field may be missing. */
  datatype NewOrderBody = NewOrderBody(
    shippingInfo: Option<ShippingInfo>, orderItems: Option<seq<OrderItem>>, user: Option<string>,
    subtotal: Option<int>, tax: Option<int>, shippingCharges: Option<int>,
    discount: Option<int>, total: Option<int>)

  /** The check `!shippingInfo || !orderItems || !user || !subtotal || !tax || !total` fails.
      Objects and arrays are truthy whenever present, so an empty item list passes;
      a subtotal, tax or total of 0 does not.  Shipping charges and discount are optional. */
  predicate HasRequiredFields(b: NewOrderBody)
  {
    && b.shippingInfo.Some?
    && b.orderItems.Some?
    && TruthyString(b.user)
    && TruthyNumber(b.subtotal)
    && TruthyNumber(b.tax)
    && TruthyNumber(b.total)
  }

  const MissingOrderFields := ApiError("Please Enter All Fields", 400)
  const OrderNotFound := ApiError("Order not found", 404)

  /** The document `Order.create` stores for an accepted body under the id the store
      assigns.  The initial status Processing is an assumption: it is the default of the
      order schema, which is not part of this model. */
  function CreatedOrder(b: NewOrderBody, id: string): Order
    requires HasRequiredFields(b)
  {
    Order(id, b.user.value, b.shippingInfo.value, b.orderItems.value,
          b.subtotal.value, b.tax.value, b.shippingCharges, b.discount,
          b.total.value, Processing)
  }

  /** `order.orderItems.map(i => String(i.productId))` */
  function ProductIds(items: seq<OrderItem>): (ids: seq<string>)
    ensures |ids| == |items|
    ensures forall i :: 0 <= i < |items| ==> ids[i] == items[i].productId
  {
    seq(|items|, i requires 0 <= i < |items| => items[i].productId)
  }

  predicate DistinctIds(s: seq<Order>)
  {
    forall i, j :: 0 <= i < j < |s| ==> s[i].id != s[j].id
  }

  /** `Order.findById(id)`, with ids compared as texts: an id is taken to be the
      canonical lower-case hex text of a stored ObjectId, not cast to one. */
  function FindById(s: seq<Order>, id: string): (r: Option<Order>)
    ensures r.Some? ==> r.value in s && r.value.id == id
    ensures r.None? ==> forall o :: o in s ==> o.id != id
  {
    if s == [] then None
    else if s[0].id == id then Some(s[0])
    else FindById(s[1..], id)
  }

  /** With unique ids, the order found is the one order carrying that id. */
  lemma {:induction false} FindByIdUnique(s: seq<Order>, o: Order)
    requires DistinctIds(s) && o in s
    ensures FindById(s, o.id) == Some(o)
  {
    if s[0] != o {
      assert s[0].id != o.id by {
        var j :| 0 <= j < |s| && s[j] == o;
        assert j != 0;
      }
      assert DistinctIds(s[1..]) by {
        forall i, j | 0 <= i < j < |s[1..]| ensures s[1..][i].id != s[1..][j].id {
          assert s[1..][i] == s[i + 1] && s[1..][j] == s[j + 1];
        }
      }
      FindByIdUnique(s[1..], o);
    }
  }

  /** `Order.find({ user })`: the user's orders in store order. */
  function OrdersOfUser(s: seq<Order>, user: string): (r: seq<Order>)
    ensures |r| <= |s|
    ensures forall o :: o in r <==> o in s && o.user == user
  {
    if s == [] then []
    else (if s[0].user == user then [s[0]] else []) + OrdersOfUser(s[1..], user)
  }

  /** `order.save()` after an in-place update: the document with `o`'s id becomes `o`. */
  function ReplaceById(s: seq<Order>, o: Order): (r: seq<Order>)
    ensures |r| == |s|
  {
    if s == [] then []
    else [if s[0].id == o.id then o else s[0]] + ReplaceById(s[1..], o)
  }

  /** Saving changes the saved order and no other: lookups of other ids are unchanged,
      a lookup of its id finds the new document, and the ids stay unique. */
  lemma {:induction false} ReplaceByIdEffect(s: seq<Order>, o: Order)
    requires DistinctIds(s) && FindById(s, o.id).Some?
    ensures FindById(ReplaceById(s, o), o.id) == Some(o)
    ensures forall id :: id != o.id ==> FindById(ReplaceById(s, o), id) == FindById(s, id)
    ensures DistinctIds(ReplaceById(s, o))
  {
    ReplaceKeepsIds(s, o);
    var r := ReplaceById(s, o);
    if s[0].id != o.id {
      DistinctTail(s);
      ReplaceByIdEffect(s[1..], o);
      assert r[1..] == ReplaceById(s[1..], o);
    }
  }

  lemma {:induction false} ReplaceKeepsIds(s: seq<Order>, o: Order)
    ensures forall i :: 0 <= i < |s| ==> ReplaceById(s, o)[i].id == s[i].id
    ensures forall id :: id != o.id ==> FindById(ReplaceById(s, o), id) == FindById(s, id)
  {
    if s != [] {
      ReplaceKeepsIds(s[1..], o);
      var r := ReplaceById(s, o);
      assert r[1..] == ReplaceById(s[1..], o);
      forall i | 0 < i < |s| ensures r[i].id == s[i].id {
        assert r[i] == r[1..][i - 1];
      }
    }
  }

  lemma DistinctTail(s: seq<Order>)
    requires DistinctIds(s) && s != []
    ensures DistinctIds(s[1..])
    ensures forall o :: o in s[1..] ==> o.id != s[0].id
  {
    forall i, j | 0 <= i < j < |s[1..]| ensures s[1..][i].id != s[1..][j].id {
      assert s[1..][i] == s[i + 1] && s[1..][j] == s[j + 1];
    }
  }

  /** `order.deleteOne()`: the document with that id leaves the collection. */
  function RemoveById(s: seq<Order>, id: string): (r: seq<Order>)
    ensures |r| <= |s|
    ensures forall o :: o in r <==> o in s && o.id != id
  {
    if s == [] then []
    else (if s[0].id == id then [] else [s[0]]) + RemoveById(s[1..], id)
  }

  /** Deleting forgets exactly that order: its id is no longer found, other lookups are
      unchanged, one document fewer remains, and the ids stay unique. */
  lemma RemoveByIdEffect(s: seq<Order>, id: string)
    requires DistinctIds(s) && FindById(s, id).Some?
    ensures FindById(RemoveById(s, id), id).None?
    ensures forall id' :: id' != id ==> FindById(RemoveById(s, id), id') == FindById(s, id')
    ensures |RemoveById(s, id)| == |s| - 1
    ensures DistinctIds(RemoveById(s, id))
  {
    RemoveKeepsOthers(s, id);
    RemoveOneLength(s, id);
    RemoveKeepsDistinct(s, id);
  }

  lemma {:induction false} RemoveKeepsOthers(s: seq<Order>, id: string)
    ensures forall id' :: id' != id ==> FindById(RemoveById(s, id), id') == FindById(s, id')
  {
    if s != [] {
      RemoveKeepsOthers(s[1..], id);
      if s[0].id == id {
        assert RemoveById(s, id) == RemoveById(s[1..], id);
      } else {
        var r := RemoveById(s, id);
        assert r == [s[0]] + RemoveById(s[1..], id);
        assert r[1..] == RemoveById(s[1..], id);
      }
    }
  }

  lemma {:induction false} RemoveOneLength(s: seq<Order>, id: string)
    requires DistinctIds(s) && FindById(s, id).Some?
    ensures |RemoveById(s, id)| == |s| - 1
  {
    DistinctTail(s);
    if s[0].id == id {
      RemoveAbsent(s[1..], id);
    } else {
      RemoveOneLength(s[1..], id);
    }
  }

  lemma {:induction false} RemoveKeepsDistinct(s: seq<Order>, id: string)
    requires DistinctIds(s)
    ensures DistinctIds(RemoveById(s, id))
  {
    if s != [] {
      DistinctTail(s);
      RemoveKeepsDistinct(s[1..], id);
      var r := RemoveById(s[1..], id);
      if s[0].id != id {
        assert RemoveById(s, id) == [s[0]] + r;
        assert forall o :: o in r ==> o in s[1..];
        DistinctCons(s[0], r);
      } else {
        assert RemoveById(s, id) == r;
      }
    }
  }

  lemma DistinctCons(x: Order, r: seq<Order>)
    requires DistinctIds(r)
    requires forall o :: o in r ==> o.id != x.id
    ensures DistinctIds([x] + r)
  {
    var t := [x] + r;
    forall i, j | 0 <= i < j < |t| ensures t[i].id != t[j].id {
      assert t[j] == r[j - 1];
      if i == 0 {
        assert r[j - 1] in r;
      } else {
        assert t[i] == r[i - 1];
      }
    }
  }

  lemma {:induction false} RemoveAbsent(s: seq<Order>, id: string)
    requires forall o :: o in s ==> o.id != id
    ensures RemoveById(s, id) == s
  {
    if s != [] {
      RemoveAbsent(s[1..], id);
    }
  }

  /** `Order.create`: the new document goes to the end of the collection under a fresh id;
      it is then found under that id and nothing else changes. */
  lemma {:induction false} AppendEffect(s: seq<Order>, o: Order)
    requires DistinctIds(s) && FindById(s, o.id).None?
    ensures FindById(s + [o], o.id) == Some(o)
    ensures forall id :: id != o.id ==> FindById(s + [o], id) == FindById(s, id)
    ensures DistinctIds(s + [o])
  {
    AppendKeepsDistinct(s, o);
    if s != [] {
      DistinctTail(s);
      assert (s + [o])[1..] == s[1..] + [o];
      AppendEffect(s[1..], o);
    }
  }

  lemma AppendKeepsDistinct(s: seq<Order>, o: Order)
    requires DistinctIds(s) && forall e :: e in s ==> e.id != o.id
    ensures DistinctIds(s + [o])
  {
    var t := s + [o];
    forall i, j | 0 <= i < j < |t| ensures t[i].id != t[j].id {
      assert t[i] == s[i];
      if j == |s| {
        assert s[i] in s;
      } else {
        assert t[j] == s[j];
      }
    }
  }

  /** With unique ids, every stored order carrying the id of a found order is that order. */
  lemma FoundIsOnlyOne(s: seq<Order>, id: string)
    requires DistinctIds(s) && FindById(s, id).Some?
    ensures forall e :: e in s && e.id == id ==> e == FindById(s, id).value
  {
    forall e | e in s && e.id == id ensures e == FindById(s, id).value {
      FindByIdUnique(s, e);
    }
  }

  /** Saving an order changes no other user's order list. */
  lemma {:induction false} ReplaceOtherUser(s: seq<Order>, o: Order, u: string)
    requires forall e :: e in s && e.id == o.id ==> e.user == o.user
    requires u != o.user
    ensures OrdersOfUser(ReplaceById(s, o), u) == OrdersOfUser(s, u)
  {
    if s != [] {
      ReplaceOtherUser(s[1..], o, u);
      assert ReplaceById(s, o)[1..] == ReplaceById(s[1..], o);
    }
  }

  /** Deleting an order of another user leaves a user's order list as it was. */
  lemma {:induction false} RemoveOtherUser(s: seq<Order>, id: string, u: string)
    requires forall e :: e in s && e.id == id ==> e.user != u
    ensures OrdersOfUser(RemoveById(s, id), u) == OrdersOfUser(s, u)
  {
    if s != [] {
      RemoveOtherUser(s[1..], id, u);
      var r := RemoveById(s, id);
      if s[0].id == id {
        assert r == RemoveById(s[1..], id);
      } else {
        assert r == [s[0]] + RemoveById(s[1..], id);
        assert r[1..] == RemoveById(s[1..], id);
      }
    }
  }

  /** A new order of another user leaves a user's order list as it was; the owner's list
      gains the new order at its end. */
  lemma {:induction false} AppendUserLists(s: seq<Order>, o: Order, u: string)
    ensures OrdersOfUser(s + [o], u) == OrdersOfUser(s, u) + (if o.user == u then [o] else [])
  {
    if s == [] {
      assert [o][1..] == [];
    } else {
      assert (s + [o])[1..] == s[1..] + [o];
      AppendUserLists(s[1..], o, u);
    }
  }
}
