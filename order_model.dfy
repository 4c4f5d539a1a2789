/**
 * The order store of app/models/order.ts. The `order` table is a map from
 * `orderId` (a unique column) to its row, held in the field of an
 * `OrderStore`; `createOrUpdate` and `deleteOrder` change it after a
 * lookup, `getOrder` and `getOrders` only read it.
 */
module OrderModel {
  import opened OrderRecord
  import opened StringOrder

  type OrderTable = map<string, Order>

  /** Every row is filed under its own `orderId`: the key column is unique. */
  predicate KeyedById(m: OrderTable)
  {
    forall k :: k in m ==> m[k].orderId == k
  }

  /** The row `prisma.order.create` writes: supplied fields as given, others empty, `createdAt` now. */
  function Created(input: OrderInput, now: string): (o: Order)
    ensures Carries(o, input)
    ensures KeepsUnsupplied(Order(input.orderId, "", "", "", "", "", "", "", now), o, input)
  {
    Order(
      input.orderId,
      input.orderNumber.GetOr(""),
      input.totalPrice.GetOr(""),
      input.paymentGateway.GetOr(""),
      input.customerEmail.GetOr(""),
      input.customerFullName.GetOr(""),
      input.customerAddress.GetOr(""),
      input.tags.GetOr(""),
      now)
  }

  /** The row `prisma.order.update` leaves: the key and `createdAt` kept, supplied fields replaced. */
  function Merged(o: Order, input: OrderInput): (r: Order)
    requires o.orderId == input.orderId
    ensures Carries(r, input)
    ensures KeepsUnsupplied(o, r, input)
  {
    o.(
      orderNumber := input.orderNumber.GetOr(o.orderNumber),
      totalPrice := input.totalPrice.GetOr(o.totalPrice),
      paymentGateway := input.paymentGateway.GetOr(o.paymentGateway),
      customerEmail := input.customerEmail.GetOr(o.customerEmail),
      customerFullName := input.customerFullName.GetOr(o.customerFullName),
      customerAddress := input.customerAddress.GetOr(o.customerAddress),
      tags := input.tags.GetOr(o.tags))
  }

  /** The table after a successful `createOrUpdate(input)` at time `now`. */
  function Upserted(m: OrderTable, input: OrderInput, now: string): (r: OrderTable)
    requires KeyedById(m)
    ensures KeyedById(r)
    ensures r.Keys == m.Keys + {input.orderId}
    ensures |r| == if input.orderId in m then |m| else |m| + 1
    ensures forall k :: k in m && k != input.orderId ==> r[k] == m[k]
    ensures Carries(r[input.orderId], input)
    ensures input.orderId in m ==> KeepsUnsupplied(m[input.orderId], r[input.orderId], input)
    ensures input.orderId !in m ==>
      KeepsUnsupplied(Order(input.orderId, "", "", "", "", "", "", "", now), r[input.orderId], input)
  {
    var id := input.orderId;
    if id in m then m[id := Merged(m[id], input)] else m[id := Created(input, now)]
  }

  /** A new key with every field supplied stores exactly the input, key included. */
  lemma CreateStoresInput(m: OrderTable, input: OrderInput, now: string)
    requires KeyedById(m) && input.orderId !in m && Complete(input)
    ensures Upserted(m, input, now)[input.orderId] ==
      Order(input.orderId, input.orderNumber.value, input.totalPrice.value,
            input.paymentGateway.value, input.customerEmail.value,
            input.customerFullName.value, input.customerAddress.value,
            input.tags.value, now)
  {
  }

  /** After an upsert exactly one stored row has the input's `orderId`. */
  lemma {:induction false} UpsertLeavesOneRow(m: OrderTable, input: OrderInput, now: string)
    requires KeyedById(m)
    ensures var r := Upserted(m, input, now);
      (set o | o in r.Values && o.orderId == input.orderId) == {r[input.orderId]}
  {
    var r := Upserted(m, input, now);
    var rows := set o | o in r.Values && o.orderId == input.orderId;
    forall o | o in rows
      ensures o == r[input.orderId]
    {
      var k :| k in r && r[k] == o;
    }
    assert r[input.orderId] in r.Values;
  }

  /** Replaying the same input (a webhook re-delivery) changes nothing more, whenever it comes. */
  lemma {:induction false} UpsertIdempotent(m: OrderTable, input: OrderInput, now: string, later: string)
    requires KeyedById(m)
    ensures Upserted(Upserted(m, input, now), input, later) == Upserted(m, input, now)
  {
    var once := Upserted(m, input, now);
    var twice := Upserted(once, input, later);
    var id := input.orderId;
    assert twice[id] == once[id];
    assert twice.Keys == once.Keys;
  }

  /** Lemma for GetOrders: a listing that visits every key visits every row. */
  lemma {:induction false} ListingCoversRows(m: OrderTable, ids: seq<string>, rows: seq<Order>)
    requires forall k :: k in m ==> k in ids
    requires forall i :: 0 <= i < |ids| ==> ids[i] in m
    requires |rows| == |ids| && forall i :: 0 <= i < |rows| ==> rows[i] == m[ids[i]]
    ensures forall o :: o in m.Values ==> o in rows
  {
    forall o | o in m.Values
      ensures o in rows
    {
      var k :| k in m && m[k] == o;
      var i :| 0 <= i < |ids| && ids[i] == k;
      assert rows[i] == o;
    }
  }

  class OrderStore {
    /** The `order` table, by `orderId`. */
    var orders: OrderTable

    ghost predicate Valid()
      reads this
    {
      KeyedById(orders)
    }

    constructor ()
      ensures Valid() && orders == map[]
    {
      orders := map[];
    }

    /**
     * `createOrUpdate`: look the key up, then update the supplied fields of
     * the row found or create a new row. A storage fault (`fault`) is caught:
     * the result is `None` and the table is as before.
     */
    method CreateOrUpdate(input: OrderInput, now: string, fault: bool) returns (result: Option<Order>)
      requires Valid()
      modifies this
      ensures Valid()
      ensures fault ==> result == None && orders == old(orders)
      ensures !fault ==> orders == Upserted(old(orders), input, now)
      ensures !fault ==> result == Some(orders[input.orderId])
    {
      if fault {
        return None;
      }
      var existing := GetOrder(input.orderId);
      if existing.Some? {
        var updated := Merged(existing.value, input);
        orders := orders[input.orderId := updated];
        result := Some(updated);
      } else {
        var created := Created(input, now);
        orders := orders[input.orderId := created];
        result := Some(created);
      }
    }

    /** `deleteOrder`: remove the row with this key; an absent key is a logged no-op. */
    method DeleteOrder(orderId: string)
      requires Valid()
      modifies this
      ensures Valid()
      ensures orderId !in old(orders) ==> orders == old(orders)
      ensures orders.Keys == old(orders).Keys - {orderId}
      ensures forall k :: k in orders ==> orders[k] == old(orders)[k]
      ensures |orders| == if orderId in old(orders) then |old(orders)| - 1 else |old(orders)|
    {
      var existing := GetOrder(orderId);
      if existing.Some? {
        orders := orders - {existing.value.orderId};
      }
    }

    /** `getOrder`: the stored row with this key, or `None` (null) when there is none. */
    function GetOrder(orderId: string): (r: Option<Order>)
      reads this
      requires Valid()
      ensures r.None? <==> orderId !in orders
      ensures r.Some? ==> r.value in orders.Values && r.value.orderId == orderId
    {
      if orderId in orders then Some(orders[orderId]) else None
    }

    /** `getOrders`: every stored row once, by `orderId` descending. */
    function GetOrders(): (r: seq<Order>)
      reads this
      requires Valid()
      ensures |r| == |orders|
      ensures forall i :: 0 <= i < |r| ==> r[i] in orders.Values
      ensures forall o :: o in orders.Values ==> o in r
      ensures forall i, j :: 0 <= i < j < |r| ==> Less(r[j].orderId, r[i].orderId)
    {
      var m := orders;
      var ids := Descending(m.Keys);
      var rows := seq(|ids|, i requires 0 <= i < |ids| => m[ids[i]]);
      ListingCoversRows(m, ids, rows);
      rows
    }
  }

  /** The tag-edit sequence: a new order is created, then only its tags are replaced. */
  method TagEditScenario()
  {
    var store := new OrderStore();
    var created := store.CreateOrUpdate(
      OrderInput("1001", Some("#1001"), None, None, None, None, None, Some("vip,urgent")), "t0", false);
    assert created == Some(Order("1001", "#1001", "", "", "", "", "", "vip,urgent", "t0"));
    var edited := store.CreateOrUpdate(
      OrderInput("1001", None, None, None, None, None, None, Some("vip")), "t1", false);
    assert edited == Some(Order("1001", "#1001", "", "", "", "", "", "vip", "t0"));
    assert |store.orders| == 1;
    store.DeleteOrder("1002");
    assert store.orders.Keys == {"1001"};
  }
}
