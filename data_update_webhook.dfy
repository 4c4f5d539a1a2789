/**
 * The `data_update` webhook route: the order payload the platform
 * delivers, its normalisation into the argument of `createOrUpdate`, and
 * the action that dispatches on the topic and the session.
 */
module DataUpdateWebhook {
  import opened OrderRecord
  import opened Strings
  import opened OrderModel

  /** The payload's `id`: a JSON whole number (exact in a double up to 2^53 - 1), or already text. */
  datatype PayloadId = NumericId(n: nat) | TextId(text: string)

  datatype Address = Address(address1: string, city: string, country: string)

  datatype Customer = Customer(email: string, firstName: string, lastName: string, defaultAddress: Address)

  /** The fields of the order payload that the handler destructures. */
  datatype OrderPayload = OrderPayload(
    id: PayloadId,
    orderNumber: string,
    totalPrice: string,
    paymentGatewayNames: seq<string>,
    tags: string,
    customer: Customer)

  /** An HTTP response: status and body. */
  datatype Response = Response(status: nat, body: string)

  const OrdersUpdated: string := "ORDERS_UPDATED"
  const OrdersCreate: string := "ORDERS_CREATE"

  /** The two topics the handler acts on; every other topic is logged and ignored. */
  predicate Subscribed(topic: string)
  {
    topic == OrdersUpdated || topic == OrdersCreate
  }

  /** `id.toString()`: a number prints as its decimal digits, text stays as it is. */
  function IdText(id: PayloadId): (s: string)
    ensures id.TextId? ==> s == id.text
    ensures id.NumericId? ==> |s| >= 1 && AllDigits(s) && DecimalValue(s) == id.n
    ensures id.NumericId? && |s| > 1 ==> s[0] != '0'
  {
    match id
    case NumericId(n) => DecimalRoundTrip(n); DecimalString(n)
    case TextId(text) => text
  }

  /** `payment_gateway_names.join(",")`. */
  function GatewayText(names: seq<string>): (s: string)
    ensures |names| == 0 ==> s == ""
    ensures |names| == 1 ==> s == names[0]
    ensures |names| >= 1 && (forall i :: 0 <= i < |names| ==> ',' !in names[i]) ==> Split(s, ',') == names
  {
    SplitJoinWhenFree(names, ',');
    Join(names, ",")
  }

  /** `${first_name} ${last_name}`: no trimming, no presence check. */
  function FullName(first: string, last: string): (s: string)
    ensures |s| == |first| + 1 + |last|
    ensures s[..|first|] == first && s[|first|] == ' ' && s[|first| + 1..] == last
  {
    first + " " + last
  }

  /** `${address1}, ${city}, ${country}`: the three parts verbatim, each pair separated by ", ". */
  function AddressLine(a: Address): (s: string)
    ensures |s| == |a.address1| + |a.city| + |a.country| + 4
    ensures var n1, n2 := |a.address1|, |a.city|;
      && s[..n1] == a.address1
      && s[n1..n1 + 2] == ", "
      && s[n1 + 2..n1 + 2 + n2] == a.city
      && s[n1 + 2 + n2..n1 + 4 + n2] == ", "
      && s[n1 + 4 + n2..] == a.country
    ensures ',' !in a.address1 && ',' !in a.city && ',' !in a.country ==>
      Split(s, ',') == [a.address1, " " + a.city, " " + a.country]
  {
    var s := a.address1 + ", " + a.city + ", " + a.country;
    var n1, n2 := |a.address1|, |a.city|;
    assert s[..n1] == a.address1;
    assert s[n1..n1 + 2] == ", ";
    assert s[n1 + 2..n1 + 2 + n2] == a.city;
    assert s[n1 + 2 + n2..n1 + 4 + n2] == ", ";
    assert s[n1 + 4 + n2..] == a.country;
    assert s == a.address1 + [','] + (" " + a.city) + [','] + (" " + a.country);
    assert ',' !in a.city ==> ',' !in " " + a.city;
    assert ',' !in a.country ==> ',' !in " " + a.country;
    SplitThreeWhenFree(a.address1, " " + a.city, " " + a.country, ',');
    s
  }

  /** The argument both subscribed topics pass to `createOrUpdate`: every field supplied. */
  function Normalise(p: OrderPayload): (input: OrderInput)
    ensures Complete(input)
    ensures input.orderId == IdText(p.id)
  {
    OrderInput(
      IdText(p.id),
      Some(p.orderNumber),
      Some(p.totalPrice),
      Some(GatewayText(p.paymentGatewayNames)),
      Some(p.customer.email),
      Some(FullName(p.customer.firstName, p.customer.lastName)),
      Some(AddressLine(p.customer.defaultAddress)),
      Some(p.tags))
  }

  /** The row a delivery of `p` leaves under its key, given the `createdAt` it keeps. */
  function StoredRow(p: OrderPayload, createdAt: string): Order
  {
    Order(
      IdText(p.id), p.orderNumber, p.totalPrice, GatewayText(p.paymentGatewayNames),
      p.customer.email, FullName(p.customer.firstName, p.customer.lastName),
      AddressLine(p.customer.defaultAddress), p.tags, createdAt)
  }

  /** The table after one delivery; this is what `Action` does to the store. */
  function Handled(m: OrderTable, topic: string, hasSession: bool, p: OrderPayload, now: string, fault: bool): (r: OrderTable)
    requires KeyedById(m)
    ensures KeyedById(r)
  {
    if Subscribed(topic) && hasSession && !fault then Upserted(m, Normalise(p), now) else m
  }

  /** Other topics, and subscribed topics without a session, leave the table as it was. */
  lemma IgnoredDelivery(m: OrderTable, topic: string, hasSession: bool, p: OrderPayload, now: string, fault: bool)
    requires KeyedById(m)
    requires !Subscribed(topic) || !hasSession
    ensures Handled(m, topic, hasSession, p, now, fault) == m
  {
  }

  /** Both subscribed topics have the same effect on the table. */
  lemma TopicsAgree(m: OrderTable, hasSession: bool, p: OrderPayload, now: string, fault: bool)
    requires KeyedById(m)
    ensures Handled(m, OrdersUpdated, hasSession, p, now, fault) == Handled(m, OrdersCreate, hasSession, p, now, fault)
  {
  }

  /**
   * A delivery that reaches the store overwrites every field of the row for
   * the payload's key (keeping `createdAt` when the row existed), and touches
   * no other row.
   */
  lemma {:induction false} DeliveryStoresPayload(m: OrderTable, topic: string, p: OrderPayload, now: string)
    requires KeyedById(m) && Subscribed(topic)
    ensures var r := Handled(m, topic, true, p, now, false);
      var key := IdText(p.id);
      && r.Keys == m.Keys + {key}
      && (forall k :: k in m && k != key ==> r[k] == m[k])
      && r[key] == StoredRow(p, if key in m then m[key].createdAt else now)
  {
    var input := Normalise(p);
    var r := Upserted(m, input, now);
    var key := IdText(p.id);
    assert Carries(r[key], input);
    if key in m {
      assert KeepsUnsupplied(m[key], r[key], input);
    } else {
      assert KeepsUnsupplied(Order(key, "", "", "", "", "", "", "", now), r[key], input);
    }
  }

  /** A re-delivery of the same payload, under either topic, adds nothing. */
  lemma {:induction false} RedeliveryIdempotent(m: OrderTable, first: string, second: string, p: OrderPayload, now: string, later: string)
    requires KeyedById(m) && Subscribed(first) && Subscribed(second)
    ensures var once := Handled(m, first, true, p, now, false);
      Handled(once, second, true, p, later, false) == once
  {
    UpsertIdempotent(m, Normalise(p), now, later);
  }

  /** `action`: dispatch on the topic; only a subscribed topic with a session upserts. */
  method Action(store: OrderStore, topic: string, hasSession: bool, p: OrderPayload, now: string, fault: bool)
    returns (response: Response)
    requires store.Valid()
    modifies store
    ensures store.Valid()
    ensures store.orders == Handled(old(store.orders), topic, hasSession, p, now, fault)
    ensures response == Response(200, "")
  {
    if topic == OrdersUpdated {
      if hasSession {
        var input := Normalise(p);
        var _ := store.CreateOrUpdate(input, now, fault);
      }
    } else if topic == OrdersCreate {
      if hasSession {
        var input := Normalise(p);
        var _ := store.CreateOrUpdate(input, now, fault);
      }
    }
    response := Response(200, "");
  }
}
