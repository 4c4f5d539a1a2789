/**
 * The flat order record. Its shape is the `PayloadProps` interface
 * (`orderId` through `tags`, all text) plus the `createdAt` column the
 * table adds when a row is first created.
 */
module OrderRecord {

  datatype Option<T> = None | Some(value: T) {
    /** The value if present, otherwise `default`. */
    function GetOr(default: T): T
    {
      if Some? then value else default
    }
  }

  /** A stored row of the `order` table. */
  datatype Order = Order(
    orderId: string,
    orderNumber: string,
    totalPrice: string,
    paymentGateway: string,
    customerEmail: string,
    customerFullName: string,
    customerAddress: string,
    tags: string,
    createdAt: string)

  /**
   * The argument of `createOrUpdate`: the key, and each other field either
   * supplied (`Some`) or left out (`None`, an `undefined` property).
   */
  datatype OrderInput = OrderInput(
    orderId: string,
    orderNumber: Option<string>,
    totalPrice: Option<string>,
    paymentGateway: Option<string>,
    customerEmail: Option<string>,
    customerFullName: Option<string>,
    customerAddress: Option<string>,
    tags: Option<string>)

  /** Every non-key field is supplied. */
  predicate Complete(input: OrderInput)
  {
    && input.orderNumber.Some? && input.totalPrice.Some? && input.paymentGateway.Some?
    && input.customerEmail.Some? && input.customerFullName.Some?
    && input.customerAddress.Some? && input.tags.Some?
  }

  /** `o` holds the key of `input` and the value of every field `input` supplies. */
  predicate Carries(o: Order, input: OrderInput)
  {
    && o.orderId == input.orderId
    && (input.orderNumber.Some? ==> o.orderNumber == input.orderNumber.value)
    && (input.totalPrice.Some? ==> o.totalPrice == input.totalPrice.value)
    && (input.paymentGateway.Some? ==> o.paymentGateway == input.paymentGateway.value)
    && (input.customerEmail.Some? ==> o.customerEmail == input.customerEmail.value)
    && (input.customerFullName.Some? ==> o.customerFullName == input.customerFullName.value)
    && (input.customerAddress.Some? ==> o.customerAddress == input.customerAddress.value)
    && (input.tags.Some? ==> o.tags == input.tags.value)
  }

  /** `after` agrees with `before` on every field that `input` leaves out, and on `createdAt`. */
  predicate KeepsUnsupplied(before: Order, after: Order, input: OrderInput)
  {
    && after.createdAt == before.createdAt
    && (input.orderNumber.None? ==> after.orderNumber == before.orderNumber)
    && (input.totalPrice.None? ==> after.totalPrice == before.totalPrice)
    && (input.paymentGateway.None? ==> after.paymentGateway == before.paymentGateway)
    && (input.customerEmail.None? ==> after.customerEmail == before.customerEmail)
    && (input.customerFullName.None? ==> after.customerFullName == before.customerFullName)
    && (input.customerAddress.None? ==> after.customerAddress == before.customerAddress)
    && (input.tags.None? ==> after.tags == before.tags)
  }
}
