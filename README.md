# Order mirroring core of a Shopify embedded admin app

This project models, in Dafny, the bookkeeping core of an app that mirrors a
merchant's orders into a local `order` table and exports them as CSV:

- **Order store** (`OrderModel`, from `app/models/order.ts`): the table is a
  map from `orderId` to the stored row, held in the field `orders` of class
  `OrderStore`. `CreateOrUpdate` looks the key up and then either updates the
  supplied fields of the row found or creates a row; `DeleteOrder` removes a
  row and is a no-op for an absent key; `GetOrder` and `GetOrders` are
  read-only queries. The pure function `Upserted` is the specification of a
  successful `createOrUpdate`; its own contract gives the keys, the frame, the
  size and the stored fields, and lemmas about it give key uniqueness and
  idempotence.
- **Webhook normalisation and dispatch** (`DataUpdateWebhook`, from
  `app/routes/webhooks.app.data_update.tsx`): the order payload as a datatype,
  its mapping to the `createOrUpdate` argument (`Normalise`), and `Action`,
  which switches on the topic and the session and calls the store.
  `Handled` is the table after one delivery.
- **CSV rows** (`OrdersCsv`, from the `csvContent` expression of
  `app/routes/app.orders.tsx`): `Row` and `Csv` over `seq<char>`, with a
  simple CSV reader (`ReadFields`) as the partner that reads a row back.
- Support modules: `OrderRecord` (the row, shaped like `PayloadProps` in
  `app/interfaces/common.ts` plus `createdAt`, and the partial input),
  `Strings` (`join`, `split`, decimal text of a number) and `StringOrder`
  (the text order `getOrders` sorts by).

Modelling choices:

- The database client is external. A storage fault is the input `fault`: the
  error is caught and logged and `createOrUpdate` gives `undefined`, modelled
  as `None` with the table unchanged.
- The clock is the input `now`. It is the `createdAt` of a newly created row.
- The webhook's session is the boolean `hasSession`. The topic is a string.
- The table's schema is not part of this model. A create writes the empty
  string for every field the input leaves out. A schema that rejects this
  is covered by `fault`.
- Three behaviours of the code that the model keeps: `getOrders` sorts by
  `orderId` descending (app/models/order.ts:42); the full name is
  `first_name + " " + last_name`, with no trimming and no presence check
  (app/routes/webhooks.app.data_update.tsx:29); `createOrUpdate` does no
  validation of the key (app/models/order.ts:3-14).

## Model

| member | source | states |
|---|---|---|
| `OrderModel.Created` | app/models/order.ts:12-13 | a created row holds the input's key and every supplied field; unsupplied fields are empty; `createdAt` is the creation time |
| `OrderModel.Merged` | app/models/order.ts:4-11 | an update keeps the key and `createdAt`, gives every supplied field its new value and leaves every unsupplied field as it was |
| `OrderModel.Upserted` | app/models/order.ts:3-14 | after an upsert the key is present, the keys are the old keys plus the input's key, the size grows by one exactly when the key was absent, every other row is unchanged, the row carries the supplied values and keeps unsupplied ones, and every row is still filed under its own `orderId` |
| `OrderModel.CreateStoresInput` | app/models/order.ts:12-13 | for an absent key and a complete input, the stored row equals the input, key included, with `createdAt` now |
| `OrderModel.UpsertLeavesOneRow` | app/models/order.ts:6-14 | after an upsert exactly one stored row has the input's `orderId` |
| `OrderModel.UpsertIdempotent` | app/models/order.ts:6-14 | applying the same input twice, at any two times, leaves the same table as applying it once |
| `OrderModel.OrderStore.CreateOrUpdate` | app/models/order.ts:3-18 | on a fault the result is `None` and the table is unchanged; otherwise the table becomes `Upserted` of the old table and the result is the stored row |
| `OrderModel.OrderStore.DeleteOrder` | app/models/order.ts:20-28 | an absent key leaves the table unchanged; a present key removes exactly that row, leaves every other row as it was, and shrinks the table by one |
| `OrderModel.OrderStore.GetOrder` | app/models/order.ts:30-37 | the result is `None` (null) exactly when the key is absent; otherwise it is a stored row with that `orderId`; the table is only read |
| `OrderModel.OrderStore.GetOrders` | app/models/order.ts:39-46 | the listing has one entry per stored row, holds only stored rows, holds every stored row, and is strictly descending by `orderId` (so each row appears once) |
| `StringOrder.Descending` | app/models/order.ts:42 | the listing of a key set has each key exactly once and is strictly descending |
| `DataUpdateWebhook.IdText` | app/routes/webhooks.app.data_update.tsx:22 | `toString` of a numeric id is all digits, has no leading zero and reads back as the id; a text id is kept as it is |
| `DataUpdateWebhook.GatewayText` | app/routes/webhooks.app.data_update.tsx:25 | no gateway names give "", one name is passed through, and, for at least one name and no name holding a comma, splitting on "," gives back the names (an empty list gives "", which splits to one empty name) |
| `DataUpdateWebhook.FullName` | app/routes/webhooks.app.data_update.tsx:29 | the full name is the first name, one space, then the last name, untrimmed |
| `DataUpdateWebhook.AddressLine` | app/routes/webhooks.app.data_update.tsx:27 | the address is exactly `address1`, ", ", city, ", ", country, for every input (stated slice by slice); when no part holds a comma, splitting on "," also gives the three parts back (the last two after a space) |
| `DataUpdateWebhook.Normalise` | app/routes/webhooks.app.data_update.tsx:13-30 | the normalised input supplies every field and its key is the id's text |
| `DataUpdateWebhook.Handled` | app/routes/webhooks.app.data_update.tsx:9-61 | a delivery keeps every row filed under its own `orderId` |
| `DataUpdateWebhook.IgnoredDelivery` | app/routes/webhooks.app.data_update.tsx:9-61 | a topic other than `ORDERS_UPDATED` and `ORDERS_CREATE`, or a missing session, leaves the table unchanged |
| `DataUpdateWebhook.TopicsAgree` | app/routes/webhooks.app.data_update.tsx:10-58 | the two handled topics have the same effect on the table |
| `DataUpdateWebhook.DeliveryStoresPayload` | app/routes/webhooks.app.data_update.tsx:13-30 | a delivery that reaches the store adds only the payload's key, changes no other row, and stores the payload's fields verbatim (tags, number, price, email) or as joined (gateways, name, address), keeping `createdAt` of an existing row |
| `DataUpdateWebhook.RedeliveryIdempotent` | app/routes/webhooks.app.data_update.tsx:9-58 | re-delivering the same payload, under either handled topic, leaves the table as one delivery left it |
| `DataUpdateWebhook.Action` | app/routes/webhooks.app.data_update.tsx:5-65 | the store becomes `Handled` of the old table, and the response is always the empty success response |
| `OrdersCsv.RowReadsBack` | app/routes/app.orders.tsx:82-92 | for an order with no double quote in any field and no comma in the six unquoted cells (orderId, orderNumber, totalPrice, paymentGateway, customerEmail, createdAt), reading the row back gives the nine fields in the fixed order, verbatim, with name, address and tags read from inside double quotes |
| `OrdersCsv.CsvLines` | app/routes/app.orders.tsx:69-94 | for at least one order and no cell holding a newline, splitting the text on newlines gives exactly one row per order, in input order (no orders give "", which splits to one empty line) |
| `OrdersCsv.CsvNewlines` | app/routes/app.orders.tsx:69-94 | no orders give the empty text; when no cell holds a newline, n orders give n - 1 newlines, so there is no header and no trailing newline |
| `OrdersCsv.CsvConcat` | app/routes/app.orders.tsx:69-94 | for non-empty `a` and `b`, the text for `a + b` is the text for `a`, one newline, and the text for `b` |
| `OrdersCsv.GatewayCommaShiftsColumns` | app/routes/app.orders.tsx:86 | as written, a gateway cell made of two names joined by one comma (neither name holding a comma or a double quote), in a row whose other cells are `Exportable`, reads as two fields, so the row reads as ten fields with e-mail through date shifted one place right |
| `OrdersCsv.TwoGatewayOrderShiftsColumns` | app/routes/app.orders.tsx:82-92 | the row that a delivery of an order with exactly two gateway names stores, when neither name holds a comma or a double quote and the row's other cells are `Exportable`, reads back as ten fields |
| `OrdersCsv.CorrectedRowReadsBack` | app/routes/app.orders.tsx:82-92 | with the gateway cell quoted too, a row whose gateway text has no double quote and whose other cells are `Exportable` reads back as its nine fields, gateway lists with commas included |
| `Strings.DecimalRoundTrip` | app/routes/webhooks.app.data_update.tsx:22 | the decimal text of a number reads back as that number |
| `Strings.SplitJoin` | app/routes/webhooks.app.data_update.tsx:25 | splitting a join on one separator character gives back the parts when none holds that character |

## Left out

- The database client's query semantics (`findFirst` over a column that is not unique, filters, transactions): the table is a map keyed by the unique `orderId`.
- An input without `orderId`: every caller supplies the key, so the key is always a string in the model.
- Created: the schema is not part of this model, so a create writes "" for unsupplied fields. Column defaults and required columns are not modelled; a rejected create counts as a fault.
- CreateOrUpdate: a fault is one boolean with the whole call undone; a fault between the lookup and the write is not distinguished.
- The local `id` column: nothing in the modelled code reads it.
- A storage fault in `deleteOrder`, `getOrder` or `getOrders`: these have no try/catch, so such a fault propagates to the caller; the model gives them no fault path (app/models/order.ts:20-46).
- GetOrders: the order is character-code order on `orderId`. The database's collation is not visible; note that numeric ids sort as text, so the listing puts "9" before "10".
- Authentication: `authenticate.webhook` and `authenticate.admin` are external. The session is a boolean, the topic a string, and the shop name is unused.
- The race between the lookup and the write under concurrent deliveries (concurrency).
- Console logging, and the exception that destructuring throws when `customer` or `default_address` is missing or `payment_gateway_names` is not an array: the payload datatype always has them.
- IdText: whole-number ids are modelled only up to 2^53 - 1 (9007199254740991, `Number.MAX_SAFE_INTEGER`). A JSON number is a double, so a larger id is rounded when the payload is parsed, and `toString` prints the shortest digits that identify the double (2^64 prints as "18446744073709552000"; from 10^21 on it uses exponent form). The model prints the exact decimal digits of every `nat`. Fractional ids, printed with a point, are not modelled. Order ids are far below 2^53. `NumericId` holds a `nat`, so negative ids (printed with a leading "-") are not modelled either.
- Null or non-text payload values (for example a null e-mail, or a numeric `order_number`): every payload field is text.
- The React rendering (`OrderTable`, `OrderTableRow`, `EmptyQRCodeState`, `Index`) and the Blob, anchor and download steps of `exportCSV` (UI and browser code).
- `Date` formatting: `createdAt` is opaque text, in the CSV as in the table.
- The tag-edit route and its tag set handling: they are outside the modelled core. Only its call shape (key plus tags) appears, in `OrderModel.TagEditScenario`.
- `Action`'s response is `Response(200, "")`, standing for `new Response()`; headers are not modelled.

## Findings

| source | as written | input that shows it | evidently intended | confidence | as-written member | corrected member |
|---|---|---|---|---|---|---|
| app/routes/app.orders.tsx:86 | the payment-gateway cell is written unquoted, while the webhook (webhooks.app.data_update.tsx:25) stores it as the gateway names joined by "," | an order paid through two gateways, names `["shopify_payments", "gift_card"]`: its row reads as ten fields, and e-mail, name, address, tags and date each land one column to the right | the gateway cell is quoted like the name, address and tags, so every row reads as nine fields | medium; not executed | `OrdersCsv.GatewayCommaShiftsColumns` | `OrdersCsv.CorrectedRowReadsBack` |

`Csv` itself keeps the row as the code writes it, since it models the export as it is. `CorrectedRow` is the same row with the gateway cell quoted, and `CorrectedRowReadsBack` proves the nine-field reading for it.
