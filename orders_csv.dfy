/**
 * The text that `exportCSV` builds from the listed orders: one row per
 * order, nine comma-separated cells in a fixed order, the customer's name,
 * address and tags wrapped in double quotes, rows separated by a newline;
 * no header row and no escaping of any cell.
 */
module OrdersCsv {
  import opened OrderRecord
  import opened Strings
  import DataUpdateWebhook

  function Quoted(s: string): string
  {
    "\"" + s + "\""
  }

  /** The cells of one row, in export order. */
  function Cells(o: Order): seq<string>
  {
    [o.orderId, o.orderNumber, o.totalPrice, o.paymentGateway, o.customerEmail,
     Quoted(o.customerFullName), Quoted(o.customerAddress), Quoted(o.tags), o.createdAt]
  }

  /** The values a reader should find in a row: the nine fields, unquoted. */
  function Values(o: Order): seq<string>
  {
    [o.orderId, o.orderNumber, o.totalPrice, o.paymentGateway, o.customerEmail,
     o.customerFullName, o.customerAddress, o.tags, o.createdAt]
  }

  function Row(o: Order): string
  {
    Join(Cells(o), ",")
  }

  function Rows(os: seq<Order>): seq<string>
  {
    seq(|os|, i requires 0 <= i < |os| => Row(os[i]))
  }

  /** `csvContent`. */
  function Csv(os: seq<Order>): string
  {
    Join(Rows(os), "\n")
  }

  /**
   * Reads one line of CSV the plain way of section 2 of RFC 4180, without
   * its doubled-quote escape: a comma outside double quotes ends a field,
   * and the double quotes themselves are dropped.
   */
  function ReadFields(s: string, quoted: bool): (fields: seq<string>)
    ensures |fields| >= 1
  {
    if |s| == 0 then [""]
    else if s[0] == '"' then ReadFields(s[1..], !quoted)
    else if s[0] == ',' && !quoted then [""] + ReadFields(s[1..], quoted)
    else
      var rest := ReadFields(s[1..], quoted);
      [[s[0]] + rest[0]] + rest[1..]
  }

  /** Text without quotes (and, outside quotes, without commas) is read as part of the current field. */
  lemma {:induction false} ReadPrefix(a: string, t: string, quoted: bool)
    requires '"' !in a && (quoted || ',' !in a)
    ensures var rest := ReadFields(t, quoted);
      ReadFields(a + t, quoted) == [a + rest[0]] + rest[1..]
  {
    var rest := ReadFields(t, quoted);
    if |a| == 0 {
      assert a + t == t && a + rest[0] == rest[0];
      assert [rest[0]] + rest[1..] == rest;
    } else {
      assert (a + t)[0] == a[0] && (a + t)[1..] == a[1..] + t;
      ReadPrefix(a[1..], t, quoted);
      assert [a[0]] + (a[1..] + rest[0]) == a + rest[0];
    }
  }

  /** How a value may stand in a row so that a reader gets it back. */
  predicate Encodes(cell: string, v: string)
  {
    || (cell == v && ',' !in v && '"' !in v)
    || (cell == Quoted(v) && '"' !in v)
  }

  lemma ReadCellThenRest(cell: string, v: string, t: string)
    requires Encodes(cell, v)
    ensures ReadFields(cell + "," + t, false) == [v] + ReadFields(t, false)
  {
    var comma := "," + t;
    assert comma[0] == ',' && comma[1..] == t;
    assert ReadFields(comma, false) == [""] + ReadFields(t, false);
    if cell == v && ',' !in v && '"' !in v {
      assert cell + "," + t == v + comma;
      ReadPrefix(v, comma, false);
      assert v + "" == v;
    } else {
      var close := "\"" + comma;
      assert close[0] == '"' && close[1..] == comma;
      assert ReadFields(close, true) == ReadFields(comma, false);
      var s := cell + "," + t;
      assert s[0] == '"' && s[1..] == v + close;
      ReadPrefix(v, close, true);
      assert v + "" == v;
    }
  }

  lemma ReadLastCell(cell: string, v: string)
    requires Encodes(cell, v)
    ensures ReadFields(cell, false) == [v]
  {
    if cell == v && ',' !in v && '"' !in v {
      ReadPrefix(v, "", false);
      assert v + "" == v;
    } else {
      var close := "\"";
      assert close[1..] == "";
      assert ReadFields(close, true) == [""];
      assert cell[0] == '"' && cell[1..] == v + close;
      ReadPrefix(v, close, true);
      assert v + "" == v;
    }
  }

  /** A reader gets back every value of a row whose cells encode them. */
  lemma {:induction false} JoinReadsBack(cells: seq<string>, values: seq<string>)
    requires |cells| == |values| >= 1
    requires forall i :: 0 <= i < |cells| ==> Encodes(cells[i], values[i])
    ensures ReadFields(Join(cells, ","), false) == values
  {
    if |cells| == 1 {
      ReadLastCell(cells[0], values[0]);
    } else {
      JoinReadsBack(cells[1..], values[1..]);
      ReadCellThenRest(cells[0], values[0], Join(cells[1..], ","));
      assert [values[0]] + values[1..] == values;
    }
  }

  /** No double quote anywhere, and no comma in the six unquoted cells. */
  predicate Exportable(o: Order)
  {
    && ',' !in o.orderId && '"' !in o.orderId
    && ',' !in o.orderNumber && '"' !in o.orderNumber
    && ',' !in o.totalPrice && '"' !in o.totalPrice
    && ',' !in o.paymentGateway && '"' !in o.paymentGateway
    && ',' !in o.customerEmail && '"' !in o.customerEmail
    && '"' !in o.customerFullName && '"' !in o.customerAddress && '"' !in o.tags
    && ',' !in o.createdAt && '"' !in o.createdAt
  }

  /**
   * A row holds the nine fields in export order, verbatim: reading it back
   * gives orderId, orderNumber, totalPrice, paymentGateway, customerEmail,
   * customerFullName, customerAddress, tags and createdAt, the last three
   * quoted ones free to contain commas.
   */
  lemma RowReadsBack(o: Order)
    requires Exportable(o)
    ensures ReadFields(Row(o), false) == Values(o)
  {
    JoinReadsBack(Cells(o), Values(o));
  }

  predicate NoNewline(o: Order)
  {
    forall i :: 0 <= i < |Cells(o)| ==> '\n' !in Cells(o)[i]
  }

  lemma RowAvoidsNewline(o: Order)
    requires NoNewline(o)
    ensures '\n' !in Row(o)
  {
    JoinAvoids(Cells(o), ",", '\n');
  }

  /** One line per order, in input order, when no field holds a newline. */
  lemma CsvLines(os: seq<Order>)
    requires |os| >= 1
    requires forall i :: 0 <= i < |os| ==> NoNewline(os[i])
    ensures Split(Csv(os), '\n') == Rows(os)
    ensures forall i :: 0 <= i < |os| ==> Split(Csv(os), '\n')[i] == Row(os[i])
  {
    forall i | 0 <= i < |os|
      ensures '\n' !in Rows(os)[i]
    {
      RowAvoidsNewline(os[i]);
    }
    SplitJoin(Rows(os), '\n');
  }

  /** No orders give the empty text; n orders give n - 1 newlines (no header, no trailing newline). */
  lemma CsvNewlines(os: seq<Order>)
    requires forall i :: 0 <= i < |os| ==> NoNewline(os[i])
    ensures os == [] ==> Csv(os) == ""
    ensures multiset(Csv(os))['\n'] == if |os| == 0 then 0 else |os| - 1
  {
    forall i | 0 <= i < |os|
      ensures '\n' !in Rows(os)[i]
    {
      RowAvoidsNewline(os[i]);
    }
    JoinCount(Rows(os), '\n');
  }

  /** Rows are independent: the export of `a + b` is the two exports joined by one newline. */
  lemma CsvConcat(a: seq<Order>, b: seq<Order>)
    requires |a| >= 1 && |b| >= 1
    ensures Csv(a + b) == Csv(a) + "\n" + Csv(b)
  {
    assert Rows(a + b) == Rows(a) + Rows(b);
    JoinConcat(Rows(a), Rows(b), "\n");
  }

  /**
   * As written, a payment-gateway cell that holds a comma (the webhook joins
   * several gateway names with ",") is not quoted, so a reader finds ten
   * fields and every later column shifts one place right.
   */
  lemma GatewayCommaShiftsColumns(o: Order, first: string, second: string)
    requires o.paymentGateway == first + "," + second
    requires ',' !in first && '"' !in first && ',' !in second && '"' !in second
    requires Exportable(o.(paymentGateway := ""))
    ensures var fields := ReadFields(Row(o), false);
      && |fields| == 10
      && fields[3] == first && fields[4] == second
      && fields[5] == o.customerEmail && fields[9] == o.createdAt
  {
    var split := [o.orderId, o.orderNumber, o.totalPrice, first, second, o.customerEmail,
                  Quoted(o.customerFullName), Quoted(o.customerAddress), Quoted(o.tags), o.createdAt];
    var cells := Cells(o);
    JoinConcat(cells[..3], [first], ",");
    JoinConcat(cells[..3] + [first], [second] + cells[4..], ",");
    JoinConcat(cells[..3], [o.paymentGateway] + cells[4..], ",");
    JoinConcat([o.paymentGateway], cells[4..], ",");
    JoinConcat([second], cells[4..], ",");
    assert cells == cells[..3] + ([o.paymentGateway] + cells[4..]);
    assert split == (cells[..3] + [first]) + ([second] + cells[4..]);
    assert Join(cells, ",") == Join(split, ",");
    JoinReadsBack(split, [o.orderId, o.orderNumber, o.totalPrice, first, second, o.customerEmail,
                          o.customerFullName, o.customerAddress, o.tags, o.createdAt]);
  }

  /** The same shift for the row a webhook delivery of a two-gateway order stores. */
  lemma TwoGatewayOrderShiftsColumns(p: DataUpdateWebhook.OrderPayload, createdAt: string)
    requires |p.paymentGatewayNames| == 2
    requires forall i :: 0 <= i < 2 ==> ',' !in p.paymentGatewayNames[i] && '"' !in p.paymentGatewayNames[i]
    requires Exportable(DataUpdateWebhook.StoredRow(p, createdAt).(paymentGateway := ""))
    ensures |ReadFields(Row(DataUpdateWebhook.StoredRow(p, createdAt)), false)| == 10
  {
    var names := p.paymentGatewayNames;
    assert names == [names[0]] + [names[1]];
    JoinConcat([names[0]], [names[1]], ",");
    GatewayCommaShiftsColumns(DataUpdateWebhook.StoredRow(p, createdAt), names[0], names[1]);
  }

  /** The cells with the payment-gateway list quoted as well. */
  function CorrectedCells(o: Order): seq<string>
  {
    Cells(o)[3 := Quoted(o.paymentGateway)]
  }

  function CorrectedRow(o: Order): string
  {
    Join(CorrectedCells(o), ",")
  }

  /** With the gateway cell quoted, every row reads back as its nine fields, gateway lists included. */
  lemma CorrectedRowReadsBack(o: Order)
    requires Exportable(o.(paymentGateway := "")) && '"' !in o.paymentGateway
    ensures ReadFields(CorrectedRow(o), false) == Values(o)
  {
    JoinReadsBack(CorrectedCells(o), Values(o));
  }
}
