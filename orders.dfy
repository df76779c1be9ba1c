/**
 * The data returned by the deliveries query and its flattening into table
 * rows (content.js, createOrdersTable): one row per delivery of an order, or
 * one fallback row for an order without deliveries.
 */
module Orders {
  import opened JsValues

  datatype Tracker = Tracker(carrierName: Option<string>, trackingUrl: Option<string>)

  datatype EtaInfo = EtaInfo(formattedEta: Option<string>, isFuture: Option<bool>)

  datatype Delivery = Delivery(
    name: Option<string>,
    status: Option<string>,
    state: Option<string>,
    deliveredAt: Option<string>,
    originalEtaInfo: Option<EtaInfo>)

  datatype Image = Image(url: Option<string>, altText: Option<string>)

  datatype Price = Price(amount: string, currencyCode: string)

  /**
   * One order node. An absent `trackers`, `deliveries` or `lineItems` list is
   * the empty sequence (the script reads each as `?.nodes || []`); a line
   * item whose image is null is `None`. A null `totalPrice` is `None`.
   */
  datatype Order = Order(
    orderNumber: string,
    createdAt: string,
    totalPrice: Option<Price>,
    shopName: Option<string>,
    deliveryStatus: Option<string>,
    lineItemImages: seq<Option<Image>>,
    trackers: seq<Tracker>,
    deliveries: seq<Delivery>)

  /** The query's response: `data.deliveriesOrdersList.nodes`, absent when any step is missing. */
  datatype Response = Response(nodes: Option<seq<Order>>)

  /** `"(i+1).(j+1)"` for a delivery row, `i+1` for a fallback row (both 1-based). */
  datatype RowIndex = Nested(order: nat, delivery: nat) | Single(order: nat)

  /** One element of `tableData`. */
  datatype Row = Row(
    index: RowIndex,
    orderNumber: string,
    shop: string,
    imageUrl: Option<string>,
    imageAlt: string,
    delivery: string,
    status: Option<string>,
    state: Option<string>,
    carrier: string,
    trackingUrl: Option<string>,
    eta: string,
    isFuture: JsBool,
    deliveredAt: Option<string>,
    total: string,
    createdAt: string)

  const NoDeliveries := "No deliveries"
  const NotAvailable := "N/A"
  const DefaultImageAlt := "Product image"

  /** `trackers[j] || trackers[0]`: the tracker at the delivery's position, else the first one. */
  function TrackerFor(trackers: seq<Tracker>, j: nat): (t: Option<Tracker>)
    ensures t.Some? <==> |trackers| > 0
    ensures j < |trackers| ==> t == Some(trackers[j])
    ensures j >= |trackers| && |trackers| > 0 ==> t == Some(trackers[0])
  {
    if j < |trackers| then Some(trackers[j])
    else if |trackers| > 0 then Some(trackers[0])
    else None
  }

  /** `tracker?.carrierInfo?.name || 'N/A'`. */
  function CarrierOf(t: Option<Tracker>): string {
    if t.Some? then OrElse(t.value.carrierName, NotAvailable) else NotAvailable
  }

  /** `tracker?.trackingUrl || null`. */
  function TrackingUrlOf(t: Option<Tracker>): Option<string> {
    if t.Some? then OrNull(t.value.trackingUrl) else None
  }

  /** Without a tracker the carrier reads "N/A" and there is no tracking link. */
  lemma NoTrackerCells()
    ensures CarrierOf(None) == NotAvailable && TrackingUrlOf(None) == None
  {
  }

  /** `order.lineItems?.nodes?.[0]?.image?.url || null`. */
  function ImageUrlOf(o: Order): Option<string> {
    if |o.lineItemImages| > 0 && o.lineItemImages[0].Some? then OrNull(o.lineItemImages[0].value.url)
    else None
  }

  /** `order.lineItems?.nodes?.[0]?.image?.altText || 'Product image'`. */
  function ImageAltOf(o: Order): string {
    if |o.lineItemImages| > 0 && o.lineItemImages[0].Some? then OrElse(o.lineItemImages[0].value.altText, DefaultImageAlt)
    else DefaultImageAlt
  }

  /**
   * The order has a price. Reading `order.totalPrice.amount` without optional
   * chaining throws a TypeError on an order whose price is null.
   */
  predicate Priced(o: Order) {
    o.totalPrice.Some?
  }

  predicate AllPriced(orders: seq<Order>) {
    forall i :: 0 <= i < |orders| ==> Priced(orders[i])
  }

  /** The flattening runs to completion: there is no node list, or every order has a price. */
  predicate Renders(r: Response) {
    r.nodes.None? || AllPriced(r.nodes.value)
  }

  /** `${order.totalPrice.amount} ${order.totalPrice.currencyCode}`. */
  function TotalOf(o: Order): string
    requires Priced(o)
  {
    o.totalPrice.value.amount + " " + o.totalPrice.value.currencyCode
  }

  /** `delivery.originalEtaInfo?.isFuture`: undefined when the ETA object is missing. */
  function IsFutureOf(d: Delivery): JsBool {
    match d.originalEtaInfo
    case None => Undefined
    case Some(info) => if info.isFuture.Some? then Bool(info.isFuture.value) else Null
  }

  /** `delivery.originalEtaInfo?.formattedEta || 'N/A'`. */
  function EtaOf(d: Delivery): string {
    match d.originalEtaInfo
    case None => NotAvailable
    case Some(info) => OrElse(info.formattedEta, NotAvailable)
  }

  /** The row for delivery `j` of order `i` (both 0-based). */
  function DeliveryRow(o: Order, i: nat, j: nat): Row
    requires Priced(o) && j < |o.deliveries|
  {
    var d := o.deliveries[j];
    var tracker := TrackerFor(o.trackers, j);
    Row(Nested(i + 1, j + 1), o.orderNumber, OrElse(o.shopName, NotAvailable), ImageUrlOf(o), ImageAltOf(o),
        OrElse(d.name, NotAvailable), d.status, d.state, CarrierOf(tracker), TrackingUrlOf(tracker),
        EtaOf(d), IsFutureOf(d), d.deliveredAt, TotalOf(o), o.createdAt)
  }

  /** The single row of order `i` when it has no deliveries. */
  function FallbackRow(o: Order, i: nat): Row
    requires Priced(o)
  {
    var tracker := TrackerFor(o.trackers, 0);
    Row(Single(i + 1), o.orderNumber, OrElse(o.shopName, NotAvailable), ImageUrlOf(o), ImageAltOf(o),
        NoDeliveries, Some(OrElse(o.deliveryStatus, NotAvailable)), Some(NotAvailable),
        CarrierOf(tracker), TrackingUrlOf(tracker), NotAvailable, Null, None, TotalOf(o), o.createdAt)
  }

  /** How many rows order `o` contributes: max(1, number of deliveries). */
  function Span(o: Order): nat {
    if |o.deliveries| > 0 then |o.deliveries| else 1
  }

  /** The rows contributed by order `i`, in delivery order. */
  function OrderRows(o: Order, i: nat): (rows: seq<Row>)
    requires Priced(o)
    ensures |rows| == Span(o)
  {
    if |o.deliveries| > 0 then seq(|o.deliveries|, j requires 0 <= j < |o.deliveries| => DeliveryRow(o, i, j))
    else [FallbackRow(o, i)]
  }

  /** Each order's rows, order by order. */
  function Chunks(orders: seq<Order>): (chunks: seq<seq<Row>>)
    requires AllPriced(orders)
    ensures |chunks| == |orders|
    ensures forall i :: 0 <= i < |orders| ==> chunks[i] == OrderRows(orders[i], i)
  {
    seq(|orders|, i requires 0 <= i < |orders| => OrderRows(orders[i], i))
  }

  /** The first `n` chunks, concatenated in order. */
  function Concat<T>(chunks: seq<seq<T>>, n: nat): seq<T>
    requires n <= |chunks|
  {
    if n == 0 then [] else Concat(chunks, n - 1) + chunks[n - 1]
  }

  /** The summed length of the first `n` chunks. */
  function SumLengths<T>(chunks: seq<seq<T>>, n: nat): nat
    requires n <= |chunks|
  {
    if n == 0 then 0 else SumLengths(chunks, n - 1) + |chunks[n - 1]|
  }

  /** The rows of the first `n` orders, concatenated in order. */
  function RowsUpTo(orders: seq<Order>, n: nat): seq<Row>
    requires n <= |orders| && AllPriced(orders)
  {
    Concat(Chunks(orders), n)
  }

  /** Number of rows of the first `n` orders: the sum of their spans. */
  function Offset(orders: seq<Order>, n: nat): nat
    requires n <= |orders|
  {
    if n == 0 then 0 else Offset(orders, n - 1) + Span(orders[n - 1])
  }

  /** The value of `tableData` for a response: empty when the node list is missing. */
  function TableRows(r: Response): seq<Row>
    requires Renders(r)
  {
    match r.nodes
    case None => []
    case Some(orders) => RowsUpTo(orders, |orders|)
  }

  /** The order numbers occurring among the rows (the `new Set(...)` of the summary). */
  function RowOrderNumbers(rows: seq<Row>): set<string> {
    set k | 0 <= k < |rows| :: rows[k].orderNumber
  }

  /** The order numbers of the orders. */
  function OrderNumbers(orders: seq<Order>): set<string> {
    set k | 0 <= k < |orders| :: orders[k].orderNumber
  }

  /**
   * The nested `forEach` of createOrdersTable: push one row per delivery, or
   * the fallback row, order by order.
   */
  method CreateTableData(r: Response) returns (tableData: seq<Row>, threw: bool)
    ensures threw <==> !Renders(r)
    ensures !threw ==> tableData == TableRows(r)
  {
    tableData, threw := [], false;
    if r.nodes.Some? {
      var orders := r.nodes.value;
      var i := 0;
      while i < |orders|
        invariant 0 <= i <= |orders|
        invariant forall m :: 0 <= m < i ==> Priced(orders[m])
        invariant AllPriced(orders) ==> tableData == RowsUpTo(orders, i)
      {
        var order := orders[i];
        if order.totalPrice.None? {
          threw := true;
          return;
        }
        if |order.deliveries| > 0 {
          var j := 0;
          while j < |order.deliveries|
            invariant 0 <= j <= |order.deliveries|
            invariant AllPriced(orders) ==> tableData == RowsUpTo(orders, i) + OrderRows(order, i)[..j]
          {
            assert OrderRows(order, i)[..j + 1] == OrderRows(order, i)[..j] + [DeliveryRow(order, i, j)];
            tableData := tableData + [DeliveryRow(order, i, j)];
            j := j + 1;
          }
          assert OrderRows(order, i)[..j] == OrderRows(order, i);
        } else {
          assert OrderRows(order, i) == [FallbackRow(order, i)];
          tableData := tableData + [FallbackRow(order, i)];
        }
        if AllPriced(orders) {
          assert RowsUpTo(orders, i + 1) == RowsUpTo(orders, i) + OrderRows(order, i);
        }
        i := i + 1;
      }
    }
  }

  // ---------------------------------------------------------------------------
  // Properties of the flattening

  lemma {:induction false} ConcatLength<T>(chunks: seq<seq<T>>, n: nat)
    requires n <= |chunks|
    ensures |Concat(chunks, n)| == SumLengths(chunks, n)
  {
    if n > 0 {
      ConcatLength(chunks, n - 1);
    }
  }

  lemma {:induction false} ConcatPrefix<T>(chunks: seq<seq<T>>, m: nat, n: nat)
    requires m <= n <= |chunks|
    ensures |Concat(chunks, m)| <= |Concat(chunks, n)|
    ensures Concat(chunks, n)[..|Concat(chunks, m)|] == Concat(chunks, m)
  {
    if m < n {
      ConcatPrefix(chunks, m, n - 1);
      var a := Concat(chunks, m);
      var b := Concat(chunks, n - 1);
      assert (b + chunks[n - 1])[..|a|] == b[..|a|];
    }
  }

  /** Element `k` of chunk `i` sits at position SumLengths(chunks, i) + k of the concatenation. */
  lemma ConcatAt<T>(chunks: seq<seq<T>>, i: nat, k: nat)
    requires i < |chunks| && k < |chunks[i]|
    ensures SumLengths(chunks, i) + k < |Concat(chunks, |chunks|)|
    ensures Concat(chunks, |chunks|)[SumLengths(chunks, i) + k] == chunks[i][k]
  {
    ConcatLength(chunks, i);
    ConcatPrefix(chunks, i + 1, |chunks|);
    assert Concat(chunks, i + 1) == Concat(chunks, i) + chunks[i];
  }

  /** The chunk lengths of the flattening are the orders' spans. */
  lemma {:induction false} OffsetIsSumLengths(orders: seq<Order>, n: nat)
    requires n <= |orders| && AllPriced(orders)
    ensures SumLengths(Chunks(orders), n) == Offset(orders, n)
  {
    if n > 0 {
      OffsetIsSumLengths(orders, n - 1);
    }
  }

  /** The row count of the first `n` orders is the sum of max(1, deliveries). */
  lemma RowsUpToLength(orders: seq<Order>, n: nat)
    requires n <= |orders| && AllPriced(orders)
    ensures |RowsUpTo(orders, n)| == Offset(orders, n)
  {
    ConcatLength(Chunks(orders), n);
    OffsetIsSumLengths(orders, n);
  }

  /** Order `i`'s rows sit at positions Offset(orders, i) .. Offset(orders, i) + Span - 1. */
  lemma RowAt(orders: seq<Order>, i: nat, k: nat)
    requires i < |orders| && k < Span(orders[i]) && AllPriced(orders)
    ensures Offset(orders, i) + k < |RowsUpTo(orders, |orders|)|
    ensures RowsUpTo(orders, |orders|)[Offset(orders, i) + k] == OrderRows(orders[i], i)[k]
  {
    ConcatAt(Chunks(orders), i, k);
    OffsetIsSumLengths(orders, i);
  }

  /** The total number of rows is the sum over orders of max(1, number of deliveries). */
  lemma TableRowCount(r: Response)
    requires Renders(r)
    ensures r.nodes.None? ==> TableRows(r) == []
    ensures r.nodes.Some? ==> |TableRows(r)| == Offset(r.nodes.value, |r.nodes.value|)
  {
    if r.nodes.Some? {
      RowsUpToLength(r.nodes.value, |r.nodes.value|);
    }
  }

  /**
   * Shape of the flattened table: an order with k > 0 deliveries owns k
   * consecutive rows with its order number, indexed (i+1).(j+1), carrying
   * delivery j and the tracker at j falling back to the first; an order
   * without deliveries owns one "No deliveries" row with state "N/A",
   * index i+1 and the first tracker.
   */
  lemma FlattenShape(orders: seq<Order>, i: nat, k: nat)
    requires i < |orders| && k < Span(orders[i]) && AllPriced(orders)
    ensures var rows := RowsUpTo(orders, |orders|);
      var o := orders[i];
      Offset(orders, i) + k < |rows| &&
      var row := rows[Offset(orders, i) + k];
      row.orderNumber == o.orderNumber &&
      row.total == TotalOf(o) &&
      (|o.deliveries| > 0 ==>
        row.index == Nested(i + 1, k + 1) &&
        row.status == o.deliveries[k].status &&
        row.state == o.deliveries[k].state &&
        row.carrier == CarrierOf(TrackerFor(o.trackers, k)) &&
        row.trackingUrl == TrackingUrlOf(TrackerFor(o.trackers, k))) &&
      (|o.deliveries| == 0 ==>
        row.index == Single(i + 1) &&
        row.delivery == NoDeliveries &&
        row.state == Some(NotAvailable) &&
        row.carrier == CarrierOf(TrackerFor(o.trackers, 0)) &&
        row.trackingUrl == TrackingUrlOf(TrackerFor(o.trackers, 0)))
  {
    RowAt(orders, i, k);
  }

  /** The order numbers of concatenated rows are the union of both parts'. */
  lemma RowOrderNumbersAppend(a: seq<Row>, b: seq<Row>)
    ensures RowOrderNumbers(a + b) == RowOrderNumbers(a) + RowOrderNumbers(b)
  {
    forall x | x in RowOrderNumbers(a + b)
      ensures x in RowOrderNumbers(a) + RowOrderNumbers(b)
    {
      var k :| 0 <= k < |a + b| && (a + b)[k].orderNumber == x;
      if k < |a| {
        assert a[k].orderNumber == x;
      } else {
        assert b[k - |a|].orderNumber == x;
      }
    }
    forall x | x in RowOrderNumbers(a) + RowOrderNumbers(b)
      ensures x in RowOrderNumbers(a + b)
    {
      if x in RowOrderNumbers(a) {
        var k :| 0 <= k < |a| && a[k].orderNumber == x;
        assert (a + b)[k].orderNumber == x;
      } else {
        var k :| 0 <= k < |b| && b[k].orderNumber == x;
        assert (a + b)[|a| + k].orderNumber == x;
      }
    }
  }

  /** All rows of one order carry its order number, and there is at least one. */
  lemma OrderRowsNumber(o: Order, i: nat)
    requires Priced(o)
    ensures RowOrderNumbers(OrderRows(o, i)) == {o.orderNumber}
  {
    var b := OrderRows(o, i);
    assert b[0].orderNumber == o.orderNumber;
    assert forall k :: 0 <= k < |b| ==> b[k].orderNumber == o.orderNumber;
  }

  lemma OrderNumbersSnoc(orders: seq<Order>, n: nat)
    requires 0 < n <= |orders|
    ensures OrderNumbers(orders[..n]) == OrderNumbers(orders[..n - 1]) + {orders[n - 1].orderNumber}
  {
    var p, q := orders[..n], orders[..n - 1];
    forall x | x in OrderNumbers(p)
      ensures x in OrderNumbers(q) + {orders[n - 1].orderNumber}
    {
      var k :| 0 <= k < n && p[k].orderNumber == x;
      if k < n - 1 {
        assert q[k].orderNumber == x;
      }
    }
    forall x | x in OrderNumbers(q)
      ensures x in OrderNumbers(p)
    {
      var k :| 0 <= k < n - 1 && q[k].orderNumber == x;
      assert p[k].orderNumber == x;
    }
    assert p[n - 1].orderNumber == orders[n - 1].orderNumber;
  }

  /**
   * Every row of the first `n` orders belongs to one of them, and each of
   * them contributes at least one row: the row order numbers are exactly the
   * order numbers.
   */
  lemma {:induction false} RowsUpToOrderNumbers(orders: seq<Order>, n: nat)
    requires n <= |orders| && AllPriced(orders)
    ensures RowOrderNumbers(RowsUpTo(orders, n)) == OrderNumbers(orders[..n])
  {
    if n > 0 {
      RowsUpToOrderNumbers(orders, n - 1);
      assert RowsUpTo(orders, n) == RowsUpTo(orders, n - 1) + OrderRows(orders[n - 1], n - 1);
      RowOrderNumbersAppend(RowsUpTo(orders, n - 1), OrderRows(orders[n - 1], n - 1));
      OrderRowsNumber(orders[n - 1], n - 1);
      OrderNumbersSnoc(orders, n);
    } else {
      assert RowOrderNumbers([]) == {};
      assert OrderNumbers(orders[..0]) == {};
    }
  }

  /** The table's distinct order numbers are exactly the response's order numbers. */
  lemma TableOrderNumbers(orders: seq<Order>)
    requires AllPriced(orders)
    ensures RowOrderNumbers(TableRows(Response(Some(orders)))) == OrderNumbers(orders)
  {
    RowsUpToOrderNumbers(orders, |orders|);
    assert orders[..|orders|] == orders;
  }

  // ---------------------------------------------------------------------------
  // The ETA cell

  /**
   * The ETA cell as written: a suffix is added whenever `row.isFuture !== null`,
   * which also holds for `undefined`.
   */
  function EtaTextAsWritten(row: Row): string {
    if row.isFuture != Null then row.eta + " " + (if row.isFuture == Bool(true) then "(Future)" else "(Past)")
    else row.eta
  }

  /** A delivery whose ETA object is missing is rendered as a past ETA "N/A (Past)". */
  lemma EtaAsWrittenMarksMissingEtaAsPast(o: Order, i: nat, j: nat)
    requires Priced(o) && j < |o.deliveries| && o.deliveries[j].originalEtaInfo.None?
    ensures EtaTextAsWritten(DeliveryRow(o, i, j)) == "N/A (Past)"
  {
  }

  /** The ETA cell with the intended guard: a suffix only when `isFuture` is a boolean. */
  function EtaText(row: Row): (text: string)
    ensures row.isFuture == Bool(true) ==> text == row.eta + " (Future)"
    ensures row.isFuture == Bool(false) ==> text == row.eta + " (Past)"
    ensures !row.isFuture.Bool? ==> text == row.eta
  {
    match row.isFuture
    case Bool(b) => row.eta + " " + (if b then "(Future)" else "(Past)")
    case _ => row.eta
  }

  /**
   * A delivery row's ETA carries a suffix exactly when the delivery reports
   * whether its ETA lies in the future; a fallback row shows plain "N/A".
   */
  lemma EtaSuffixIffReported(o: Order, i: nat, j: nat)
    requires Priced(o) && j < |o.deliveries|
    ensures var d := o.deliveries[j];
      (EtaText(DeliveryRow(o, i, j)) != EtaOf(d)) <==>
      (d.originalEtaInfo.Some? && d.originalEtaInfo.value.isFuture.Some?)
    ensures EtaText(FallbackRow(o, i)) == NotAvailable
  {
    var row := DeliveryRow(o, i, j);
    if row.isFuture.Bool? {
      assert |EtaText(row)| > |row.eta|;
    }
  }

  /**
   * The `tbody` loop of createOrdersTable, reduced to the ETA cell it
   * computes for each row, in row order.
   */
  method EtaCells(rows: seq<Row>) returns (cells: seq<string>)
    ensures |cells| == |rows|
    ensures forall k :: 0 <= k < |rows| ==> cells[k] == EtaText(rows[k])
  {
    cells := [];
    for k := 0 to |rows|
      invariant |cells| == k
      invariant forall m :: 0 <= m < k ==> cells[m] == EtaText(rows[m])
    {
      cells := cells + [EtaText(rows[k])];
    }
  }
}
