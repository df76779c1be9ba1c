/**
 * The status badge of a table row and the three summary counters of
 * createOrdersTable (content.js).
 */
module Status {
  import opened JsValues
  import opened Text
  import opened Orders

  datatype StatusClass = StatusDelivered | StatusTransit | StatusPending

  /** The lower-cased status or state contains `token`. */
  predicate Mentions(status: Option<string>, state: Option<string>, token: string) {
    Contains(ToLower(OrEmpty(status)), token) || Contains(ToLower(OrEmpty(state)), token)
  }

  /** An exact match is also a substring match. */
  lemma InTransitContainsTransit(s: string)
    ensures s == "in_transit" ==> Contains(s, "transit")
  {
    if s == "in_transit" {
      assert s[3..3 + |"transit"|] == "transit";
      ContainsAt(s, "transit", 3);
    }
  }

  /**
   * The delivered test exactly as the script writes it, equalities then
   * `includes`; the equalities are subsumed by the substring test.
   */
  predicate DeliveredTest(status: Option<string>, state: Option<string>): (b: bool)
    ensures b <==> Mentions(status, state, "delivered")
  {
    var s, t := ToLower(OrEmpty(status)), ToLower(OrEmpty(state));
    ContainsSelf(s);
    ContainsSelf(t);
    s == "delivered" || t == "delivered" || Contains(s, "delivered") || Contains(t, "delivered")
  }

  /** The in-transit test exactly as the script writes it; again a pure substring test. */
  predicate TransitTest(status: Option<string>, state: Option<string>): (b: bool)
    ensures b <==> Mentions(status, state, "transit") || Mentions(status, state, "shipped")
  {
    var s, t := ToLower(OrEmpty(status)), ToLower(OrEmpty(state));
    ContainsSelf(s);
    ContainsSelf(t);
    InTransitContainsTransit(s);
    InTransitContainsTransit(t);
    s == "in_transit" || t == "in_transit" || s == "shipped" || t == "shipped" ||
    Contains(s, "transit") || Contains(t, "transit") || Contains(s, "shipped") || Contains(t, "shipped")
  }

  /**
   * The badge class, by case-insensitive substring match: delivered when
   * either field mentions "delivered"; otherwise in transit when either
   * mentions "transit" or "shipped"; otherwise pending.
   */
  function ClassOf(status: Option<string>, state: Option<string>): (c: StatusClass)
    ensures c == StatusDelivered <==> Mentions(status, state, "delivered")
    ensures c == StatusTransit <==>
      !Mentions(status, state, "delivered") &&
      (Mentions(status, state, "transit") || Mentions(status, state, "shipped"))
    ensures c == StatusPending <==>
      !Mentions(status, state, "delivered") && !Mentions(status, state, "transit") &&
      !Mentions(status, state, "shipped")
  {
    if DeliveredTest(status, state) then StatusDelivered
    else if TransitTest(status, state) then StatusTransit
    else StatusPending
  }

  function RowClass(row: Row): StatusClass {
    ClassOf(row.status, row.state)
  }

  /** The classification does not depend on letter case. */
  lemma ClassOfIgnoresCase(status: string, state: string)
    ensures ClassOf(Some(ToLower(status)), Some(ToLower(state))) == ClassOf(Some(status), Some(state))
  {
    ToLowerIdempotent(status);
    ToLowerIdempotent(state);
  }

  /** "DELIVERED" is delivered. */
  lemma ClassifiesUpperDelivered()
    ensures ClassOf(Some("DELIVERED"), None) == StatusDelivered
  {
    ToLowerIs("DELIVERED", "delivered");
  }

  /** "in_transit" is in transit. */
  lemma ClassifiesInTransit()
    ensures ClassOf(Some("in_transit"), None) == StatusTransit
  {
    ToLowerOfLower("in_transit");
    ToLowerOfLower("");
    NotContains("in_transit", "delivered");
    NotContains("", "delivered");
  }

  /** "Shipped" is in transit. */
  lemma ClassifiesShipped()
    ensures ClassOf(Some("Shipped"), None) == StatusTransit
  {
    ToLowerIs("Shipped", "shipped");
    ToLowerOfLower("");
    NotContains("shipped", "delivered");
    NotContains("", "delivered");
  }

  /** "pending" is pending. */
  lemma ClassifiesPending()
    ensures ClassOf(Some("pending"), None) == StatusPending
  {
    ToLowerOfLower("pending");
    ToLowerOfLower("");
    NotContains("pending", "delivered");
    ContainsSameLength("pending", "transit");
    ContainsSameLength("pending", "shipped");
    NotContains("", "delivered");
    NotContains("", "transit");
    NotContains("", "shipped");
  }

  lemma LowerShippedLabel()
    ensures ToLower("SHIPPED_LABEL") == "shipped_label"
  {
    ToLowerIs("SHIPPED_LABEL", "shipped_label");
  }

  lemma ShippedLabelTokens()
    ensures !Contains("shipped_label", "delivered") && Contains("shipped_label", "shipped")
  {
    NotContains("shipped_label", "delivered");
    assert "shipped_label"[0..0 + |"shipped"|] == "shipped";
    ContainsAt("shipped_label", "shipped", 0);
  }

  /** "SHIPPED_LABEL" is in transit, through the substring test. */
  lemma ClassifiesShippedLabel()
    ensures ClassOf(Some("SHIPPED_LABEL"), None) == StatusTransit
  {
    LowerShippedLabel();
    ToLowerOfLower("");
    ShippedLabelTokens();
    NotContains("", "delivered");
  }

  // ---------------------------------------------------------------------------
  // Summary counters

  datatype Summary = Summary(totalOrders: nat, deliveredCount: nat, inTransitCount: nat)

  /** `tableData.filter(<delivered test>).length`. */
  function DeliveredCount(rows: seq<Row>): (n: nat)
    ensures n <= |rows|
    ensures n == |rows| <==> forall k :: 0 <= k < |rows| ==> DeliveredTest(rows[k].status, rows[k].state)
  {
    if rows == [] then 0
    else DeliveredCount(rows[..|rows| - 1]) + (if DeliveredTest(rows[|rows| - 1].status, rows[|rows| - 1].state) then 1 else 0)
  }

  /** `tableData.filter(<in-transit test>).length`. */
  function InTransitCount(rows: seq<Row>): (n: nat)
    ensures n <= |rows|
    ensures n == |rows| <==> forall k :: 0 <= k < |rows| ==> TransitTest(rows[k].status, rows[k].state)
  {
    if rows == [] then 0
    else InTransitCount(rows[..|rows| - 1]) + (if TransitTest(rows[|rows| - 1].status, rows[|rows| - 1].state) then 1 else 0)
  }

  /** Number of rows whose badge is `c`. */
  function ClassCount(rows: seq<Row>, c: StatusClass): nat {
    if rows == [] then 0
    else ClassCount(rows[..|rows| - 1], c) + (if RowClass(rows[|rows| - 1]) == c then 1 else 0)
  }

  /** Number of rows that pass both the delivered and the in-transit test. */
  function BothCount(rows: seq<Row>): nat {
    if rows == [] then 0
    else
      var r := rows[|rows| - 1];
      BothCount(rows[..|rows| - 1]) + (if DeliveredTest(r.status, r.state) && TransitTest(r.status, r.state) then 1 else 0)
  }

  /**
   * The summary section: distinct order numbers, delivered rows, in-transit
   * rows. Each counter is bounded by the number of rows, and the two status
   * counters overlap exactly in the rows that pass both tests.
   */
  function SummaryOf(rows: seq<Row>): (sm: Summary)
    ensures sm.totalOrders <= |rows| && (sm.totalOrders == 0 <==> rows == [])
    ensures sm.deliveredCount <= |rows| && sm.inTransitCount <= |rows|
    ensures sm.deliveredCount + sm.inTransitCount <= |rows| + BothCount(rows)
  {
    OrderNumbersBound(rows);
    DeliveredCountIsBadgeCount(rows);
    InTransitCountSplit(rows);
    BadgesPartitionRows(rows);
    Summary(|RowOrderNumbers(rows)|, DeliveredCount(rows), InTransitCount(rows))
  }

  /** There are no more distinct order numbers than rows, and none only without rows. */
  lemma {:induction false} OrderNumbersBound(rows: seq<Row>)
    ensures |RowOrderNumbers(rows)| <= |rows|
    ensures |RowOrderNumbers(rows)| == 0 <==> rows == []
  {
    if rows != [] {
      var init := rows[..|rows| - 1];
      OrderNumbersBound(init);
      assert rows == init + [rows[|rows| - 1]];
      RowOrderNumbersAppend(init, [rows[|rows| - 1]]);
      assert RowOrderNumbers([rows[|rows| - 1]]) == {rows[|rows| - 1].orderNumber};
      assert rows[|rows| - 1].orderNumber in RowOrderNumbers(rows);
    } else {
      assert RowOrderNumbers(rows) == {};
    }
  }

  /** The delivered counter counts exactly the rows with the delivered badge. */
  lemma {:induction false} DeliveredCountIsBadgeCount(rows: seq<Row>)
    ensures DeliveredCount(rows) == ClassCount(rows, StatusDelivered)
  {
    if rows != [] {
      DeliveredCountIsBadgeCount(rows[..|rows| - 1]);
    }
  }

  /**
   * The in-transit counter counts the rows with the in-transit badge plus the
   * delivered rows that also pass the transit test: it is not disjoint from
   * the delivered counter.
   */
  lemma {:induction false} InTransitCountSplit(rows: seq<Row>)
    ensures InTransitCount(rows) == ClassCount(rows, StatusTransit) + BothCount(rows)
  {
    if rows != [] {
      InTransitCountSplit(rows[..|rows| - 1]);
    }
  }

  /** Every row gets exactly one badge. */
  lemma {:induction false} BadgesPartitionRows(rows: seq<Row>)
    ensures ClassCount(rows, StatusDelivered) + ClassCount(rows, StatusTransit) + ClassCount(rows, StatusPending) == |rows|
  {
    if rows != [] {
      BadgesPartitionRows(rows[..|rows| - 1]);
    }
  }

  /** A row both delivered and shipped is counted by both counters. */
  lemma CountersOverlap(row: Row)
    requires row.status == Some("delivered") && row.state == Some("shipped")
    ensures SummaryOf([row]).deliveredCount == 1 && SummaryOf([row]).inTransitCount == 1
  {
    assert [row][..0] == [];
    ContainsSelf("delivered");
    ContainsSelf("shipped");
    ToLowerOfLower("delivered");
    ToLowerOfLower("shipped");
    assert DeliveredTest(row.status, row.state);
    assert TransitTest(row.status, row.state);
    assert DeliveredCount([row]) == DeliveredCount([]) + 1;
    assert InTransitCount([row]) == InTransitCount([]) + 1;
  }

  /** On a flattened response, `totalOrders` is the number of distinct order numbers of the orders. */
  lemma TotalOrdersOfTable(orders: seq<Order>)
    requires AllPriced(orders)
    ensures SummaryOf(TableRows(Response(Some(orders)))).totalOrders == |OrderNumbers(orders)|
    ensures SummaryOf(TableRows(Response(Some(orders)))).totalOrders <= |orders|
  {
    TableOrderNumbers(orders);
    OrderNumbersAtMostOrders(orders);
  }

  lemma {:induction false} OrderNumbersAtMostOrders(orders: seq<Order>)
    ensures |OrderNumbers(orders)| <= |orders|
  {
    if orders != [] {
      var init := orders[..|orders| - 1];
      OrderNumbersAtMostOrders(init);
      assert OrderNumbers(orders) == OrderNumbers(init) + {orders[|orders| - 1].orderNumber} by {
        forall x | x in OrderNumbers(orders)
          ensures x in OrderNumbers(init) + {orders[|orders| - 1].orderNumber}
        {
          var k :| 0 <= k < |orders| && orders[k].orderNumber == x;
          if k < |orders| - 1 {
            assert init[k].orderNumber == x;
          }
        }
        forall x | x in OrderNumbers(init)
          ensures x in OrderNumbers(orders)
        {
          var k :| 0 <= k < |init| && init[k].orderNumber == x;
          assert orders[k].orderNumber == x;
        }
        assert orders[|orders| - 1].orderNumber in OrderNumbers(orders);
      }
      assert |OrderNumbers(init) + {orders[|orders| - 1].orderNumber}| <= |OrderNumbers(init)| + 1;
    } else {
      assert OrderNumbers(orders) == {};
    }
  }
}
