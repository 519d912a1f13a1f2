/** The fiscal receipt (`generate_receipt_items`): one position per order
    line, then one for delivery when the order is shipped for money. */
module FiscalReceipt {
  import opened Amounts
  import opened Orders
  import opened Settings

  /** One receipt position; `sum` and `quantity` are whole numbers, as
      `intval` leaves them. */
  datatype ReceiptItem = ReceiptItem(
    name: string,
    sum: int,
    quantity: int,
    tax: string,
    paymentMethod: string,
    paymentObject: string)

  /** The receipt sent with the form: the tax system and the positions. */
  datatype Receipt = Receipt(sno: string, items: seq<ReceiptItem>)

  const DeliveryName := "Delivery"

  /** The fiscal fields every position carries from the gateway. */
  predicate FiscalFieldsOf(gw: Gateway, x: ReceiptItem) {
    x.tax == gw.ofdNds && x.paymentMethod == gw.ofdPaymentMethod && x.paymentObject == gw.ofdPaymentObject
  }

  /** A position for `name`, `cents` and `quantity`. */
  function Position(gw: Gateway, name: string, cents: int, quantity: int): (x: ReceiptItem)
    ensures FiscalFieldsOf(gw, x)
  {
    ReceiptItem(name, IntVal(cents), quantity, gw.ofdNds, gw.ofdPaymentMethod, gw.ofdPaymentObject)
  }

  /** The position for each order line, in the order's own line order. */
  function LinePositions(gw: Gateway, lines: seq<LineItem>): (r: seq<ReceiptItem>)
    ensures |r| == |lines|
    ensures forall i :: 0 <= i < |lines| ==>
      r[i].name == lines[i].name && r[i].sum == IntVal(lines[i].total) &&
      r[i].quantity == lines[i].quantity && FiscalFieldsOf(gw, r[i])
  {
    if lines == [] then []
    else [Position(gw, lines[0].name, lines[0].total, lines[0].quantity)] + LinePositions(gw, lines[1..])
  }

  /** `generate_receipt_items`. */
  function ReceiptItems(gw: Gateway, o: Order): (r: seq<ReceiptItem>)
    ensures |r| == |o.items| + (if o.shippingTotal > 0 then 1 else 0)
    ensures forall i :: 0 <= i < |o.items| ==>
      r[i].name == o.items[i].name && r[i].sum == IntVal(o.items[i].total) && r[i].quantity == o.items[i].quantity
    ensures o.shippingTotal > 0 ==> r[|r| - 1].name == DeliveryName && r[|r| - 1].sum == IntVal(o.shippingTotal) && r[|r| - 1].quantity == 1
    ensures forall x :: x in r ==> FiscalFieldsOf(gw, x)
  {
    LinePositions(gw, o.items) +
    (if o.shippingTotal > 0 then [Position(gw, DeliveryName, o.shippingTotal, 1)] else [])
  }

  /** Sum of the line totals, in minor units. */
  function LinesTotal(lines: seq<LineItem>): int {
    if lines == [] then 0 else lines[0].total + LinesTotal(lines[1..])
  }

  /** Sum of the position sums, in whole units. */
  function PositionsTotal(r: seq<ReceiptItem>): int {
    if r == [] then 0 else r[0].sum + PositionsTotal(r[1..])
  }

  predicate NonNegativeLines(lines: seq<LineItem>) {
    forall i :: 0 <= i < |lines| ==> lines[i].total >= 0
  }

  lemma {:induction false} PositionsTotalAppend(a: seq<ReceiptItem>, b: seq<ReceiptItem>)
    ensures PositionsTotal(a + b) == PositionsTotal(a) + PositionsTotal(b)
    decreases |a|
  {
    if a == [] {
      assert a + b == b;
    } else {
      assert (a + b)[0] == a[0];
      assert (a + b)[1..] == a[1..] + b;
      PositionsTotalAppend(a[1..], b);
    }
  }

  /** Dropping the minor units loses at most 0.99 per line:
      the receipt never states more than the lines cost, and falls short
      by at most 0.99 per position. */
  lemma {:induction false} LinePositionsUnderstateLines(gw: Gateway, lines: seq<LineItem>)
    requires NonNegativeLines(lines)
    ensures var t := PositionsTotal(LinePositions(gw, lines));
            t * 100 <= LinesTotal(lines) <= t * 100 + 99 * |lines|
    decreases |lines|
  {
    if lines != [] {
      var r := LinePositions(gw, lines);
      assert r[1..] == LinePositions(gw, lines[1..]);
      assert NonNegativeLines(lines[1..]) by {
        forall i | 0 <= i < |lines[1..]| ensures lines[1..][i].total >= 0 {
          assert lines[1..][i] == lines[i + 1];
        }
      }
      LinePositionsUnderstateLines(gw, lines[1..]);
      var t' := PositionsTotal(r[1..]);
      var x := IntVal(lines[0].total);
      assert lines[0].total >= 0;
      assert PositionsTotal(r) == x + t';
      assert PositionsTotal(r) * 100 == x * 100 + t' * 100;
      assert 99 * |lines| == 99 + 99 * |lines[1..]|;
    }
  }

  /** The whole receipt, delivery included, states the order's lines and
      shipping to within 0.99 per position, never above. */
  lemma ReceiptUnderstatesOrder(gw: Gateway, o: Order)
    requires NonNegativeLines(o.items)
    ensures var r := ReceiptItems(gw, o);
            var charged := LinesTotal(o.items) + (if o.shippingTotal > 0 then o.shippingTotal else 0);
            PositionsTotal(r) * 100 <= charged <= PositionsTotal(r) * 100 + 99 * |r|
  {
    var lines := LinePositions(gw, o.items);
    LinePositionsUnderstateLines(gw, o.items);
    if o.shippingTotal > 0 {
      var d := Position(gw, DeliveryName, o.shippingTotal, 1);
      PositionsTotalAppend(lines, [d]);
      assert PositionsTotal([d]) == d.sum;
    } else {
      assert ReceiptItems(gw, o) == lines;
    }
  }

  /** One line of 100.40 for two pieces and 50.00 of shipping give a
      position of 100 for two pieces and a delivery position of 50. */
  lemma OneLineWithShipping(gw: Gateway, o: Order)
    requires o.items == [LineItem("A", 10040, 2)] && o.shippingTotal == 5000
    ensures ReceiptItems(gw, o) ==
      [ ReceiptItem("A", 100, 2, gw.ofdNds, gw.ofdPaymentMethod, gw.ofdPaymentObject),
        ReceiptItem(DeliveryName, 50, 1, gw.ofdNds, gw.ofdPaymentMethod, gw.ofdPaymentObject) ]
  {
    assert o.items[1..] == [];
  }
}
