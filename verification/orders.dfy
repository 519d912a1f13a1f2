/** The WooCommerce order as the gateway sees it, and the two status
    changes the gateway asks the order store for. */
module Orders {

  datatype Status = Pending | OnHold | Processing | Completed | Cancelled | Refunded | Failed

  /** One line of an order: its name, its line total in minor units and
      its quantity. */
  datatype LineItem = LineItem(name: string, total: int, quantity: int)

  /** An order: totals are in minor units; `cancelUrl` is the order's
      cancel URL as WooCommerce prints it (HTML-escaped) and `returnUrl`
      the thank-you page the gateway sends a paying customer to. */
  datatype Order = Order(
    id: string,
    total: int,
    currency: string,
    items: seq<LineItem>,
    shippingTotal: int,
    status: Status,
    needsProcessing: bool,
    cancelUrl: string,
    returnUrl: string,
    notes: seq<string>)

  /** The statuses WooCommerce accepts a payment for. */
  predicate PayableStatus(s: Status) {
    s == Pending || s == OnHold || s == Failed || s == Cancelled
  }

  /** WooCommerce's `payment_complete`: a payable order becomes processing
      (or completed when nothing needs processing); any other order is left
      alone. Only the status can change. */
  function PaymentComplete(o: Order): (r: Order)
    ensures r == o.(status := r.status)
    ensures !PayableStatus(r.status)
    ensures PayableStatus(o.status) <==> r != o
  {
    if PayableStatus(o.status) then o.(status := if o.needsProcessing then Processing else Completed)
    else o
  }

  /** `update_status(s)`. */
  function UpdateStatus(o: Order, s: Status): Order {
    o.(status := s)
  }

  /** `add_order_note(note)`. */
  function AddNote(o: Order, note: string): Order {
    o.(notes := o.notes + [note])
  }
}
