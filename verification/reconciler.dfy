/** The three background notifications the provider sends about an order
    (`input_payment_notifications_result_check`, `_payment`, `_error`):
    each compares the notification with the order and says whether, and
    how, the order changes. */
module Reconciler {
  import opened Wrappers
  import opened Amounts
  import opened PhpArrays
  import opened Orders

  /** What the callback endpoint answers. The JSON bodies are
      `{"result":{"message":m}}` and `{"error":{"message":m}}`. */
  datatype Response =
    | JsonResult(message: string)
    | JsonError(message: string)
    | Redirect(location: string)

  /** A response together with the order as it stands afterwards. */
  datatype Reply = Reply(response: Response, order: Order)

  const RequestSuccessfully := "Request successfully"
  const WrongOrderSum := "Wrong order sum"
  const WrongOrderCurrency := "Wrong order currency"

  /** Exact equality of two decimals. */
  predicate DecimalEquals(a: Decimal, b: Decimal) {
    a.units * Pow10(b.scale) == b.units * Pow10(a.scale)
  }

  /** `(float) number_format(total, 2) == (float) params['orderSum']`,
      compared exactly; a missing `orderSum` reads as 0. */
  predicate SumMatches(o: Order, params: Params)
    ensures "orderSum" !in KeysOf(params) ==> (SumMatches(o, params) <==> o.total == 0)
  {
    MissingSumReadsZero(o.total);
    DecimalEquals(ToDecimal(FormatAmount(o.total)), ToDecimal(Lookup(params, "orderSum").GetOr("")))
  }

  /** A missing `orderSum` reads as "", which denotes 0. */
  lemma MissingSumReadsZero(total: int)
    ensures DecimalEquals(ToDecimal(FormatAmount(total)), ToDecimal("")) <==> total == 0
  {
    FormatAmountRoundTrip(total);
    assert LeadingDigits("") == "";
    assert ToDecimal("") == Decimal(0, 0);
    assert Pow10(0) == 1 && Pow10(2) == 100;
  }

  /** `get_order_currency() == params['orderCurrency']`. */
  predicate CurrencyMatches(o: Order, params: Params)
    ensures "orderCurrency" !in KeysOf(params) ==> (CurrencyMatches(o, params) <==> o.currency == "")
  {
    o.currency == Lookup(params, "orderCurrency").GetOr("")
  }

  /** The sum check accepts exactly the notifications whose `orderSum`
      denotes the order total. */
  lemma SumMatchesMeansSameAmount(o: Order, params: Params)
    ensures SumMatches(o, params) <==> SameAmount(o.total, ToDecimal(Lookup(params, "orderSum").GetOr("")))
  {
    FormatAmountRoundTrip(o.total);
  }

  /** `check`: the order is never changed; a wrong sum is reported before a
      wrong currency is looked at. */
  function Check(o: Order, params: Params): (r: Response)
    ensures r == JsonResult(RequestSuccessfully) <==> SumMatches(o, params) && CurrencyMatches(o, params)
    ensures !SumMatches(o, params) ==> r == JsonError(WrongOrderSum)
    ensures SumMatches(o, params) && !CurrencyMatches(o, params) ==> r == JsonError(WrongOrderCurrency)
  {
    if !SumMatches(o, params) then JsonError(WrongOrderSum)
    else if !CurrencyMatches(o, params) then JsonError(WrongOrderCurrency)
    else JsonResult(RequestSuccessfully)
  }

  /** `pay`: answers exactly as `check` would, and completes the payment
      exactly when that answer is a success. */
  function Pay(o: Order, params: Params): (r: Reply)
    ensures r.response == Check(o, params)
    ensures r.response.JsonResult? ==> r.order == PaymentComplete(o)
    ensures !r.response.JsonResult? ==> r.order == o
  {
    if !SumMatches(o, params) then Reply(JsonError(WrongOrderSum), o)
    else if !CurrencyMatches(o, params) then Reply(JsonError(WrongOrderCurrency), o)
    else Reply(JsonResult(RequestSuccessfully), PaymentComplete(o))
  }

  /** `error`: whatever the notification says, the order fails and the
      provider is told the report was received. */
  function Error(o: Order, params: Params): (r: Reply)
    ensures r.response == JsonResult(RequestSuccessfully)
    ensures r.order.status == Failed && r.order == o.(status := Failed)
  {
    Reply(JsonResult(RequestSuccessfully), UpdateStatus(o, Failed))
  }

  /** A repeated `pay` changes nothing more and gets the same answer. */
  lemma PayIsIdempotent(o: Order, params: Params)
    ensures Pay(Pay(o, params).order, params) == Pay(o, params)
  {
  }
}
