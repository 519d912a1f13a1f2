/** The callback endpoint (`input_payment_notifications`): it finds the
    order named by `account`, then routes on `action` to the cancel page,
    the success page or the provider's signed background notification.

    Two readings of the endpoint are modelled side by side. `AsWritten`
    compares signatures with PHP's loose `==` and takes the order of a
    background notification from the unsigned top-level `account`, as the
    code does. `Corrected` compares exactly and takes that order from the
    signed `params['account']`. Every general property below is stated for
    any reading. */
module Notifications {
  import opened Wrappers
  import opened Amounts
  import opened PhpStrings
  import opened PhpArrays
  import opened Orders
  import opened Settings
  import opened Signature
  import opened Reconciler

  /** An incoming request: `request` holds the scalar fields of
      `$_REQUEST`, `query` those of `$_GET`, and `params` the array
      `$_GET['params']` when one was sent. */
  datatype Request = Request(request: map<string, string>, query: map<string, string>, params: Option<Params>)

  /** What handling a request leaves behind: the response, the order
      store afterwards, and whether the customer's cart was emptied. */
  datatype Handled = Handled(response: Response, store: map<string, Order>, cartCleared: bool)

  /** Where the order of a background notification is read from: the
      top-level request field `account`, or the signed `params['account']`. */
  datatype AccountSource = RequestAccount | SignedAccount

  /** A reading of the endpoint: how signatures are compared and where a
      background notification's order comes from. */
  datatype Reading = Reading(comparison: Comparison, account: AccountSource)

  /** The endpoint as the code is written, with `eq` standing for PHP's
      loose `==`. */
  function AsWritten(eq: (string, string) -> bool): Reading {
    Reading(Loose(eq), RequestAccount)
  }

  /** The endpoint as evidently intended. */
  const Corrected := Reading(Strict, SignedAccount)

  const NoSuchOrder := "Order not found"
  const WrongSignature := "Wrong signature"
  const WrongMethod := "Wrong method"
  const FailNote := "Order cancellation. The client returned to the payment cancellation page."
  const SuccessNote := "The client returned to the payment success page."

  /** An option switched on in the settings (`get_option(key) === 'yes'`). */
  predicate Enabled(gw: Gateway, key: string) {
    GetOption(gw.options, key, "") == "yes"
  }

  /** The signature check of the background notification: `params`,
      `method` and `params['signature']` must all be sent, and the
      signature must match the one computed with the shop's secret. */
  predicate SignatureValid(gw: Gateway, hash: string -> string, cmp: Comparison, req: Request) {
    && req.params.Some?
    && "method" in req.query
    && Lookup(req.params.value, "signature").Some?
    && Verifies(cmp, hash, req.params.value, req.query["method"], gw.secretKey)
  }

  /** `input_payment_notifications_result`: fails closed on a bad or
      missing signature, then routes on `method`. */
  function HandleResult(gw: Gateway, hash: string -> string, cmp: Comparison, o: Order, req: Request): (r: Reply)
    ensures !SignatureValid(gw, hash, cmp, req) ==> r == Reply(JsonError(WrongSignature), o)
    ensures SignatureValid(gw, hash, cmp, req) ==>
      var m := req.query["method"];
      var p := req.params.value;
      && (m == "check" ==> r == Reply(Check(o, p), o))
      && (m == "pay" ==> r == Pay(o, p))
      && (m == "error" ==> r == Error(o, p))
      && (m !in {"check", "pay", "error"} ==> r == Reply(JsonError(WrongMethod), o))
  {
    if !SignatureValid(gw, hash, cmp, req) then Reply(JsonError(WrongSignature), o)
    else
      var m := req.query["method"];
      var p := req.params.value;
      if m == "check" then Reply(Check(o, p), o)
      else if m == "pay" then Pay(o, p)
      else if m == "error" then Error(o, p)
      else Reply(JsonError(WrongMethod), o)
  }

  /** `input_payment_notifications_fail`: an optional note, an optional
      move to failed, then a redirect to the order's cancel URL with its
      HTML escaping of `&` undone. */
  function HandleFail(gw: Gateway, o: Order): (r: Reply)
    ensures r.response == Redirect(Replace(o.cancelUrl, "&amp;", "&"))
    ensures r.order.notes == o.notes + (if Enabled(gw, "orders_notes_unitpay_request_fail") then [FailNote] else [])
    ensures r.order.status == if Enabled(gw, "fail_set_order_status_failed") then Failed else o.status
    ensures r.order == o.(notes := r.order.notes, status := r.order.status)
  {
    var noted := if Enabled(gw, "orders_notes_unitpay_request_fail") then AddNote(o, FailNote) else o;
    var order := if Enabled(gw, "fail_set_order_status_failed") then UpdateStatus(noted, Failed) else noted;
    Reply(Redirect(Replace(o.cancelUrl, "&amp;", "&")), order)
  }

  /** `input_payment_notifications_success`: an optional note, an optional
      emptying of the cart, then a redirect to the thank-you page. The
      status is left alone. */
  function HandleSuccess(gw: Gateway, o: Order): (r: (Reply, bool))
    ensures r.0.response == Redirect(o.returnUrl)
    ensures r.0.order == o.(notes := o.notes + (if Enabled(gw, "orders_notes_unitpay_request_success") then [SuccessNote] else []))
    ensures r.1 <==> Enabled(gw, "cart_clearing")
  {
    var noted := if Enabled(gw, "orders_notes_unitpay_request_success") then AddNote(o, SuccessNote) else o;
    (Reply(Redirect(o.returnUrl), noted), Enabled(gw, "cart_clearing"))
  }

  /** `$_REQUEST['action']`, or the empty string. */
  function Action(req: Request): string {
    if "action" in req.request then req.request["action"] else ""
  }

  /** A request the provider's server sends rather than the customer's
      browser: any action other than `fail` and `success`. */
  predicate Background(req: Request) {
    Action(req) != "fail" && Action(req) != "success"
  }

  /** The order the request names. As written it is always
      `$_REQUEST['account']`, and a missing one finds nothing
      (`wc_get_order(0)`); the corrected reading takes a background
      notification's order from the signed `params['account']`. */
  function OrderKey(rd: Reading, req: Request): (r: Option<string>)
    ensures rd.account == RequestAccount || !Background(req) ==>
              (r.Some? <==> "account" in req.request) && (r.Some? ==> r.value == req.request["account"])
    ensures rd.account == SignedAccount && Background(req) ==>
              (r.Some? <==> req.params.Some? && "account" in KeysOf(req.params.value)) &&
              (r.Some? ==> Lookup(req.params.value, "account") == r)
  {
    if rd.account == SignedAccount && Background(req) then
      if req.params.Some? then Lookup(req.params.value, "account") else None
    else if "account" in req.request then Some(req.request["account"])
    else None
  }

  /** The order a request finds: its key when the store holds it. */
  predicate Found(rd: Reading, store: map<string, Order>, req: Request) {
    OrderKey(rd, req).Some? && OrderKey(rd, req).value in store
  }

  /** `input_payment_notifications`. Every branch ends the request, so the
      "action not found" error after the switch is never reached. */
  function Dispatch(gw: Gateway, hash: string -> string, rd: Reading, store: map<string, Order>, req: Request): (h: Handled)
    ensures !Found(rd, store, req) ==> h == Handled(JsonError(NoSuchOrder), store, false)
    ensures Found(rd, store, req) ==>
      var k := OrderKey(rd, req).value;
      var o := store[k];
      && (Action(req) == "fail" ==>
            h == Handled(HandleFail(gw, o).response, store[k := HandleFail(gw, o).order], false))
      && (Action(req) == "success" ==>
            h == Handled(HandleSuccess(gw, o).0.response, store[k := HandleSuccess(gw, o).0.order], HandleSuccess(gw, o).1))
      && (Background(req) ==>
            h == Handled(HandleResult(gw, hash, rd.comparison, o, req).response,
                         store[k := HandleResult(gw, hash, rd.comparison, o, req).order], false))
    ensures h.store.Keys == store.Keys
    ensures forall k :: k in store && Some(k) != OrderKey(rd, req) ==> h.store[k] == store[k]
    ensures h.cartCleared ==> Action(req) == "success"
    ensures h.response.Redirect? <==> Found(rd, store, req) && !Background(req)
  {
    var key := OrderKey(rd, req);
    if key.None? || key.value !in store then Handled(JsonError(NoSuchOrder), store, false)
    else
      var o := store[key.value];
      var action := Action(req);
      if action == "fail" then
        var r := HandleFail(gw, o);
        Handled(r.response, store[key.value := r.order], false)
      else if action == "success" then
        var r := HandleSuccess(gw, o);
        Handled(r.0.response, store[key.value := r.0.order], r.1)
      else
        var r := HandleResult(gw, hash, rd.comparison, o, req);
        Handled(r.response, store[key.value := r.order], false)
  }

  /** Fail-closed: a background request whose signature is missing or
      does not pass the reading's comparison changes nothing and is
      answered "Wrong signature". */
  lemma BadSignatureChangesNothing(gw: Gateway, hash: string -> string, rd: Reading, store: map<string, Order>, req: Request)
    requires Found(rd, store, req)
    requires Background(req) && !SignatureValid(gw, hash, rd.comparison, req)
    ensures Dispatch(gw, hash, rd, store, req) == Handled(JsonError(WrongSignature), store, false)
  {
    var k := OrderKey(rd, req).value;
    assert store[k := store[k]] == store;
  }

  /** A signed background request with a method other than check, pay and
      error changes nothing and is answered "Wrong method". */
  lemma UnknownMethodChangesNothing(gw: Gateway, hash: string -> string, rd: Reading, store: map<string, Order>, req: Request)
    requires Found(rd, store, req)
    requires Background(req) && SignatureValid(gw, hash, rd.comparison, req)
    requires req.query["method"] !in {"check", "pay", "error"}
    ensures Dispatch(gw, hash, rd, store, req) == Handled(JsonError(WrongMethod), store, false)
  {
    var k := OrderKey(rd, req).value;
    assert store[k := store[k]] == store;
  }

  /** Authenticity: a background request is answered with a success or
      changes an order only when its signature passes the reading's
      comparison. */
  lemma BackgroundEffectsNeedSignature(gw: Gateway, hash: string -> string, rd: Reading, store: map<string, Order>, req: Request)
    requires Background(req)
    ensures var h := Dispatch(gw, hash, rd, store, req);
            h.response.JsonResult? || h.store != store ==> SignatureValid(gw, hash, rd.comparison, req)
  {
    if Found(rd, store, req) && !SignatureValid(gw, hash, rd.comparison, req) {
      BadSignatureChangesNothing(gw, hash, rd, store, req);
    }
  }

  /** An order changes status through a background request only when the
      signature passes, and then only on `error`, to failed, or on a `pay`
      whose sum and currency match the order, to paid. */
  lemma BackgroundStatusChanges(gw: Gateway, hash: string -> string, rd: Reading, store: map<string, Order>, req: Request)
    requires Background(req) && Found(rd, store, req)
    ensures var k := OrderKey(rd, req).value;
            var o := store[k];
            var after := Dispatch(gw, hash, rd, store, req).store[k];
            after.status != o.status ==>
              && SignatureValid(gw, hash, rd.comparison, req)
              && (|| (req.query["method"] == "error" && after.status == Failed)
                  || (&& req.query["method"] == "pay"
                      && SumMatches(o, req.params.value) && CurrencyMatches(o, req.params.value)
                      && after == PaymentComplete(o)))
  {
  }

  /** Repeating a background notification changes nothing further and
      gets the same answer: the provider may retry safely. */
  lemma BackgroundIsIdempotent(gw: Gateway, hash: string -> string, rd: Reading, store: map<string, Order>, req: Request)
    requires Background(req)
    ensures var h := Dispatch(gw, hash, rd, store, req);
            Dispatch(gw, hash, rd, h.store, req) == h
  {
    if Found(rd, store, req) {
      var k := OrderKey(rd, req).value;
      var h := Dispatch(gw, hash, rd, store, req);
      var r := HandleResult(gw, hash, rd.comparison, store[k], req);
      assert h.store == store[k := r.order];
      HandleResultIsIdempotent(gw, hash, rd.comparison, store[k], req);
      assert h.store[k := r.order] == h.store;
    }
  }

  /** Handling the same signed notification twice on one order answers
      the same and leaves the order as the first time did. */
  lemma HandleResultIsIdempotent(gw: Gateway, hash: string -> string, cmp: Comparison, o: Order, req: Request)
    ensures var r := HandleResult(gw, hash, cmp, o, req);
            HandleResult(gw, hash, cmp, r.order, req) == r
  {
    if SignatureValid(gw, hash, cmp, req) && req.query["method"] == "pay" {
      PayIsIdempotent(o, req.params.value);
    }
  }

  /** The cancel page is the order's own cancel URL: an URL whose every
      `&` WooCommerce printed as `&amp;` is restored exactly. */
  lemma CancelRedirectRestoresUrl(gw: Gateway, o: Order, url: string)
    requires o.cancelUrl == EscapeAmpersands(url)
    ensures HandleFail(gw, o).response == Redirect(url)
  {
    UnescapeAfterEscape(url);
  }

  /** Signing a notification keeps the sum and currency it carries. */
  lemma SignedFieldsStillMatch(o: Order, p: Params, sig: string)
    requires Lookup(p, "orderSum") == Some(FormatAmount(o.total))
    requires Lookup(p, "orderCurrency") == Some(o.currency)
    ensures var signed := Assign(p, "signature", sig);
            SumMatches(o, signed) && CurrencyMatches(o, signed)
  {
    var signed := Assign(p, "signature", sig);
    assert Lookup(signed, "orderSum") == Some(FormatAmount(o.total));
    assert Lookup(signed, "orderCurrency") == Some(o.currency);
    FormatAmountRoundTrip(o.total);
    SumMatchesMeansSameAmount(o, signed);
  }

  /** The happy path end to end: the provider signs a `pay` notification
      that carries the order's formatted total and currency; the order is
      paid and the provider is told so, under either reading. */
  lemma SignedMatchingPaymentCompletesOrder(gw: Gateway, hash: string -> string, rd: Reading, store: map<string, Order>,
                                           req: Request, k: string, p: Params)
    requires Admissible(rd.comparison)
    requires OrderKey(rd, req) == Some(k) && k in store && Background(req)
    requires "method" in req.query && req.query["method"] == "pay"
    requires req.params == Some(Assign(p, "signature", GetSignature(hash, "pay", p, gw.secretKey)))
    requires Lookup(p, "orderSum") == Some(FormatAmount(store[k].total))
    requires Lookup(p, "orderCurrency") == Some(store[k].currency)
    ensures Dispatch(gw, hash, rd, store, req) ==
            Handled(JsonResult(RequestSuccessfully), store[k := PaymentComplete(store[k])], false)
  {
    SignedMatchingPayIsAccepted(gw, hash, rd.comparison, store[k], req, p);
  }

  lemma SignedMatchingPayIsAccepted(gw: Gateway, hash: string -> string, cmp: Comparison, o: Order, req: Request, p: Params)
    requires Admissible(cmp)
    requires "method" in req.query && req.query["method"] == "pay"
    requires req.params == Some(Assign(p, "signature", GetSignature(hash, "pay", p, gw.secretKey)))
    requires Lookup(p, "orderSum") == Some(FormatAmount(o.total))
    requires Lookup(p, "orderCurrency") == Some(o.currency)
    ensures HandleResult(gw, hash, cmp, o, req) == Reply(JsonResult(RequestSuccessfully), PaymentComplete(o))
  {
    SignThenVerifyEither(cmp, hash, "pay", p, gw.secretKey);
    assert SignatureValid(gw, hash, cmp, req);
    SignedFieldsStillMatch(o, p, GetSignature(hash, "pay", p, gw.secretKey));
  }

  /** The loose comparison at the endpoint: when the digest of a `pay`
      notification reads as zero, the notification sent with signature
      "0" pays the order as written. */
  lemma ForgedZeroSignaturePays(gw: Gateway, hash: string -> string, eq: (string, string) -> bool,
                                store: map<string, Order>, req: Request, k: string, p: Params)
    requires PhpLooseAtLeast(eq)
    requires OrderKey(AsWritten(eq), req) == Some(k) && k in store && Background(req)
    requires "method" in req.query && req.query["method"] == "pay"
    requires req.params == Some(p) && Lookup(p, "signature") == Some("0")
    requires MagicZero(GetSignature(hash, "pay", p, gw.secretKey)) && GetSignature(hash, "pay", p, gw.secretKey) != "0"
    requires SumMatches(store[k], p) && CurrencyMatches(store[k], p)
    ensures Dispatch(gw, hash, AsWritten(eq), store, req) ==
            Handled(JsonResult(RequestSuccessfully), store[k := PaymentComplete(store[k])], false)
  {
    assert SignatureValid(gw, hash, Loose(eq), req);
  }

  /** The same notification under the exact comparison is refused and
      changes nothing. */
  lemma ForgedZeroSignatureRefused(gw: Gateway, hash: string -> string, account: AccountSource, store: map<string, Order>, req: Request)
    requires Found(Reading(Strict, account), store, req) && Background(req)
    requires req.params.Some? && Lookup(req.params.value, "signature") == Some("0")
    requires "method" in req.query && GetSignature(hash, req.query["method"], req.params.value, gw.secretKey) != "0"
    ensures Dispatch(gw, hash, Reading(Strict, account), store, req) == Handled(JsonError(WrongSignature), store, false)
  {
    BadSignatureChangesNothing(gw, hash, Reading(Strict, account), store, req);
  }

  /** As written, the order is picked by the unsigned top-level `account`:
      a correctly signed `pay` naming order `a` in its parameters pays a
      different order `b` when the request's own `account` says `b` and
      `b` has the same total and currency. */
  lemma UnsignedAccountPicksTheOrder(gw: Gateway, hash: string -> string, cmp: Comparison, store: map<string, Order>,
                                     req: Request, a: string, b: string, p: Params)
    requires Admissible(cmp)
    requires "account" in req.request && req.request["account"] == b && b in store && a != b
    requires Background(req) && "method" in req.query && req.query["method"] == "pay"
    requires Lookup(p, "account") == Some(a)
    requires req.params == Some(Assign(p, "signature", GetSignature(hash, "pay", p, gw.secretKey)))
    requires Lookup(p, "orderSum") == Some(FormatAmount(store[b].total))
    requires Lookup(p, "orderCurrency") == Some(store[b].currency)
    requires PayableStatus(store[b].status)
    ensures Lookup(req.params.value, "account") == Some(a)
    ensures var after := Dispatch(gw, hash, Reading(cmp, RequestAccount), store, req).store;
            after[b] == PaymentComplete(store[b]) && after[b] != store[b]
  {
    SignedMatchingPaymentCompletesOrder(gw, hash, Reading(cmp, RequestAccount), store, req, b, p);
  }

  /** Corrected, a background notification can change only the order its
      signed parameters name, and only when its signature checks exactly. */
  lemma SignedNotificationActsOnItsOwnOrder(gw: Gateway, hash: string -> string, store: map<string, Order>, req: Request, k: string)
    requires Background(req) && k in store
    requires Dispatch(gw, hash, Corrected, store, req).store[k] != store[k]
    ensures SignatureValid(gw, hash, Strict, req)
    ensures Lookup(req.params.value, "account") == Some(k)
  {
    BackgroundEffectsNeedSignature(gw, hash, Corrected, store, req);
  }
}
