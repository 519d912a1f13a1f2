/** The outbound payment form (`generate_form`): the hidden fields sent
    to the provider's payment page, their signature, and the shop-wide
    currency the call leaves behind. */
module PaymentForm {
  import opened Wrappers
  import opened PhpStrings
  import opened Amounts
  import opened PhpArrays
  import opened Orders
  import opened Settings
  import opened FiscalReceipt
  import opened Signature
  import opened Reconciler

  const OrderNotFound := "Generate form error. Order not found."

  /** The currencies the provider is told about by name. */
  const ProviderCurrencies: seq<string> := ["RUB", "USD", "EUR", "KZT"]

  /** The currency sent to the provider: USD, EUR and KZT by name, every
      other currency as roubles. */
  function ProviderCurrency(c: string): (r: string)
    ensures r in ProviderCurrencies
    ensures r == c <==> c in ProviderCurrencies
    ensures r != c ==> r == "RUB"
  {
    if c == "USD" then "USD"
    else if c == "EUR" then "EUR"
    else if c == "KZT" then "KZT"
    else "RUB"
  }

  /** The order description shown by the provider. */
  function Description(orderId: string): string {
    "Order number: " + orderId
  }

  /** The shop-wide currency after the rewrite: whatever it was, it ends
      up as the order's currency. */
  function RewriteCurrency(wcCurrency: string, o: Order): (r: string)
    ensures r == o.currency
  {
    if wcCurrency != o.currency then o.currency else wcCurrency
  }

  /** The form signature: the hash of account, currency, description, sum
      and secret joined by the delimiter. */
  function FormSignature(hash: string -> string, account: string, currency: string, desc: string, sum: string, secret: string): string {
    hash(Join(Delimiter, [account, currency, desc, sum, secret]))
  }

  /** The signed form fields, keyed as the form keys them. */
  function SignedFormFields(currency: string, desc: string, sum: string): Params {
    [("currency", currency), ("desc", desc), ("sum", sum)]
  }

  lemma SignedFormFieldsInKeyOrder(currency: string, desc: string, sum: string)
    ensures var p := SignedFormFields(currency, desc, sum);
            DistinctKeys(p) && StrictlySorted(p) && forall e :: e in p ==> !Unsigned(e.0)
  {
    assert Less("currency", "desc");
    assert Less("desc", "sum");
    LessTransitive("currency", "desc", "sum");
  }

  lemma FramedFive(a: string, b: string, c: string, d: string, e: string)
    ensures [a] + [b, c, d] + [e] == [a, b, c, d, e]
  {
  }

  /** The form signature is the callback signature with the account in
      the method's place and currency, desc and sum as the only signed
      parameters. */
  lemma FormSignatureIsCanonical(hash: string -> string, account: string, currency: string, desc: string, sum: string, secret: string)
    ensures FormSignature(hash, account, currency, desc, sum, secret) ==
            GetSignature(hash, account, SignedFormFields(currency, desc, sum), secret)
  {
    var p := SignedFormFields(currency, desc, sum);
    SignedFormFieldsInKeyOrder(currency, desc, sum);
    PreimageFromAnySortedArrangement(account, p, secret, p);
    SignedFormValues(currency, desc, sum);
    FramedFive(account, currency, desc, sum, secret);
  }

  lemma SignedFormValues(currency: string, desc: string, sum: string)
    ensures Values(SignedFormFields(currency, desc, sum)) == [currency, desc, sum]
  {
    var vs := Values(SignedFormFields(currency, desc, sum));
    assert vs[0] == currency && vs[1] == desc && vs[2] == sum;
  }

  /** The receipt sent with the form. */
  function BuildReceipt(gw: Gateway, o: Order): Receipt {
    Receipt(gw.ofdSno, ReceiptItems(gw, o))
  }

  /** The encoded receipt, or the empty string when fiscalisation is off.
      `encode` stands for `urlencode(json_encode(...))`. */
  function ReceiptField(gw: Gateway, encode: Receipt -> string, o: Order): string {
    if gw.ofdStatus then encode(BuildReceipt(gw, o)) else ""
  }

  /** The fields `generate_form` sets first, in that order. */
  function LeadingFields(sum: string, account: string, desc: string, currency: string): Params {
    [("sum", sum), ("account", account), ("desc", desc), ("currency", currency)]
  }

  /** The fields it sets after them: the optional test flag and receipt,
      then the signature and the language. */
  function TrailingFields(test: bool, receipt: string, signature: string, locale: string): Params {
    (if test then [("test", "1")] else [])
    + (if receipt != "" then [("Receipt", receipt)] else [])
    + [("signature", signature), ("locale", locale)]
  }

  /** The form fields in the order `generate_form` sets them. Each key is
      set once on a fresh array, so every assignment appends. */
  function FormFields(sum: string, account: string, desc: string, currency: string, test: bool,
                      receipt: string, signature: string, locale: string): Params {
    LeadingFields(sum, account, desc, currency) + TrailingFields(test, receipt, signature, locale)
  }

  /** The form fields for an order while the shop runs in `wcCurrency`. */
  function FormArgs(gw: Gateway, hash: string -> string, encode: Receipt -> string, o: Order, orderId: string, wcCurrency: string): (r: Params)
    ensures Lookup(r, "sum") == Some(FormatAmount(o.total))
    ensures Lookup(r, "account") == Some(orderId)
    ensures Lookup(r, "desc") == Some(Description(orderId))
    ensures Lookup(r, "currency") == Some(ProviderCurrency(wcCurrency))
    ensures "test" in KeysOf(r) <==> gw.test == "yes"
    ensures "Receipt" in KeysOf(r) <==> gw.ofdStatus && encode(BuildReceipt(gw, o)) != ""
  {
    var sum := FormatAmount(o.total);
    var desc := Description(orderId);
    var currency := ProviderCurrency(wcCurrency);
    FieldsReadBack(sum, orderId, desc, currency, gw.test == "yes", ReceiptField(gw, encode, o),
                   FormSignature(hash, orderId, currency, desc, sum, gw.secretKey), gw.language);
    FormFields(sum, orderId, desc, currency, gw.test == "yes", ReceiptField(gw, encode, o),
               FormSignature(hash, orderId, currency, desc, sum, gw.secretKey), gw.language)
  }

  /** The form and the shop-wide currency it leaves behind. */
  datatype Form = Form(args: Params, wcCurrency: string)

  /** `generate_form`, up to the rendering of the fields as HTML. */
  function GenerateForm(gw: Gateway, hash: string -> string, encode: Receipt -> string,
                        store: map<string, Order>, orderId: string, wcCurrency: string): (r: Result<Form, string>)
    ensures r.Failure? <==> orderId !in store
    ensures r.Failure? ==> r.error == OrderNotFound
    ensures r.Success? ==> r.value.wcCurrency == store[orderId].currency
  {
    if orderId !in store then Failure(OrderNotFound)
    else
      var o := store[orderId];
      var current := RewriteCurrency(wcCurrency, o);
      Success(Form(FormArgs(gw, hash, encode, o, orderId, current), current))
  }

  /** The leading fields read back as set, whatever follows them. */
  lemma LeadingFieldsReadBack(sum: string, account: string, desc: string, currency: string, rest: Params)
    ensures var args := LeadingFields(sum, account, desc, currency) + rest;
            && Lookup(args, "sum") == Some(sum)
            && Lookup(args, "account") == Some(account)
            && Lookup(args, "desc") == Some(desc)
            && Lookup(args, "currency") == Some(currency)
  {
    var args := LeadingFields(sum, account, desc, currency) + rest;
    assert args[0] == ("sum", sum) && args[1] == ("account", account);
    assert args[2] == ("desc", desc) && args[3] == ("currency", currency);
    LookupAt(args, 0, "sum");
    LookupAt(args, 1, "account");
    LookupAt(args, 2, "desc");
    LookupAt(args, 3, "currency");
  }

  /** The leading fields hold neither optional key. */
  lemma LeadingFieldsLeaveOptionalKeys(sum: string, account: string, desc: string, currency: string, rest: Params)
    ensures var args := LeadingFields(sum, account, desc, currency) + rest;
            && ("test" in KeysOf(args) <==> "test" in KeysOf(rest))
            && ("Receipt" in KeysOf(args) <==> "Receipt" in KeysOf(rest))
  {
    var head := LeadingFields(sum, account, desc, currency);
    KeysOfAppend(head, rest);
    assert forall e :: e in head ==> e.0 != "test" && e.0 != "Receipt";
  }

  /** `test` is among the trailing fields exactly when the flag is set,
      `Receipt` exactly when the encoded receipt is not empty. */
  lemma TrailingFieldKeys(test: bool, receipt: string, signature: string, locale: string)
    ensures var rest := TrailingFields(test, receipt, signature, locale);
            && ("test" in KeysOf(rest) <==> test)
            && ("Receipt" in KeysOf(rest) <==> receipt != "")
  {
    var t: Params := if test then [("test", "1")] else [];
    var r: Params := if receipt != "" then [("Receipt", receipt)] else [];
    var last: Params := [("signature", signature), ("locale", locale)];
    KeysOfAppend(t, r);
    KeysOfAppend(t + r, last);
    KeysOfPair(last[0], last[1]);
    if test {
      KeysOfSingle("test", "1");
    }
    if receipt != "" {
      KeysOfSingle("Receipt", receipt);
    }
  }

  /** Reading the fields back: the four leading ones hold what was put in
      them, `test` is there exactly when the flag is set and `Receipt`
      exactly when the encoded receipt is not empty. */
  lemma FieldsReadBack(sum: string, account: string, desc: string, currency: string, test: bool,
                       receipt: string, signature: string, locale: string)
    ensures var args := FormFields(sum, account, desc, currency, test, receipt, signature, locale);
            && Lookup(args, "sum") == Some(sum)
            && Lookup(args, "account") == Some(account)
            && Lookup(args, "desc") == Some(desc)
            && Lookup(args, "currency") == Some(currency)
            && ("test" in KeysOf(args) <==> test)
            && ("Receipt" in KeysOf(args) <==> receipt != "")
  {
    LeadingFieldsReadBack(sum, account, desc, currency, TrailingFields(test, receipt, signature, locale));
    LeadingFieldsLeaveOptionalKeys(sum, account, desc, currency, TrailingFields(test, receipt, signature, locale));
    TrailingFieldKeys(test, receipt, signature, locale);
  }

  /** The fields of a generated form, in order: the formatted total, the
      order number, its description and the provider currency of the
      order (not of the shop-wide currency found on entry); the test flag
      exactly in test mode; the encoded receipt exactly when fiscalisation
      is on and the encoding is not empty; the signature over the four
      signed fields; and the interface language. */
  lemma GeneratedFormFields(gw: Gateway, hash: string -> string, encode: Receipt -> string,
                            store: map<string, Order>, orderId: string, wcCurrency: string)
    requires orderId in store
    ensures var o := store[orderId];
            var sum := FormatAmount(o.total);
            var currency := ProviderCurrency(o.currency);
            var receipt := encode(BuildReceipt(gw, o));
            GenerateForm(gw, hash, encode, store, orderId, wcCurrency).value.args ==
              [("sum", sum), ("account", orderId), ("desc", Description(orderId)), ("currency", currency)]
              + (if gw.test == "yes" then [("test", "1")] else [])
              + (if gw.ofdStatus && receipt != "" then [("Receipt", receipt)] else [])
              + [("signature", FormSignature(hash, orderId, currency, Description(orderId), sum, gw.secretKey)),
                 ("locale", gw.language)]
  {
    var o := store[orderId];
    var current := RewriteCurrency(wcCurrency, o);
    var sum := FormatAmount(o.total);
    var currency := ProviderCurrency(o.currency);
    var receipt := ReceiptField(gw, encode, o);
    assert GenerateForm(gw, hash, encode, store, orderId, wcCurrency).value.args ==
           FormArgs(gw, hash, encode, o, orderId, current);
    assert FormArgs(gw, hash, encode, o, orderId, current) ==
           FormFields(sum, orderId, Description(orderId), currency, gw.test == "yes", receipt,
                      FormSignature(hash, orderId, currency, Description(orderId), sum, gw.secretKey), gw.language);
    FormFieldsInOrder(sum, orderId, Description(orderId), currency, gw.test == "yes", receipt,
                      FormSignature(hash, orderId, currency, Description(orderId), sum, gw.secretKey), gw.language);
    assert (if receipt != "" then [("Receipt", receipt)] else []) ==
           (if gw.ofdStatus && encode(BuildReceipt(gw, o)) != "" then [("Receipt", encode(BuildReceipt(gw, o)))] else []);
  }

  lemma FormFieldsInOrder(sum: string, account: string, desc: string, currency: string, test: bool,
                          receipt: string, signature: string, locale: string)
    ensures FormFields(sum, account, desc, currency, test, receipt, signature, locale) ==
            [("sum", sum), ("account", account), ("desc", desc), ("currency", currency)]
            + (if test then [("test", "1")] else [])
            + (if receipt != "" then [("Receipt", receipt)] else [])
            + [("signature", signature), ("locale", locale)]
  {
  }

  /** The optional fields: `test` is sent exactly in test mode, `Receipt`
      exactly when fiscalisation is on and the encoded receipt is not
      empty. */
  lemma OptionalFieldsPresentExactlyWhen(gw: Gateway, hash: string -> string, encode: Receipt -> string,
                                         store: map<string, Order>, orderId: string, wcCurrency: string)
    requires orderId in store
    ensures var args := GenerateForm(gw, hash, encode, store, orderId, wcCurrency).value.args;
            && ("test" in KeysOf(args) <==> gw.test == "yes")
            && ("Receipt" in KeysOf(args) <==> gw.ofdStatus && encode(BuildReceipt(gw, store[orderId])) != "")
  {
    var o := store[orderId];
    var sum := FormatAmount(o.total);
    var currency := ProviderCurrency(o.currency);
    FieldsReadBack(sum, orderId, Description(orderId), currency, gw.test == "yes", ReceiptField(gw, encode, o),
                   FormSignature(hash, orderId, currency, Description(orderId), sum, gw.secretKey), gw.language);
  }

  /** The form does not depend on the shop-wide currency it finds. */
  lemma FormIgnoresIncomingCurrency(gw: Gateway, hash: string -> string, encode: Receipt -> string,
                                    store: map<string, Order>, orderId: string, w1: string, w2: string)
    ensures GenerateForm(gw, hash, encode, store, orderId, w1) == GenerateForm(gw, hash, encode, store, orderId, w2)
  {
  }

  /** The test flag, the receipt and the language are not signed: two
      gateways with the same secret sign the same order alike. */
  lemma UnsignedFieldsDoNotAffectSignature(gw1: Gateway, gw2: Gateway, hash: string -> string,
                                          e1: Receipt -> string, e2: Receipt -> string,
                                          store: map<string, Order>, orderId: string, w1: string, w2: string)
    requires orderId in store && gw1.secretKey == gw2.secretKey
    ensures var a1 := GenerateForm(gw1, hash, e1, store, orderId, w1).value.args;
            var a2 := GenerateForm(gw2, hash, e2, store, orderId, w2).value.args;
            a1[|a1| - 2] == a2[|a2| - 2] && a1[|a1| - 2].0 == "signature"
  {
    GeneratedFormFields(gw1, hash, e1, store, orderId, w1);
    GeneratedFormFields(gw2, hash, e2, store, orderId, w2);
  }

  /** When the provider echoes the form's sum and currency back in a
      `check` or `pay` notification, the order passes exactly when its
      currency is one the provider is told about by name; any other
      currency was sent as roubles and is refused as the wrong currency. */
  lemma EchoedFormPassesCheck(gw: Gateway, hash: string -> string, encode: Receipt -> string,
                              store: map<string, Order>, orderId: string, wcCurrency: string, params: Params)
    requires orderId in store
    requires var args := GenerateForm(gw, hash, encode, store, orderId, wcCurrency).value.args;
             Lookup(params, "orderSum") == Lookup(args, "sum") && Lookup(params, "orderCurrency") == Lookup(args, "currency")
    ensures var o := store[orderId];
            Check(o, params) == if o.currency in ProviderCurrencies then JsonResult(RequestSuccessfully) else JsonError(WrongOrderCurrency)
  {
    var o := store[orderId];
    var sum := FormatAmount(o.total);
    var currency := ProviderCurrency(o.currency);
    FieldsReadBack(sum, orderId, Description(orderId), currency, gw.test == "yes", ReceiptField(gw, encode, o),
                   FormSignature(hash, orderId, currency, Description(orderId), sum, gw.secretKey), gw.language);
    FormatAmountRoundTrip(o.total);
    SumMatchesMeansSameAmount(o, params);
  }
}
