# Unitpay gateway for WooCommerce: a Dafny model of the payment protocol

This project models the payment-protocol core of the WooCommerce Unitpay
gateway, the PHP class `Wc_Unitpay_Method`, and proves properties about it.
The model covers five parts:

- **The keyed signature.** `get_signature` sorts the parameters by key
  (`ksort`), drops `sign` and `signature`, puts the method name first and
  the secret last, joins the pieces with `{up}` and hashes the result.
  `verify_signature` compares that digest with `params['signature']`.
  These are in `signature.dfy`. PHP's `ksort`, `unset` and assignment on
  arrays are in `php_arrays.dfy`, and `join`/`str_replace` in
  `php_strings.dfy`.
- **The callback endpoint.** `input_payment_notifications` finds the
  order, then routes on `action`:
  - `fail` goes to the cancel page;
  - `success` goes to the thank-you page;
  - anything else goes to the provider's background notification.

  The background notification fails closed on a bad signature, then routes
  on `method` to `check`, `pay` or `error`. Those three compare the
  notification's sum and currency with the order and decide whether it
  changes. These are in `notifications.dfy` and `reconciler.dfy`.
- **The outbound payment form.** `generate_form` builds these fields:
  - the formatted sum, the account and the description;
  - the currency the provider is told;
  - the optional test flag and fiscal receipt;
  - the form signature and the interface language.

  It also rewrites the shop-wide current currency. This is in `form.dfy`.
  The receipt positions (`generate_receipt_items`) are in `receipt.dfy`.
- **The settings the protocol reads.** These come from `init_options`: the
  tax-system and VAT code mappings, the automatic interface language and
  the keys. They are in `settings.dfy`.
- **The pure parts of availability.** These are `is_support_currency` and
  `get_matching_rates`, in `availability.dfy`.

## Modelling choices

**Opaque operations**
- SHA-256 is a parameter `hash: string -> string`. Every property holds
  for any such function, so what is proved is the canonical pre-image that
  is hashed.
- `urlencode(json_encode(receipt))` is likewise a parameter
  `encode: Receipt -> string`.

**Data**
- A PHP array is an ordered list of key/value pairs (`Params`).
- `$p[k]` reads the first entry under `k`.
- `$p[k] = v` replaces a value in place or appends a new key.
- `ksort` is an insertion sort under byte-wise lexicographic key order.

**Amounts**
- Money is an integer number of minor units (kopecks, cents).
- `number_format(total, 2, '.', '')` is `FormatAmount`.
- The `(float)` cast of the provider's `orderSum` is an exact decimal
  reading, `ToDecimal`.
- `intval` truncates toward zero (`IntVal`).

**State**
- The order store is a `map<string, Order>`.
- The dispatcher returns the response, the new store and whether the cart
  was emptied.
- Every `echo json_encode(...); die()` and `wp_redirect(...); die()` is a
  returned `Response`.
- The gateway's shop-wide current currency (`wc_currency`, in
  `includes/class-wc-unitpay.php`) is passed in and handed back
  explicitly.

**WooCommerce**
- `payment_complete` belongs to WooCommerce and is not part of this model.
  It is modelled by its documented guard:
  - a pending, on-hold, failed or cancelled order becomes processing, or
    completed when nothing needs processing;
  - any other order is left alone.
- `wc_get_string_before_colon` is likewise WooCommerce's and is not part of
  this model. It is modelled as the trimmed text before the first colon.

**Two readings of the endpoint**
- `verify_signature` compares with PHP's loose `==`, and
  `input_payment_notifications` picks the order by the unsigned top-level
  `account`, never by the signed `params['account']`. Both are open to
  forgery (see "## Findings").
- The endpoint is therefore modelled under a `Reading`: a signature
  `Comparison` and an `AccountSource` (the request's `account` or the
  signed one). The comparison is `Strict` (exact equality) or `Loose(eq)`.
- PHP 8's `==` on numeric strings (whitespace, signs, exponents, float
  rounding) is not defined here. `Loose(eq)` takes it as a parameter
  `eq`. Only two facts about it are ever assumed (`PhpLooseAtLeast`):
  every string equals itself, and `0` equals `0e` followed by digits.
  PHP's `==` has both.
- `Notifications.AsWritten(eq)` is the code: loose comparison, request
  account. `Notifications.Corrected` is the evidently intended behaviour:
  exact comparison, signed account.
- The fail-closed properties of the endpoint are proved for every
  reading and every `eq`, so they hold of the code as written whatever
  PHP's `==` accepts. The positive ones (a correctly signed request is
  accepted) are proved for every `eq` with `PhpLooseAtLeast`.

**Behaviour of the code a reader might not expect:**
- Any action other than `fail` and `success` is handled as a background
  notification, including a missing or unknown action. The "action not
  found" 503 after the switch (includes/class-wc-unitpay-method.php:2030)
  is therefore never reached.
- The form signature is not a separate scheme. It is exactly
  `get_signature` with the account in the method's place and `currency`,
  `desc` and `sum` as the only signed parameters
  (`PaymentForm.FormSignatureIsCanonical`).
- `Receipt` is sent when fiscalisation is on and the encoded receipt is
  non-empty, not merely when fiscalisation is on.
- The currency rewrite always leaves the shop-wide currency equal to the
  order's currency. The form is therefore independent of the currency
  found on entry.
- A repeated `pay` is harmless only because `payment_complete` ignores an
  order that is already paid. The gateway itself does not check.
- The secret used for signing is always `secret_key`. `test_secret_key` is
  read and stored but never used.

## Model

| member | source | states |
|---|---|---|
| PhpArrays.Lookup | includes/class-wc-unitpay-method.php:1826 | `$params['orderSum']` finds a value exactly when the key is present, and the value is the one stored under it |
| PhpArrays.Unset | includes/class-wc-unitpay-method.php:1773 | `unset` keeps exactly the entries under other keys |
| PhpArrayLaws.UnsetAppend | includes/class-wc-unitpay-method.php:1773 | `unset` keeps the remaining entries in their order: unsetting an array with one more entry at the end gives the same result with that entry at the end, unless it was under the removed key |
| PhpArrays.Assign | includes/class-wc-unitpay-method.php:1467-1540 | after `$p[k] = v`, `k` reads `v`, every other key reads as before, the key set gains `k`, and distinct keys stay distinct |
| PhpArrays.KSort | includes/class-wc-unitpay-method.php:1771 | `ksort` returns a permutation of the array with keys ascending, strictly when the keys were distinct |
| PhpArrays.LookupAt | includes/class-wc-unitpay-method.php:1530-1533 | reading a key gives the value at its first position |
| PhpArrayLaws.UnsetKeepsOrder | includes/class-wc-unitpay-method.php:1771-1773 | removing a key after `ksort` keeps the array sorted |
| PhpArrayLaws.UnsetKSort | includes/class-wc-unitpay-method.php:1771-1773 | sorting then removing a key equals removing it then sorting |
| PhpArrayLaws.SetValueKSort | includes/class-wc-unitpay-method.php:1771 | changing a value commutes with `ksort`: values never affect the order |
| PhpArrayLaws.UnsetAssignSame | includes/class-wc-unitpay-method.php:1773 | assigning a key and then unsetting it leaves no trace |
| PhpArrayLaws.UnsetAssignOther | includes/class-wc-unitpay-method.php:1773 | unsetting one key commutes with assigning another |
| PhpStrings.UnescapeAfterEscape | includes/class-wc-unitpay-method.php:1949 | replacing `&amp;` by `&` exactly undoes HTML-escaping every `&` |
| PhpStrings.JoinInjectiveAt | includes/class-wc-unitpay-method.php:1778 | two joins that differ only in the piece at one position are different strings |
| Signature.GetSignature | includes/class-wc-unitpay-method.php:1769-1779 | the signature is the digest of `method{up}v1{up}...{up}vn{up}secret`, the signed values in ascending key order, and of `method{up}secret` when nothing is signed |
| Signature.VerifySignature | includes/class-wc-unitpay-method.php:1757-1760 | exact reading: a request without `signature` verifies only if the digest is empty; one with it verifies exactly when the supplied signature is the digest |
| Signature.LooseEqualsIsLeast | includes/class-wc-unitpay-method.php:1759 | every string comparison with the facts known of PHP's `==` (PHP's own among them) accepts at least equal strings and any two zero spellings |
| Signature.VerifySignatureAsWritten | includes/class-wc-unitpay-method.php:1757-1760 | as written, with a loose `==` that has the known facts: every signature the exact check accepts is accepted, and so is `0` whenever the digest reads as zero |
| Signature.SignThenVerifyEither | includes/class-wc-unitpay-method.php:1757-1779 | a request carrying its own computed signature verifies under exact comparison and under any loose `==` with the known facts |
| Signature.SignedEntries | includes/class-wc-unitpay-method.php:1771-1773 | the signed entries are exactly the entries not keyed `sign` or `signature`, strictly ordered by key when the request's keys are distinct |
| Signature.PreimageShape | includes/class-wc-unitpay-method.php:1771-1778 | the hashed string is the method, `{up}`, each signed value by ascending key followed by `{up}`, then the secret |
| Signature.PreimageFromAnySortedArrangement | includes/class-wc-unitpay-method.php:1771-1778 | any key-sorted listing of the signed entries yields the same pre-image |
| Signature.SignatureDependsOnlyOnSignedEntries | includes/class-wc-unitpay-method.php:1769-1779 | two requests with the same signed entries, in any insertion order, have the same signature |
| Signature.SignedEntriesIgnoreUnsigned | includes/class-wc-unitpay-method.php:1773 | setting `sign` or `signature` does not change what is signed |
| Signature.SignThenVerify | includes/class-wc-unitpay-method.php:1757-1779 | a request carrying its own computed signature verifies |
| Signature.VerifyAcceptsOnlyTheDigest | includes/class-wc-unitpay-method.php:1757-1760 | with exact comparison, a supplied signature verifies if and only if it is the computed digest |
| Signature.PreimageBindsMethod | includes/class-wc-unitpay-method.php:1776-1778 | different method names give different pre-images for the same parameters |
| Signature.PreimageBindsSecret | includes/class-wc-unitpay-method.php:1775-1778 | different secrets give different pre-images |
| Signature.PreimageBindsEachValue | includes/class-wc-unitpay-method.php:1771-1778 | changing the value of any signed parameter changes the pre-image |
| Signature.PreimageDoesNotBindKeyNames | includes/class-wc-unitpay-method.php:1778 | key names are not signed: one value containing `{up}` and two values split at it give the same pre-image |
| Signature.AsWrittenAcceptsZeroSignature | includes/class-wc-unitpay-method.php:1757-1760 | with any loose `==` that has the known facts of PHP's, a request whose digest reads as zero (`0e` and digits) is accepted with the forged signature `0`, which the exact check refuses |
| Signature.ZeroSignatureExample | includes/class-wc-unitpay-method.php:1757-1760 | a concrete `pay` notification forged this way |
| Amounts.NatToString | includes/class-wc-unitpay-method.php:1466 | the digits printed for a number spell that number, without leading zeros |
| Amounts.FormatAmount | includes/class-wc-unitpay-method.php:1789 | `number_format(total, 2, '.', '')` always ends in a point and two digits, and starts with `-` exactly when the total is negative |
| Amounts.ToDecimal | includes/class-wc-unitpay-method.php:1797 | the `(float)` cast reads a negative number only from a string starting with `-`, and a string starting with `-` never reads as positive |
| Amounts.FormatAmountRoundTrip | includes/class-wc-unitpay-method.php:1789-1797 | reading back a total printed with two decimals gives exactly that total |
| Amounts.FormattedSumMatchesOnlyItsTotal | includes/class-wc-unitpay-method.php:1789-1797 | a printed total denotes the same amount as exactly one total, the one printed |
| Amounts.IntVal | includes/class-wc-unitpay-method.php:1614 | `intval` of an amount is the whole part, truncated toward zero: within one unit of the amount, never beyond it |
| Orders.PaymentComplete | includes/class-wc-unitpay-method.php:1842 | only the status changes; the result is never payable; the order changes if and only if it was payable |
| Reconciler.SumMatches | includes/class-wc-unitpay-method.php:1797 | a notification without `orderSum` reads as 0, so it matches only an order whose total is zero |
| Reconciler.CurrencyMatches | includes/class-wc-unitpay-method.php:1804 | a notification without `orderCurrency` matches only an order whose currency is empty |
| Reconciler.SumMatchesMeansSameAmount | includes/class-wc-unitpay-method.php:1789-1797 | the sum check accepts exactly the `orderSum` values that denote the order total |
| Reconciler.Check | includes/class-wc-unitpay-method.php:1787-1815 | success if and only if sum and currency both match; a wrong sum is reported before the currency is looked at |
| Reconciler.Pay | includes/class-wc-unitpay-method.php:1821-1851 | answers exactly as `check` would; completes the payment exactly on success and otherwise leaves the order unchanged |
| Reconciler.Error | includes/class-wc-unitpay-method.php:1859-1869 | always answers "Request successfully" and marks the order failed, changing nothing else |
| Reconciler.PayIsIdempotent | includes/class-wc-unitpay-method.php:1821-1851 | a repeated `pay` answers the same and changes nothing more |
| Notifications.HandleResult | includes/class-wc-unitpay-method.php:1874-1927 | fails closed with "Wrong signature" unless params, method and signature are sent and the signature verifies under the given comparison; then routes check, pay and error, and answers "Wrong method" otherwise |
| Notifications.HandleFail | includes/class-wc-unitpay-method.php:1932-1950 | redirects to the cancel URL with `&amp;` undone; adds the note and sets failed only when their options are on; changes nothing else |
| Notifications.HandleSuccess | includes/class-wc-unitpay-method.php:1956-1974 | redirects to the return URL; adds the note when its option is on; empties the cart exactly when `cart_clearing` is on; never changes the status |
| Notifications.OrderKey | includes/class-wc-unitpay-method.php:1994-1998 | as written, the order is the top-level `account`, and a request without one finds none; corrected, a background notification's order is the signed `params['account']`, found exactly when the parameters carry it |
| Notifications.Dispatch | includes/class-wc-unitpay-method.php:1981-2031 | a missing order gives "Order not found" and changes nothing; a found order goes to the cancel handler on `fail`, the success handler on `success` and the background handler on any other action, and the result is that handler's answer with only that order replaced; the cart is emptied only on `success`; a redirect comes exactly for a found order on `fail` or `success` |
| Notifications.BadSignatureChangesNothing | includes/class-wc-unitpay-method.php:1880-1922 | under every reading and every loose `==`, PHP's included, a background request with a missing signature or one that does not pass the comparison changes nothing and is answered "Wrong signature" |
| Notifications.UnknownMethodChangesNothing | includes/class-wc-unitpay-method.php:1898-1912 | a signed request with any other method changes nothing and is answered "Wrong method" |
| Notifications.BackgroundEffectsNeedSignature | includes/class-wc-unitpay-method.php:1874-1927 | under every reading and every loose `==`, PHP's included, a background request is answered with success or changes an order only if its signature passes that reading's comparison |
| Notifications.BackgroundStatusChanges | includes/class-wc-unitpay-method.php:1898-1912 | under every reading and every loose `==`, PHP's included, a background request changes an order's status only when its signature passes, and then only to failed on `error` or to paid on a matching `pay` |
| Notifications.HandleResultIsIdempotent | includes/class-wc-unitpay-method.php:1874-1927 | handling the same notification twice on one order answers the same and leaves it as the first time did |
| Notifications.BackgroundIsIdempotent | includes/class-wc-unitpay-method.php:1981-2031 | the provider may resend a notification: the second delivery changes nothing and gets the same answer |
| Notifications.CancelRedirectRestoresUrl | includes/class-wc-unitpay-method.php:1949 | the fail redirect goes to the order's own cancel URL, exactly |
| Notifications.SignedFieldsStillMatch | includes/class-wc-unitpay-method.php:1787-1851 | adding the signature to a notification that carries the order's printed total and currency keeps both checks passing |
| Notifications.SignedMatchingPaymentCompletesOrder | includes/class-wc-unitpay-method.php:1981-2031 | under either reading, with any loose `==` that has the known facts of PHP's, a correctly signed `pay` carrying the order's printed total and currency completes the payment and is answered "Request successfully" |
| Notifications.SignedMatchingPayIsAccepted | includes/class-wc-unitpay-method.php:1874-1927 | the background handler accepts such a `pay` under either comparison and completes the payment |
| Notifications.ForgedZeroSignaturePays | includes/class-wc-unitpay-method.php:1757-1760 | as written, with any loose `==` that has the known facts of PHP's, a `pay` sent with signature `0` whose digest reads as zero completes the order and is answered "Request successfully" |
| Notifications.ForgedZeroSignatureRefused | includes/class-wc-unitpay-method.php:1757-1760 | with exact comparison the same forged notification is answered "Wrong signature" and changes nothing |
| Notifications.UnsignedAccountPicksTheOrder | includes/class-wc-unitpay-method.php:1994-1998 | as written, a correctly signed `pay` whose parameters name order `a` pays a different order `b` named by the unsigned top-level `account`, when `b` has the same total and currency |
| Notifications.SignedNotificationActsOnItsOwnOrder | includes/class-wc-unitpay-method.php:1994-1998 | corrected, a background notification changes an order only if its signature is exactly right and its signed `params['account']` names that order |
| Settings.GetOption | includes/class-wc-unitpay-method.php:262-459 | the stored value, or the supplied default when nothing (or the empty string) is stored |
| Settings.SnoName | includes/class-wc-unitpay-method.php:333-365 | the tax-system code maps to one of the six provider strings; it is the general system exactly when the code is not 1 to 5 |
| Settings.NdsName | includes/class-wc-unitpay-method.php:370-402 | the VAT code maps to one of the six rates; it is "none" exactly when the code is not 1 to 5 |
| Settings.CodesFollowSelectOrder | includes/class-wc-unitpay-method.php:333-402 | code `i` names the `i`-th tax system and the `i`-th VAT rate |
| Settings.CodesAreRecoverable | includes/class-wc-unitpay-method.php:333-402 | the code can be read back from the provider string, so no two codes share one |
| Settings.InterfaceLanguage | includes/class-wc-unitpay-method.php:298-315 | with `language_auto` on, the language is English exactly for the `en_EN` locale and Russian otherwise; with it off, the stored language |
| Settings.StoredOr | includes/class-wc-unitpay-method.php:404-434 | the stored value when a non-empty one is stored, the class default otherwise |
| Settings.InitOptions | includes/class-wc-unitpay-method.php:262-459 | test mode, language, fiscalisation flag, tax system (default `usn`), VAT rate (default `none`), payment method and object and secret key are taken from the stored settings |
| FiscalReceipt.Position | includes/class-wc-unitpay-method.php:1598-1636 | every position carries the gateway's VAT rate, payment method and payment object |
| FiscalReceipt.LinePositions | includes/class-wc-unitpay-method.php:1583-1637 | one position per order line, in line order, with the line's name, truncated total and quantity |
| FiscalReceipt.ReceiptItems | includes/class-wc-unitpay-method.php:1574-1693 | as many positions as lines, plus one when shipping costs more than zero; that one comes last, is named "Delivery", has quantity 1 and the truncated shipping total |
| FiscalReceipt.PositionsTotalAppend | includes/class-wc-unitpay-method.php:1583-1690 | the receipt total is additive over concatenated positions |
| FiscalReceipt.LinePositionsUnderstateLines | includes/class-wc-unitpay-method.php:1614 | truncation never states more than the lines cost and falls short by at most 0.99 per line |
| FiscalReceipt.ReceiptUnderstatesOrder | includes/class-wc-unitpay-method.php:1574-1693 | the whole receipt, delivery included, understates lines plus shipping by at most 0.99 per position |
| FiscalReceipt.OneLineWithShipping | includes/class-wc-unitpay-method.php:1583-1690 | a line of 100.40 for two and 50.00 of shipping give positions of 100 for two and 50 for delivery |
| PaymentForm.ProviderCurrency | includes/class-wc-unitpay-method.php:1484-1496 | the currency sent is always RUB, USD, EUR or KZT; it is the shop's currency if and only if that is one of those four, and RUB otherwise |
| PaymentForm.RewriteCurrency | includes/class-wc-unitpay-method.php:1475-1479 | the shop-wide currency always ends up as the order's currency |
| PaymentForm.FormArgs | includes/class-wc-unitpay-method.php:1464-1540 | `sum`, `account`, `desc` and `currency` read back as the formatted total, the order number, its description and the provider currency; `test` is present exactly in test mode; `Receipt` exactly when fiscalisation is on and the encoded receipt is non-empty |
| PaymentForm.FormSignatureIsCanonical | includes/class-wc-unitpay-method.php:1528-1535 | the form signature is `get_signature` with the account as method and currency, desc and sum as the signed parameters |
| PaymentForm.SignedFormValues | includes/class-wc-unitpay-method.php:1530-1533 | the signed form values come out in the order currency, desc, sum |
| PaymentForm.GenerateForm | includes/class-wc-unitpay-method.php:1451-1540 | an unknown order fails with "Generate form error. Order not found."; a known one leaves the shop-wide currency equal to the order's |
| PaymentForm.FieldsReadBack | includes/class-wc-unitpay-method.php:1467-1540 | sum, account, desc and currency read back as set; `test` is present exactly when requested; `Receipt` exactly when non-empty |
| PaymentForm.GeneratedFormFields | includes/class-wc-unitpay-method.php:1464-1540 | the generated fields in order: sum, account, desc, the order's provider currency, the test flag in test mode, the receipt when fiscalisation is on and it encodes non-empty, the signature and the locale |
| PaymentForm.OptionalFieldsPresentExactlyWhen | includes/class-wc-unitpay-method.php:1498-1526 | `test` is sent if and only if test mode is `yes`; `Receipt` if and only if fiscalisation is on and the encoding is non-empty |
| PaymentForm.FormIgnoresIncomingCurrency | includes/class-wc-unitpay-method.php:1475-1496 | the form does not depend on the shop-wide currency found on entry |
| PaymentForm.UnsignedFieldsDoNotAffectSignature | includes/class-wc-unitpay-method.php:1498-1540 | the test flag, receipt and language do not enter the signature: the same order and secret give the same signature |
| PaymentForm.EchoedFormPassesCheck | includes/class-wc-unitpay-method.php:1484-1496 | if the provider echoes the form's sum and currency, `check` succeeds exactly when the order's currency is one sent by name; otherwise it answers "Wrong order currency" |
| Availability.IsSupportCurrency | includes/class-wc-unitpay-method.php:1210-1224 | the currency, or the shop's current one when none is given, is accepted exactly when it is in the gateway's list |
| Availability.OfferedCurrenciesAreSentByName | includes/class-wc-unitpay-method.php:1210-1224 | a currency the configured gateway accepts is sent to the provider under its own name, never as roubles, and is never KZT |
| Availability.SupportedExactly | includes/class-wc-unitpay-method.php:1210-1224 | the configured gateway accepts the shop currency exactly when it is RUB, USD or EUR |
| Availability.Intersect | includes/class-wc-unitpay-method.php:2317-2318 | `array_intersect` keeps exactly the values found in both, never more entries than the first array has, without adding duplicates |
| Availability.IntersectAppend | includes/class-wc-unitpay-method.php:2317-2318 | `array_intersect` keeps the first array's order: an entry appended to it comes out last exactly when the second array holds it |
| PhpStrings.UniqueAppend | includes/class-wc-unitpay-method.php:2315-2318 | `array_unique` keeps first occurrences in their order: a value appended at the end comes out last exactly when it was not already there |
| Availability.MethodIds | includes/class-wc-unitpay-method.php:2318 | each rate id is mapped to its method id |
| Availability.MatchingRates | includes/class-wc-unitpay-method.php:2312-2320 | an entry matches exactly when it is chosen and some rate names it in full or by method id; each match appears once |
| Availability.MethodIdMatchesEveryInstance | includes/class-wc-unitpay-method.php:2312-2320 | a chosen method id is activated by a rate of that method, whatever its instance |

## Left out

- Hook and filter registration, the logger, translation (`__()` is the
  identity here), admin pages and widgets, and the settings-field
  declarations. These are plugin glue with no protocol content.
- The `wc_unitpay_payment_form_args` filter (includes/class-wc-unitpay-method.php:1545).
  Third-party code may rewrite the fields after the signature is computed.
- The HTML rendering of the form and `receipt_page`/`process_payment`.
  These present the data already modelled.
- The internals of SHA-256, `json_encode` and `urlencode`. These are
  library calls, modelled as function parameters.
- Floating-point amounts. Totals are exact minor units, so rounding inside
  `number_format` and binary float error are not modelled. `ToDecimal`
  reads an optional sign, digits and one decimal point only. Leading
  whitespace, exponents, `inf` and `nan` are not modelled.
- `ksort`'s numeric-key comparison (SORT_REGULAR). Keys are compared as
  byte strings, which is what the provider's parameter names are.
- PHP's loose `==` in the sum, currency and option comparisons. Currency
  codes and option codes are compared exactly.
- Order ids are looked up as exact strings. WooCommerce's numeric-id
  normalisation in `wc_get_order` is not modelled.
- The reasons passed to `update_status`, and the order notes that WooCommerce
  writes itself. Only the notes the gateway adds directly are modelled.
- The notes for `orders_notes_unitpay_request_result` and
  `orders_notes_unitpay_request_validate_error`. Their bodies are commented
  out in the source (includes/class-wc-unitpay-method.php:1889-1892 and
  1918-1921) and have no effect.
- `test_secret_key` is stored but never used, and `receipt_items_limit` is
  declared but never read.
- The cart, session and shipping-zone lookups of `is_available`, and the
  canonical rate-id builders that feed `get_matching_rates`. These depend on
  the WooCommerce runtime. Only the set logic of `get_matching_rates` is
  modelled.
- The options `enabled`, `title`, `description`, `page_skipping`,
  `enable_icon`, `order_button_text` and `available_shipping`. They do not
  reach the protocol.
- Concurrency, and the atomicity of `payment_complete`. These belong to the
  order store.
- The bootstrap files and the singleton in `includes/class-wc-unitpay.php`.
  Its only state that matters, `wc_currency`, is threaded explicitly.
- Signature.VerifySignatureAsWritten: PHP's loose `==` is a parameter.
  The model states only what follows from its reflexivity and from `0`
  and `0e` + digits reading as zero. Which other spellings PHP accepts
  (`00`, `0.0`, `+0`, other numeric coincidences) is not computed.
- Notifications.BadSignatureChangesNothing: what counts as a bad signature is left to
  the comparison parameter. The lemma holds for PHP's `==`, but the model
  does not list which supplied strings that comparison refuses.
- Notifications.BackgroundEffectsNeedSignature: as above, whether a signature passes is
  decided by the comparison parameter, whose PHP instance is not defined
  here.
- Notifications.BackgroundStatusChanges: as above, whether a signature passes is
  decided by the comparison parameter, whose PHP instance is not defined
  here.
- Settings.GetOption: a key that is not stored yields the supplied
  default. WooCommerce's `get_option` would return the settings field's
  declared default; the model assumes every field is stored.
- Settings.InitOptions: assumes every settings field is stored, so a
  field read without an explicit default yields its stored value or "".

## Findings

| source | as written | input that shows it | evidently intended | confidence | as-written member | corrected member |
|---|---|---|---|---|---|---|
| includes/class-wc-unitpay-method.php:1757-1760 | `verify_signature` compares the supplied signature with the digest using PHP's loose `==`, so two numeric-looking strings are compared as numbers | a request whose SHA-256 digest is `0e` followed only by digits, sent with `params[signature]=0`: both sides read as the number 0 and the forged request is accepted | the supplied signature must equal the digest exactly (`===` or `hash_equals`) | not executed | Signature.VerifySignatureAsWritten, used by Notifications.AsWritten (with any loose `==` that has PHP's known facts; shown by Signature.AsWrittenAcceptsZeroSignature, Signature.ZeroSignatureExample and Notifications.ForgedZeroSignaturePays) | Signature.VerifySignature, used by Notifications.Corrected (Signature.VerifyAcceptsOnlyTheDigest, Signature.SignThenVerify, Notifications.ForgedZeroSignatureRefused) |
| includes/class-wc-unitpay-method.php:1994-1998 | `input_payment_notifications` takes the order from the top-level `$_REQUEST['account']`, which the signature does not cover, and never compares it with the signed `params['account']` | a correctly signed `pay` for order A, resent with the top-level `account` set to order B, where B has the same total and currency: B is marked paid | the order comes from the signed `params['account']`, or the two are required to agree | not executed | Notifications.OrderKey under Notifications.AsWritten (shown by Notifications.UnsignedAccountPicksTheOrder) | Notifications.OrderKey under Notifications.Corrected (Notifications.SignedNotificationActsOnItsOwnOrder) |
