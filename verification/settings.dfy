/** The gateway's stored settings and the values `init_options` derives
    from them. */
module Settings {

  /** The stored settings, keyed by field name. Every field the settings
      form declares is assumed to be present, holding its form default
      when the merchant never saved it. */
  type Options = map<string, string>

  /** WooCommerce's `get_option(key, empty)`: the stored value, or `empty`
      when nothing (or the empty string) is stored. */
  function GetOption(opts: Options, key: string, empty: string): (r: string)
    ensures key in opts && opts[key] != "" ==> r == opts[key]
    ensures key !in opts || opts[key] == "" ==> r == empty
  {
    if key in opts && opts[key] != "" then opts[key] else empty
  }

  /** The provider strings for the six tax systems, in the order of the
      settings form's select codes "0" to "5". */
  const TaxSystems: seq<string> := ["osn", "usn_income", "usn_income_outcome", "envd", "esn", "patent"]

  /** The provider strings for the six VAT rates, in the same order. */
  const VatRates: seq<string> := ["none", "vat0", "vat10", "vat20", "vat110", "vat120"]

  /** The select codes of both settings. */
  const SelectCodes: seq<string> := ["0", "1", "2", "3", "4", "5"]

  /** Tax-system code to provider string: any code other than "1" to "5"
      means the general system. */
  function SnoName(code: string): (r: string)
    ensures r in TaxSystems
    ensures r == "osn" <==> code !in SelectCodes[1..]
  {
    if code == "1" then "usn_income"
    else if code == "2" then "usn_income_outcome"
    else if code == "3" then "envd"
    else if code == "4" then "esn"
    else if code == "5" then "patent"
    else "osn"
  }

  /** VAT code to provider string: any code other than "1" to "5" means no
      VAT. */
  function NdsName(code: string): (r: string)
    ensures r in VatRates
    ensures r == "none" <==> code !in SelectCodes[1..]
  {
    if code == "1" then "vat0"
    else if code == "2" then "vat10"
    else if code == "3" then "vat20"
    else if code == "4" then "vat110"
    else if code == "5" then "vat120"
    else "none"
  }

  /** The select code at `i` names the tax system and the VAT rate at `i`:
      the two mappings follow the select order, and no two codes share a
      provider string. */
  lemma CodesFollowSelectOrder(i: int)
    requires 0 <= i < |SelectCodes|
    ensures SnoName(SelectCodes[i]) == TaxSystems[i]
    ensures NdsName(SelectCodes[i]) == VatRates[i]
  {
  }

  /** The select code whose provider string is `name` in `names`, or the
      empty code when there is none. */
  function CodeOf(names: seq<string>, name: string): (c: string)
    requires |names| == |SelectCodes|
    ensures c == "" || exists i :: 0 <= i < |names| && names[i] == name && SelectCodes[i] == c
  {
    if name == names[0] then "0"
    else if name == names[1] then "1"
    else if name == names[2] then "2"
    else if name == names[3] then "3"
    else if name == names[4] then "4"
    else if name == names[5] then "5"
    else ""
  }

  /** Reading the code back from the provider string inverts both
      mappings on the select codes, so no two codes share a provider
      string. */
  lemma CodesAreRecoverable(i: int)
    requires 0 <= i < |SelectCodes|
    ensures CodeOf(TaxSystems, SnoName(SelectCodes[i])) == SelectCodes[i]
    ensures CodeOf(VatRates, NdsName(SelectCodes[i])) == SelectCodes[i]
  {
    CodesFollowSelectOrder(i);
  }

  /** The gateway's configuration after `init_options`. */
  datatype Gateway = Gateway(
    test: string,
    language: string,
    ofdStatus: bool,
    ofdSno: string,
    ofdNds: string,
    ofdPaymentMethod: string,
    ofdPaymentObject: string,
    publicKey: string,
    secretKey: string,
    testSecretKey: string,
    currencyAll: seq<string>,
    options: Options)

  /** The currencies the gateway offers itself for. */
  const SupportedCurrencies: seq<string> := ["RUB", "USD", "EUR"]

  /** The interface language: with `language_auto` on it follows the site
      locale (English only for `en_EN`), otherwise the stored language. */
  function InterfaceLanguage(opts: Options, locale: string): (r: string)
    ensures GetOption(opts, "language_auto", "no") == "yes" ==> (r == "en" || r == "ru") && (r == "en" <==> locale == "en_EN")
    ensures GetOption(opts, "language_auto", "no") != "yes" ==> r == GetOption(opts, "language", "")
  {
    if GetOption(opts, "language_auto", "no") == "yes" then
      if locale == "en_EN" then "en" else "ru"
    else GetOption(opts, "language", "")
  }

  /** A class default, replaced by the stored value only when one is
      stored. */
  function StoredOr(opts: Options, key: string, fallback: string): (r: string)
    ensures key in opts && opts[key] != "" ==> r == opts[key]
    ensures !(key in opts && opts[key] != "") ==> r == fallback
  {
    if GetOption(opts, key, "") != "" then GetOption(opts, key, "") else fallback
  }

  /** `init_options`, for the fields the payment protocol reads. */
  function InitOptions(opts: Options, locale: string): (gw: Gateway)
    ensures gw.test == GetOption(opts, "test", "yes")
    ensures gw.language == InterfaceLanguage(opts, locale)
    ensures gw.ofdStatus <==> GetOption(opts, "ofd_status", "no") == "yes"
    ensures gw.ofdSno in TaxSystems + ["usn"] && gw.ofdNds in VatRates
    ensures GetOption(opts, "ofd_sno", "") == "" ==> gw.ofdSno == "usn"
    ensures GetOption(opts, "ofd_sno", "") != "" ==> gw.ofdSno == SnoName(opts["ofd_sno"])
    ensures GetOption(opts, "ofd_nds", "") != "" ==> gw.ofdNds == NdsName(opts["ofd_nds"])
    ensures GetOption(opts, "ofd_nds", "") == "" ==> gw.ofdNds == "none"
    ensures gw.secretKey == GetOption(opts, "secret_key", "")
    ensures gw.ofdPaymentMethod == GetOption(opts, "ofd_payment_method", "")
    ensures gw.ofdPaymentObject == GetOption(opts, "ofd_payment_object", "")
    ensures gw.currencyAll == SupportedCurrencies && gw.options == opts
  {
    var snoCode := GetOption(opts, "ofd_sno", "");
    var ndsCode := GetOption(opts, "ofd_nds", "");
    Gateway(
      test := GetOption(opts, "test", "yes"),
      language := InterfaceLanguage(opts, locale),
      ofdStatus := GetOption(opts, "ofd_status", "no") == "yes",
      ofdSno := if snoCode != "" then SnoName(snoCode) else "usn",
      ofdNds := if ndsCode != "" then NdsName(ndsCode) else "none",
      ofdPaymentMethod := StoredOr(opts, "ofd_payment_method", ""),
      ofdPaymentObject := StoredOr(opts, "ofd_payment_object", ""),
      publicKey := StoredOr(opts, "public_key", ""),
      secretKey := StoredOr(opts, "secret_key", ""),
      testSecretKey := StoredOr(opts, "test_secret_key", ""),
      currencyAll := SupportedCurrencies,
      options := opts)
  }
}
