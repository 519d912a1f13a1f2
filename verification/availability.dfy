/** The pure parts of the availability check: whether the gateway takes a
    currency (`is_support_currency`) and which of the merchant's chosen
    shipping methods a cart's shipping rates activate (`get_matching_rates`). */
module Availability {
  import opened PhpStrings
  import opened Settings
  import opened PaymentForm

  /** `is_support_currency(currency)`: the empty currency stands for the
      shop's current one. */
  function IsSupportCurrency(gw: Gateway, wcCurrency: string, currency: string): (r: bool)
    ensures currency != "" ==> (r <==> currency in gw.currencyAll)
    ensures currency == "" ==> (r <==> wcCurrency in gw.currencyAll)
  {
    var c := if currency == "" then wcCurrency else currency;
    c in gw.currencyAll
  }

  /** A currency the configured gateway takes is always sent to the
      provider under its own name, never re-labelled as roubles; the one
      currency the form names but the gateway does not take is KZT. */
  lemma OfferedCurrenciesAreSentByName(opts: Options, locale: string, wcCurrency: string, c: string)
    requires IsSupportCurrency(InitOptions(opts, locale), wcCurrency, c)
    ensures var sent := if c == "" then wcCurrency else c;
            ProviderCurrency(sent) == sent && sent != "KZT"
  {
  }

  /** The currency the shop charges in is taken by the configured gateway
      exactly when it is RUB, USD or EUR. */
  lemma SupportedExactly(opts: Options, locale: string, wcCurrency: string)
    ensures IsSupportCurrency(InitOptions(opts, locale), wcCurrency, "") <==>
            wcCurrency == "RUB" || wcCurrency == "USD" || wcCurrency == "EUR"
  {
  }

  /** `array_intersect(a, b)` on values: the entries of `a` found in `b`,
      in the order of `a`. */
  function Intersect(a: seq<string>, b: seq<string>): (r: seq<string>)
    ensures forall x :: x in r <==> x in a && x in b
    ensures |r| <= |a|
    ensures NoDuplicates(a) ==> NoDuplicates(r)
  {
    if a == [] then []
    else
      var rest := Intersect(a[1..], b);
      assert forall x :: x in a <==> x == a[0] || x in a[1..];
      assert NoDuplicates(a) ==> a[0] !in a[1..];
      if a[0] in b then [a[0]] + rest else rest
  }

  /** `array_intersect` keeps the order of its first array: an entry
      added at the end of it comes out at the end, when `b` holds it. */
  lemma {:induction false} IntersectAppend(a: seq<string>, x: string, b: seq<string>)
    ensures Intersect(a + [x], b) == Intersect(a, b) + (if x in b then [x] else [])
    decreases |a|
  {
    if a == [] {
      assert [] + [x] == [x];
      assert [x][1..] == [];
    } else {
      assert (a + [x])[0] == a[0];
      assert (a + [x])[1..] == a[1..] + [x];
      IntersectAppend(a[1..], x, b);
    }
  }

  /** `array_map('wc_get_string_before_colon', ids)`: the method id of
      each rate id. */
  function MethodIds(ids: seq<string>): (r: seq<string>)
    ensures |r| == |ids|
    ensures forall i :: 0 <= i < |ids| ==> r[i] == BeforeColon(ids[i])
  {
    if ids == [] then [] else [BeforeColon(ids[0])] + MethodIds(ids[1..])
  }

  /** `get_matching_rates`: the merchant's chosen shipping entries that a
      rate id names either in full (`method:instance`) or by its method
      id alone, each once. */
  function MatchingRates(available: seq<string>, rateIds: seq<string>): (r: seq<string>)
    ensures forall x :: x in r <==> x in available && (x in rateIds || x in MethodIds(rateIds))
    ensures NoDuplicates(r)
  {
    Unique(Intersect(available, rateIds) + Intersect(available, Unique(MethodIds(rateIds))))
  }

  /** A chosen method id is activated by any rate of that method, whatever
      its instance. */
  lemma MethodIdMatchesEveryInstance(available: seq<string>, rateIds: seq<string>, m: string, instance: string)
    requires m in available && m + ":" + instance in rateIds
    requires ':' !in m && (|m| > 0 ==> !IsTrimSpace(m[0]) && !IsTrimSpace(m[|m| - 1]))
    ensures m in MatchingRates(available, rateIds)
  {
    BeforeColonOfRateId(m, instance);
    var i :| 0 <= i < |rateIds| && rateIds[i] == m + ":" + instance;
    assert MethodIds(rateIds)[i] == m;
  }

  /** No rate activates an entry the merchant did not choose, and an empty
      choice activates nothing. */
  lemma NothingUnchosenMatches(available: seq<string>, rateIds: seq<string>)
    ensures forall x :: x in MatchingRates(available, rateIds) ==> x in available
    ensures available == [] ==> MatchingRates(available, rateIds) == []
  {
  }
}
