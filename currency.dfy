/**
 * The closed set of currencies accounts may be opened in (util/currency.go).
 */
module Currency {

  const USD: string := "USD"
  const CAD: string := "CAD"
  const GBP: string := "GBP"
  const EUR: string := "EUR"
  const AUD: string := "AUD"

  /** `supportedCurrencies`, in declaration order. */
  const SupportedCurrencies: seq<string> := [USD, CAD, GBP, EUR, AUD]

  /**
   * The `range` scan with early return: walks `list` from the front and
   * answers true at the first element equal to `currency`.
   */
  function ScanFor(list: seq<string>, currency: string): (found: bool)
    ensures found <==> currency in list
    ensures found <==> exists i :: 0 <= i < |list| && list[i] == currency
  {
    if list == [] then false
    else if list[0] == currency then true
    else ScanFor(list[1..], currency)
  }

  /** `IsSupportedCurrency`: exact, case-sensitive membership in the list. */
  function IsSupportedCurrency(currency: string): (supported: bool)
    ensures supported <==> currency in SupportedCurrencies
  {
    ScanFor(SupportedCurrencies, currency)
  }

  /** Membership is exactly one of the five codes. */
  lemma SupportedAreTheFiveCodes(currency: string)
    ensures IsSupportedCurrency(currency) <==>
      currency == "USD" || currency == "CAD" || currency == "GBP" || currency == "EUR" || currency == "AUD"
  {
  }

  /** Matching is case-sensitive and the empty string is not a currency. */
  lemma MatchingIsExact()
    ensures !IsSupportedCurrency("usd") && !IsSupportedCurrency("Usd") && !IsSupportedCurrency("")
    ensures !IsSupportedCurrency("USD ") && !IsSupportedCurrency("US")
  {
  }

  /** The list holds exactly five pairwise distinct codes, each three upper-case letters. */
  lemma FiveDistinctCodes()
    ensures |SupportedCurrencies| == 5
    ensures forall i, j :: 0 <= i < j < |SupportedCurrencies| ==> SupportedCurrencies[i] != SupportedCurrencies[j]
    ensures forall i :: 0 <= i < |SupportedCurrencies| ==>
      |SupportedCurrencies[i]| == 3 && forall k :: 0 <= k < 3 ==> 'A' <= SupportedCurrencies[i][k] <= 'Z'
  {
  }

  /**
   * `RandomCurrency` picks `supportedCurrencies[n]` for some `n` in
   * `[0, len(supportedCurrencies))`: every such pick is supported.
   */
  lemma EveryIndexIsSupported(n: int)
    requires 0 <= n < |SupportedCurrencies|
    ensures IsSupportedCurrency(SupportedCurrencies[n])
  {
  }
}
