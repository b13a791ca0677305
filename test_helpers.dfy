/**
 The mapping of a rate response onto the fixed dictionary of supported
 currencies, and the rate fixture it is exercised with.
 */
module TestHelpers {
  import opened Currencies

  /** The dictionary of supported currencies; every rate starts at 0.0. */
  function CurrencyDictionary(): (dictionary: seq<Currency>)
    ensures |dictionary| == 3
    ensures forall i :: 0 <= i < |dictionary| ==> dictionary[i].exchangeRate == 0.0
    ensures forall i, j :: 0 <= i < j < |dictionary| ==> dictionary[i].isoCode != dictionary[j].isoCode
  {
    [ Currency("USD", "United States", "United States Dollar", "$", 0.0),
      Currency("EUR", "European Union", "Euro", "€", 0.0),
      Currency("GBP", "United Kingdom", "British Pound", "£", 0.0) ]
  }

  /** The first currency of `dictionary` with ISO code `code`, if any (a `find` lookup). */
  function Find(dictionary: seq<Currency>, code: string): (found: Option<Currency>)
    ensures found.Some? ==> found.value in dictionary && found.value.isoCode == code
    ensures found.None? <==> forall c :: c in dictionary ==> c.isoCode != code
  {
    if dictionary == [] then None
    else if dictionary[0].isoCode == code then Some(dictionary[0])
    else Find(dictionary[1..], code)
  }

  /** `Find` returns the first currency with the code, not merely some currency with it. */
  lemma {:induction false} FindIsFirst(dictionary: seq<Currency>, code: string, i: nat)
    requires i < |dictionary| && dictionary[i].isoCode == code
    requires forall j :: 0 <= j < i ==> dictionary[j].isoCode != code
    ensures Find(dictionary, code) == Some(dictionary[i])
  {
    if i > 0 {
      assert dictionary[0].isoCode != code;
      FindIsFirst(dictionary[1..], code, i - 1);
    }
  }

  /**
   What one rate entry becomes: the dictionary currency with that code carrying
   the fetched rate, or nothing when the code is not in the dictionary.
   */
  function Match(entry: RateEntry): (hit: Option<Currency>)
    ensures hit.Some? <==> entry.0 in Codes(CurrencyDictionary())
    ensures hit.Some? ==> hit.value.isoCode == entry.0 && hit.value.exchangeRate == entry.1
    ensures hit.Some? ==> hit.value.(exchangeRate := 0.0) in CurrencyDictionary()
  {
    var dictionary := CurrencyDictionary();
    match Find(dictionary, entry.0)
    case None =>
      assert forall i :: 0 <= i < |dictionary| ==> dictionary[i] in dictionary;
      None
    case Some(c) => Some(c.(exchangeRate := entry.1))
  }

  /** The hits of `rates`, in the rates' iteration order (the `mapNotNull` walk). */
  function MatchAll(rates: seq<RateEntry>): (currencies: seq<Currency>)
    ensures |currencies| <= |rates|
  {
    if rates == [] then []
    else
      match Match(rates[0])
      case None => MatchAll(rates[1..])
      case Some(c) => [c] + MatchAll(rates[1..])
  }

  /** The currency list for a rate response. */
  function LoadCurrenciesFromApi(response: CurrencyRateResponse): (currencies: seq<Currency>)
    ensures |currencies| <= |response.rates|
  {
    MatchAll(response.rates)
  }

  /** Mapping distributes over concatenation: the output follows the rates' order. */
  lemma {:induction false} MatchAllAppend(a: seq<RateEntry>, b: seq<RateEntry>)
    ensures MatchAll(a + b) == MatchAll(a) + MatchAll(b)
  {
    if a == [] {
      assert a + b == b;
    } else {
      assert (a + b)[0] == a[0];
      assert (a + b)[1..] == a[1..] + b;
      MatchAllAppend(a[1..], b);
    }
  }

  /** One step of the walk: the first entry's hit, if any, comes before the rest's output. */
  lemma MatchAllStep(rates: seq<RateEntry>)
    requires rates != []
    ensures MatchAll(rates) == (if Match(rates[0]).Some? then [Match(rates[0]).value] else []) + MatchAll(rates[1..])
  {
  }

  /** Every output currency is the hit of some rate entry; `i` is that entry's index. */
  lemma {:induction false} MatchAllOrigin(rates: seq<RateEntry>, k: nat) returns (i: nat)
    requires k < |MatchAll(rates)|
    ensures i < |rates| && Match(rates[i]) == Some(MatchAll(rates)[k])
  {
    MatchAllStep(rates);
    var rest := MatchAll(rates[1..]);
    var head := Match(rates[0]);
    if head.Some? && k == 0 {
      i := 0;
    } else {
      var k' := if head.Some? then k - 1 else k;
      assert MatchAll(rates)[k] == rest[k'];
      var j := MatchAllOrigin(rates[1..], k');
      assert rates[j + 1] == rates[1..][j];
      i := j + 1;
    }
  }

  /** Every hit of a rate entry is in the output. */
  lemma {:induction false} MatchAllComplete(rates: seq<RateEntry>, i: nat)
    requires i < |rates| && Match(rates[i]).Some?
    ensures Match(rates[i]).value in MatchAll(rates)
  {
    if i > 0 {
      assert rates[i] == rates[1..][i - 1];
      MatchAllComplete(rates[1..], i - 1);
    }
  }

  /**
   Each output currency is a dictionary currency with its country, name and
   symbol unchanged, carrying a rate fetched for its code.
   */
  lemma LoadedCurrencyFields(response: CurrencyRateResponse, k: nat)
    requires k < |LoadCurrenciesFromApi(response)|
    ensures var c := LoadCurrenciesFromApi(response)[k];
      c.(exchangeRate := 0.0) in CurrencyDictionary() &&
      exists i :: 0 <= i < |response.rates| && response.rates[i] == (c.isoCode, c.exchangeRate)
  {
    var i := MatchAllOrigin(response.rates, k);
  }

  /**
   The output codes are exactly the codes present both in the rate map and in
   the dictionary: unknown codes are dropped, known ones are kept.
   */
  lemma LoadedCodes(response: CurrencyRateResponse)
    ensures Codes(LoadCurrenciesFromApi(response)) == Keys(response.rates) * Codes(CurrencyDictionary())
  {
    var rates, out := response.rates, LoadCurrenciesFromApi(response);
    forall code | code in Codes(out)
      ensures code in Keys(rates) * Codes(CurrencyDictionary())
    {
      var k :| 0 <= k < |out| && out[k].isoCode == code;
      var i := MatchAllOrigin(rates, k);
    }
    forall code | code in Keys(rates) * Codes(CurrencyDictionary())
      ensures code in Codes(out)
    {
      var i :| 0 <= i < |rates| && rates[i].0 == code;
      MatchAllComplete(rates, i);
      var c := Match(rates[i]).value;
      var k :| 0 <= k < |out| && out[k] == c;
    }
  }

  /** The rate an output currency carries is the rate the map holds for its code. */
  lemma LoadedRateIsFetched(response: CurrencyRateResponse, k: nat, i: nat)
    requires DistinctKeys(response.rates)
    requires k < |LoadCurrenciesFromApi(response)| && i < |response.rates|
    requires response.rates[i].0 == LoadCurrenciesFromApi(response)[k].isoCode
    ensures LoadCurrenciesFromApi(response)[k].exchangeRate == response.rates[i].1
  {
    var j := MatchAllOrigin(response.rates, k);
    assert response.rates[j].0 == response.rates[i].0;
  }

  /** Distinct map keys give distinct output codes. */
  lemma {:induction false} MatchAllDistinct(rates: seq<RateEntry>)
    requires DistinctKeys(rates)
    ensures forall p, q :: 0 <= p < q < |MatchAll(rates)| ==> MatchAll(rates)[p].isoCode != MatchAll(rates)[q].isoCode
  {
    if rates != [] {
      var rest := MatchAll(rates[1..]);
      MatchAllDistinct(rates[1..]);
      forall k | 0 <= k < |rest|
        ensures rest[k].isoCode != rates[0].0
      {
        var i := MatchAllOrigin(rates[1..], k);
        assert rates[1..][i] == rates[i + 1];
      }
    }
  }

  /** The output never holds two currencies with the same ISO code. */
  lemma LoadedCodesDistinct(response: CurrencyRateResponse)
    requires DistinctKeys(response.rates)
    ensures var out := LoadCurrenciesFromApi(response);
      forall p, q :: 0 <= p < q < |out| ==> out[p].isoCode != out[q].isoCode
  {
    MatchAllDistinct(response.rates);
  }

  /** Only the rates are read: the disclaimer, license, timestamp and base do not matter. */
  lemma LoadDependsOnRatesOnly(r1: CurrencyRateResponse, r2: CurrencyRateResponse)
    requires r1.rates == r2.rates
    ensures LoadCurrenciesFromApi(r1) == LoadCurrenciesFromApi(r2)
  {
  }

  /** The fixture's rates: USD 1.0, EUR 0.85, GBP 0.75, in that order. */
  function RatesData(): (rates: seq<RateEntry>)
    ensures DistinctKeys(rates) && |rates| == 3
    ensures forall i :: 0 <= i < |rates| ==> Match(rates[i]).Some?
  {
    [("USD", 1.0), ("EUR", 0.85), ("GBP", 0.75)]
  }

  /** The fixture response. */
  function Response(): (response: CurrencyRateResponse)
    ensures DistinctKeys(response.rates) && |response.rates| == 3
    ensures response.base == "USD"
  {
    CurrencyRateResponse("Disclaimer test", "License test", 123456789, "USD", RatesData())
  }

  /** On the fixture every code matches, giving USD, EUR, GBP with the fetched rates. */
  lemma FixtureLoad()
    ensures LoadCurrenciesFromApi(Response()) == [
      Currency("USD", "United States", "United States Dollar", "$", 1.0),
      Currency("EUR", "European Union", "Euro", "€", 0.85),
      Currency("GBP", "United Kingdom", "British Pound", "£", 0.75) ]
  {
  }

  /**
   The output follows the rate map's order, not the dictionary's: rates
   GBP, XAU, USD give GBP then USD, and the unknown XAU is dropped.
   */
  lemma OutputFollowsRatesOrder()
    ensures LoadCurrenciesFromApi(CurrencyRateResponse("", "", 0, "USD", [("GBP", 0.75), ("XAU", 0.0005), ("USD", 1.0)])) == [
      Currency("GBP", "United Kingdom", "British Pound", "£", 0.75),
      Currency("USD", "United States", "United States Dollar", "$", 1.0) ]
  {
  }
}
