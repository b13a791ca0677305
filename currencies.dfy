/**
 The value types shared by the rate mapping and the view model: a currency,
 the rate response returned by the exchange-rate API, the repository's result
 and the three-way currency list state the screen renders.
 */
module Currencies {

  datatype Option<+T> = None | Some(value: T)

  /** A supported currency; `exchangeRate` is relative to the response's base currency. */
  datatype Currency = Currency(isoCode: string, country: string, name: string, symbol: string, exchangeRate: real)

  /** One (ISO code, rate) entry of a rate response. */
  type RateEntry = (string, real)

  /**
   A rate response. `rates` is the response's map from ISO code to rate, held as
   its entries in iteration order (the insertion order of the map).
   */
  datatype CurrencyRateResponse = CurrencyRateResponse(
    disclaimer: string, license: string, timestamp: int, base: string, rates: seq<RateEntry>)

  /** Map keys are unique: no ISO code occurs in two entries. */
  predicate DistinctKeys(rates: seq<RateEntry>)
  {
    forall i, j :: 0 <= i < j < |rates| ==> rates[i].0 != rates[j].0
  }

  /** The ISO codes of a rate map. */
  function Keys(rates: seq<RateEntry>): set<string>
  {
    set i | 0 <= i < |rates| :: rates[i].0
  }

  /** The ISO codes of a currency list. */
  function Codes(currencies: seq<Currency>): set<string>
  {
    set i | 0 <= i < |currencies| :: currencies[i].isoCode
  }

  /** What the repository hands back: the fetched response, or an error. */
  datatype ApiResult<T> = Success(data: T) | Error(message: string)

  /** The state of the currency list: still loading, loaded, or failed. */
  datatype CurrencyResult = Loading | Success(data: seq<Currency>) | Failure(error: string)
}
