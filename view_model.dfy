/**
 The main view model: it owns the keypad buffer and the currency list state,
 changes them on each key and on each load, and derives the displayed text.
 The tests that drive it are stated as methods that build a fresh view model.
 */
module ViewModel {
  import opened Currencies
  import opened Keypad
  import TestHelpers

  class MainViewModel {
    /** The raw digits typed so far, ungrouped. */
    var buffer: string
    /** The currency list state the screen renders. */
    var currencies: CurrencyResult
    /** The injected helper that turns a rate response into the currency list. */
    const apiHelper: CurrencyRateResponse -> seq<Currency>

    ghost predicate Valid()
      reads this
    {
      Canonical(buffer)
    }

    /** The displayed amount: the buffer's digits, grouped. */
    function DisplayText(): (text: string)
      reads this
      requires Valid()
      ensures WellGrouped(text) && Strip(text) == buffer
    {
      DisplayWellGrouped(buffer);
      StripDisplay(buffer);
      Display(buffer)
    }

    constructor (apiHelper: CurrencyRateResponse -> seq<Currency>)
      ensures Valid()
      ensures buffer == "0" && currencies == Loading && this.apiHelper == apiHelper
    {
      buffer := "0";
      currencies := Loading;
      this.apiHelper := apiHelper;
    }

    /** A numeric key: the digit enters at the least-significant end. */
    method OnNumericButtonClicked(digit: char)
      requires Valid() && IsDigit(digit)
      modifies this`buffer
      ensures Valid()
      ensures buffer == AfterDigit(old(buffer), digit)
      ensures Value(buffer) == 10 * old(Value(buffer)) + DigitValue(digit)
    {
      DigitShiftsIn(buffer, digit);
      buffer := AfterDigit(buffer, digit);
    }

    /** The backspace key: the least-significant digit goes. */
    method OnBackspaceClicked()
      requires Valid()
      modifies this`buffer
      ensures Valid()
      ensures buffer == AfterBackspace(old(buffer))
      ensures Value(buffer) == old(Value(buffer)) / 10
    {
      BackspaceShiftsOut(buffer);
      buffer := AfterBackspace(buffer);
    }

    /** The clear key: the buffer returns to "0", whatever it held. */
    method OnClearButtonClicked()
      requires Valid()
      modifies this`buffer
      ensures Valid()
      ensures buffer == "0" && Value(buffer) == 0
    {
      buffer := "0";
    }

    /**
     Publishes the outcome of a rate fetch: a fetched response becomes Success
     of the helper's list, an error becomes Failure. The buffer is untouched.
     */
    method LoadCurrencies(fetched: ApiResult<CurrencyRateResponse>)
      requires Valid()
      modifies this`currencies
      ensures Valid()
      ensures fetched.Success? ==> currencies == CurrencyResult.Success(apiHelper(fetched.data))
      ensures fetched.Error? ==> currencies == Failure(fetched.message)
    {
      match fetched
      case Success(response) =>
        currencies := CurrencyResult.Success(apiHelper(response));
      case Error(message) =>
        currencies := Failure(message);
    }
  }

  /** Digit 8 then clear shows "0". */
  method TestOnClearButtonClicked() returns (shown: string)
    ensures shown == "0"
  {
    var vm := new MainViewModel(TestHelpers.LoadCurrenciesFromApi);
    vm.OnNumericButtonClicked('8');
    assert vm.buffer == "8";
    vm.OnClearButtonClicked();
    shown := vm.DisplayText();
  }

  /** Digits 1, 0, 0, 0 show "1.000"; a further 3 shows "10.003". */
  method TestOnNumericButtonClicked() returns (before: string, shown: string)
    ensures before == "1.000" && shown == "10.003"
  {
    var vm := new MainViewModel(TestHelpers.LoadCurrenciesFromApi);
    vm.OnNumericButtonClicked('1');
    assert vm.buffer == "1";
    vm.OnNumericButtonClicked('0');
    assert vm.buffer == "10";
    vm.OnNumericButtonClicked('0');
    assert vm.buffer == "100";
    vm.OnNumericButtonClicked('0');
    assert vm.buffer == "1000";
    before := vm.DisplayText();
    vm.OnNumericButtonClicked('3');
    assert vm.buffer == "10003";
    shown := vm.DisplayText();
    GroupingExamples();
  }

  /** Digits 1, 2, 3 show "123"; backspace then shows "12". */
  method TestOnBackspaceClicked() returns (before: string, shown: string)
    ensures before == "123" && shown == "12"
  {
    var vm := new MainViewModel(TestHelpers.LoadCurrenciesFromApi);
    vm.OnNumericButtonClicked('1');
    assert vm.buffer == "1";
    vm.OnNumericButtonClicked('2');
    assert vm.buffer == "12";
    vm.OnNumericButtonClicked('3');
    assert vm.buffer == "123";
    before := vm.DisplayText();
    vm.OnBackspaceClicked();
    assert vm.buffer == "12";
    shown := vm.DisplayText();
  }

  /**
   With the repository returning the fixture response and the helper stubbed
   to return `expected`, loading publishes Success of exactly `expected`.
   */
  method TestLoadCurrencies(expected: seq<Currency>) returns (published: CurrencyResult)
    ensures published == CurrencyResult.Success(expected)
  {
    var vm := new MainViewModel(response => expected);
    vm.LoadCurrencies(ApiResult.Success(TestHelpers.Response()));
    published := vm.currencies;
  }

  /**
   With the dictionary helper itself, loading the fixture publishes USD, EUR,
   GBP with their rates. This combines the mapping and the view model; the
   tests themselves stub the helper instead (see TestLoadCurrencies).
   */
  method LoadFixtureWithDictionaryHelper() returns (published: CurrencyResult)
    ensures published == CurrencyResult.Success([
      Currency("USD", "United States", "United States Dollar", "$", 1.0),
      Currency("EUR", "European Union", "Euro", "€", 0.85),
      Currency("GBP", "United Kingdom", "British Pound", "£", 0.75) ])
  {
    var vm := new MainViewModel(TestHelpers.LoadCurrenciesFromApi);
    vm.LoadCurrencies(ApiResult.Success(TestHelpers.Response()));
    TestHelpers.FixtureLoad();
    published := vm.currencies;
  }
}
