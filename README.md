# Smart Currency Converter — keypad and rate-mapping model

A Dafny model of two pieces of the Smart Currency Converter Android app:

- **Rate mapping** (`test_helpers.dfy`, module `TestHelpers`). `LoadCurrenciesFromApi` takes a rate response and walks its map of ISO code to rate in iteration order. It looks each code up in a fixed three-entry dictionary (USD, EUR, GBP, each with rate 0.0). For every hit it emits the dictionary currency carrying the fetched rate. Unknown codes are dropped. The fixture response (USD 1.0, EUR 0.85, GBP 0.75) is modelled too.
- **Keypad state** (`keypad.dfy`, module `Keypad`; `view_model.dfy`, module `ViewModel`). The main view model holds a raw digit buffer that starts at "0", plus the currency list state: `Loading | Success(list) | Failure`. The screen consumes this state exhaustively.
  - A numeric key replaces a lone "0" and otherwise appends the digit.
  - Backspace drops the last digit.
  - Clear resets the buffer to "0".
  - The displayed text inserts '.' every three digits, counted from the right.
  - Loading a fetched response publishes Success of the injected helper's list.

`currencies.dfy` (module `Currencies`) holds the shared value types. The rate map is a sequence of (code, rate) entries in the map's iteration order. Unique keys are stated by `DistinctKeys` and required only by the lemmas that need them. Rates are `real` because they are only copied, never computed with.

The buffer's invariant is `Canonical`: non-empty, digits only, and no leading zero except "0" itself. `Value` gives the number a buffer spells and `Spell` is its inverse. A digit key multiplies the value by ten and adds the digit, and backspace divides it by ten.

The grouping `Display` has an independent partner, `WellGrouped`. That predicate says a separator stands exactly at every fourth place counted from the end. The lemmas prove that `Display` is the only well-grouped text with the buffer's digits.

`MainViewModel.kt`, the rate repository and the production API helper are not part of this model. `MainViewModelTest.kt` fixes three keypad scenarios: digit 8 then clear shows "0" (lines 93-100); digits 1, 0, 0, 0, 3 show "1.000" and then "10.003" (lines 109-119); digits 1, 2, 3 then backspace show "12" (lines 128-137). It also fixes that loading a fetched response publishes Success of the helper's list (lines 67-86). Everything else is a choice of this model that no file fixes:

- a new view model starts with the buffer "0";
- a new view model starts with the currency state `Loading`;
- the digit '0' pressed on the buffer "0" keeps "0", since it replaces the lone "0" like any other digit;
- a backspace that empties the buffer leaves "0";
- grouping continues every three digits for longer buffers, so seven digits show two separators ("1.234.567", lemma `Keypad.LongerGrouping`), although the tests only show one separator;
- a repository error becomes `Failure`, and `Failure` carries the error's message string; the payload of `CurrencyResult.Failure` and the error shape of `ApiResult` are not defined in any of these files.

## Model

| member | source | states |
|---|---|---|
| `TestHelpers.CurrencyDictionary` | app/src/test/java/com/sergiosabater/smartcurrencyconverter/viewmodel/TestHelpers.kt:50-54 | three dictionary currencies with pairwise distinct ISO codes, every rate 0.0 before mapping |
| `TestHelpers.Find` | app/src/test/java/com/sergiosabater/smartcurrencyconverter/viewmodel/TestHelpers.kt:58 | a found currency is in the dictionary with the requested code; nothing is found iff no dictionary currency has that code |
| `TestHelpers.FindIsFirst` | app/src/test/java/com/sergiosabater/smartcurrencyconverter/viewmodel/TestHelpers.kt:58 | when entry i is the first with the code, the lookup returns exactly entry i |
| `TestHelpers.Match` | app/src/test/java/com/sergiosabater/smartcurrencyconverter/viewmodel/TestHelpers.kt:57-62 | a rate entry yields a currency iff its code is a dictionary code; that currency has the entry's code and rate and otherwise equals the dictionary entry |
| `TestHelpers.MatchAll` | app/src/test/java/com/sergiosabater/smartcurrencyconverter/viewmodel/TestHelpers.kt:57-62 | the mapped list is no longer than the rate map |
| `TestHelpers.LoadCurrenciesFromApi` | app/src/test/java/com/sergiosabater/smartcurrencyconverter/viewmodel/TestHelpers.kt:47-63 | the currency list of a response is no longer than its rate map |
| `TestHelpers.MatchAllAppend` | app/src/test/java/com/sergiosabater/smartcurrencyconverter/viewmodel/TestHelpers.kt:57 | mapping distributes over concatenation of rate entries, so output order is the rates' iteration order |
| `TestHelpers.MatchAllOrigin` | app/src/test/java/com/sergiosabater/smartcurrencyconverter/viewmodel/TestHelpers.kt:57-61 | every output currency is the match of some rate entry, whose index it returns |
| `TestHelpers.MatchAllComplete` | app/src/test/java/com/sergiosabater/smartcurrencyconverter/viewmodel/TestHelpers.kt:57-61 | every rate entry whose code is in the dictionary contributes its currency to the output |
| `TestHelpers.LoadedCurrencyFields` | app/src/test/java/com/sergiosabater/smartcurrencyconverter/viewmodel/TestHelpers.kt:58-61 | each output currency equals a dictionary currency except for its rate, and its (code, rate) pair is an entry of the rate map |
| `TestHelpers.LoadedCodes` | app/src/test/java/com/sergiosabater/smartcurrencyconverter/viewmodel/TestHelpers.kt:57-62 | the output's codes are exactly the rate map's codes that are also dictionary codes |
| `TestHelpers.LoadedRateIsFetched` | app/src/test/java/com/sergiosabater/smartcurrencyconverter/viewmodel/TestHelpers.kt:61 | with unique map keys, an output currency's rate is the rate the map holds for its code |
| `TestHelpers.MatchAllDistinct` | app/src/test/java/com/sergiosabater/smartcurrencyconverter/viewmodel/TestHelpers.kt:57 | with unique map keys, no two mapped currencies share an ISO code |
| `TestHelpers.LoadedCodesDistinct` | app/src/test/java/com/sergiosabater/smartcurrencyconverter/viewmodel/TestHelpers.kt:57-62 | with unique map keys, the currency list has no duplicate ISO codes |
| `TestHelpers.LoadDependsOnRatesOnly` | app/src/test/java/com/sergiosabater/smartcurrencyconverter/viewmodel/TestHelpers.kt:47-57 | two responses with the same rates give equal lists, whatever their disclaimer, license, timestamp and base |
| `TestHelpers.FixtureLoad` | app/src/test/java/com/sergiosabater/smartcurrencyconverter/viewmodel/TestHelpers.kt:10-54 | the fixture {USD 1.0, EUR 0.85, GBP 0.75} maps to USD, EUR, GBP with those rates and the dictionary's country, name and symbol |
| `TestHelpers.OutputFollowsRatesOrder` | app/src/test/java/com/sergiosabater/smartcurrencyconverter/viewmodel/TestHelpers.kt:57-62 | rates GBP, XAU, USD map to GBP then USD: the rate map's order, not the dictionary's, with the unknown code dropped |
| `TestHelpers.RatesData` | app/src/test/java/com/sergiosabater/smartcurrencyconverter/viewmodel/TestHelpers.kt:10-14 | the fixture rate map has three distinct keys, each of them a dictionary code |
| `TestHelpers.Response` | app/src/test/java/com/sergiosabater/smartcurrencyconverter/viewmodel/TestHelpers.kt:16-22 | the fixture response has base USD and three rate entries with distinct keys |
| `Keypad.Spell` | app/src/test/java/com/sergiosabater/smartcurrencyconverter/viewmodel/MainViewModelTest.kt:109-119 | the spelling of a number is a canonical buffer whose value is that number |
| `Keypad.SpellValue` | app/src/test/java/com/sergiosabater/smartcurrencyconverter/viewmodel/MainViewModelTest.kt:109-119 | a canonical buffer is the spelling of its own value, so buffer and amount determine each other |
| `Keypad.AfterDigit` | app/src/test/java/com/sergiosabater/smartcurrencyconverter/viewmodel/MainViewModelTest.kt:109-115 | the digit becomes the last, least-significant character; what precedes it is the old buffer, or nothing when the old buffer was the lone "0" |
| `Keypad.AfterBackspace` | app/src/test/java/com/sergiosabater/smartcurrencyconverter/viewmodel/MainViewModelTest.kt:128-133 | a buffer of two or more digits loses exactly its last digit; a single digit gives "0" |
| `Keypad.DigitShiftsIn` | app/src/test/java/com/sergiosabater/smartcurrencyconverter/viewmodel/MainViewModelTest.kt:109-119 | a digit key keeps the buffer canonical and makes its value ten times the old value plus the digit, including replacing the initial "0" |
| `Keypad.BackspaceShiftsOut` | app/src/test/java/com/sergiosabater/smartcurrencyconverter/viewmodel/MainViewModelTest.kt:128-137 | backspace keeps the buffer canonical and divides its value by ten |
| `Keypad.BackspaceUndoesDigit` | app/src/test/java/com/sergiosabater/smartcurrencyconverter/viewmodel/MainViewModelTest.kt:128-137 | backspace after any digit restores the previous buffer exactly |
| `Keypad.StripDisplay` | app/src/test/java/com/sergiosabater/smartcurrencyconverter/viewmodel/MainViewModelTest.kt:118-119 | removing the '.' separators from the display gives back the buffer |
| `Keypad.DisplayWellGrouped` | app/src/test/java/com/sergiosabater/smartcurrencyconverter/viewmodel/MainViewModelTest.kt:108-119 | the display of a non-empty buffer has a '.' exactly at every fourth place from the right and digits elsewhere |
| `Keypad.WellGroupedIsDisplay` | app/src/test/java/com/sergiosabater/smartcurrencyconverter/viewmodel/MainViewModelTest.kt:108-119 | any well-grouped text is the display of its own digits, so the grouping is unique |
| `Keypad.ShortBufferUngrouped` | app/src/test/java/com/sergiosabater/smartcurrencyconverter/viewmodel/MainViewModelTest.kt:136-137 | buffers of three or fewer digits are displayed unchanged, with no separator |
| `Keypad.Display` | app/src/test/java/com/sergiosabater/smartcurrencyconverter/viewmodel/MainViewModelTest.kt:108-119 | the displayed text of n > 0 digits has n + (n - 1) / 3 characters; DisplayWellGrouped, StripDisplay and WellGroupedIsDisplay characterise it completely |
| `Keypad.GroupingExamples` | app/src/test/java/com/sergiosabater/smartcurrencyconverter/viewmodel/MainViewModelTest.kt:108-119 | buffer 1000 displays as "1.000" and buffer 10003 as "10.003" |
| `ViewModel.MainViewModel.DisplayText` | app/src/test/java/com/sergiosabater/smartcurrencyconverter/viewmodel/MainViewModelTest.kt:118-119 | the displayed text is well grouped and its digits are the buffer |
| `ViewModel.MainViewModel.constructor` | app/src/test/java/com/sergiosabater/smartcurrencyconverter/viewmodel/MainViewModelTest.kt:55-61 | a new view model holds buffer "0", currency state Loading and the injected helper |
| `ViewModel.MainViewModel.OnNumericButtonClicked` | app/src/test/java/com/sergiosabater/smartcurrencyconverter/viewmodel/MainViewModelTest.kt:109-115 | the buffer becomes the digit-key successor of the old one, stays canonical, and its value is ten times the old value plus the digit |
| `ViewModel.MainViewModel.OnBackspaceClicked` | app/src/test/java/com/sergiosabater/smartcurrencyconverter/viewmodel/MainViewModelTest.kt:133 | the buffer loses its last digit ("0" if it empties), stays canonical, and its value is the old value divided by ten |
| `ViewModel.MainViewModel.OnClearButtonClicked` | app/src/test/java/com/sergiosabater/smartcurrencyconverter/viewmodel/MainViewModelTest.kt:93-100 | the buffer becomes "0" whatever it held |
| `ViewModel.MainViewModel.LoadCurrencies` | app/src/test/java/com/sergiosabater/smartcurrencyconverter/viewmodel/MainViewModelTest.kt:67-86 | a fetched response makes the currency state Success of exactly the helper's list; an error makes it Failure; the buffer is unchanged |
| `ViewModel.TestOnClearButtonClicked` | app/src/test/java/com/sergiosabater/smartcurrencyconverter/viewmodel/MainViewModelTest.kt:90-103 | digit 8 then clear displays "0" |
| `ViewModel.TestOnNumericButtonClicked` | app/src/test/java/com/sergiosabater/smartcurrencyconverter/viewmodel/MainViewModelTest.kt:107-122 | digits 1,0,0,0 display "1.000" and a further 3 displays "10.003" |
| `ViewModel.TestOnBackspaceClicked` | app/src/test/java/com/sergiosabater/smartcurrencyconverter/viewmodel/MainViewModelTest.kt:126-140 | digits 1,2,3 display "123" and backspace then displays "12" |
| `ViewModel.TestLoadCurrencies` | app/src/test/java/com/sergiosabater/smartcurrencyconverter/viewmodel/MainViewModelTest.kt:46-53 | with the repository returning the fixture and the helper returning a given list, loading publishes Success of exactly that list |
| `ViewModel.LoadFixtureWithDictionaryHelper` | app/src/test/java/com/sergiosabater/smartcurrencyconverter/viewmodel/TestHelpers.kt:47-63 | with the dictionary helper, loading the fixture publishes Success of USD 1.0, EUR 0.85, GBP 0.75 |

## Left out

- `MainViewModel.kt`, the rate repository and the production API helper are not part of this model; only the behaviour the tests assert is modelled.
- The rate repository's remote fetch, cache fallback and database (`AppDatabase.kt`) are left out. `LoadCurrencies` takes the repository's result as a parameter.
- `ViewModel.MainViewModel.OnNumericButtonClicked`: the key arrives as a single digit character rather than a string. The decimal separator and any maximum input length are not modelled: neither `MainViewModelTest.kt` nor `TestHelpers.kt` defines them.
- Currency conversion, currency selection, the converted display, the settings key and key sounds (`PlaySoundUseCase.kt`) are left out. They are floating-point arithmetic, platform audio or navigation.
- Screen rendering in `MainActivity.kt` is left out. Only its three-way handling of the currency state shapes `CurrencyResult`.
- Coroutines, `StateFlow` delivery and the mocking library are asynchronous test scaffolding. The stubbed helper is a function passed to the constructor, and its second argument is not modelled.
- `generateCurrencyList`, which `MainViewModelTest.kt` imports, is not modelled. `TestLoadCurrencies` takes the expected list as a parameter.
- `TestHelpers.LoadCurrenciesFromApi`: the in-place `apply` update of a dictionary rebuilt on every call is modelled as building a new value. Calling twice with the same response therefore gives equal lists by construction.
- Rates are `real` values that are only copied; `Double` precision is not modelled.
