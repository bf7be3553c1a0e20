# MultiSafepay Einvoice processor — Dafny model

This project models the logic of the X-Cart MultiSafepay **Einvoice** payment
processor (`Einvoice.php`). The rest of the class only builds gateway requests
or delegates to other classes. The modelled logic is:

- **`parseAddress` / `rstrpos`**: split a free-text street line into a street
  name and a house number. The loop walks the spaces from right to left and
  stops at the first space followed by a digit. If that finds no house number,
  or only PHP-`empty` "0", a line that starts with a digit takes the token before
  its first space as the house number instead. `ParseAddress` keeps the source's
  loop and break. It is proved equal to `SplitAddress`, a loop-free statement of
  the same result. The lemmas about `SplitAddress` give the three cases, the
  shape of the house number and three examples.
- **`getLocaleFromLanguageCode`**: the 19-entry language-to-locale table, with
  `null` for every other code.
- **`getSetting`, `getPaymentSettings`, `getEnvironment`**: a setting of the
  processor's own wins. Otherwise the setting comes from the shared method record
  whose service name is "MultiSafepay Connect". The settings array is filled from
  the list of available names. The live API is chosen when `account_type == '1'`
  under PHP's loose comparison.

Modules:

- `PhpRuntime` (`php_runtime.dfy`) holds the PHP string built-ins the code uses:
  `strrev`, `strpos`, `ltrim`/`rtrim`/`trim`, `is_numeric` of one character and
  `empty`.
- `PhpCompare` (`php_compare.dfy`) holds PHP 7's numeric strings and loose `==`.
- `Einvoice` (`einvoice.dfy`) holds the processor's own members.
- `Wrappers` holds `Option`. PHP's `false` and `null` are both written `None`.

The two settings stores are inputs. One is the processor's own settings, which
is what `parent::getSetting` reads. The other is the payment-method repository,
keyed by service name. Strings are sequences of byte-valued characters.

`processReturn` (Einvoice.php:77-82) only passes the transaction to the
`Connect` processor, which is not part of this model, so there is no
transaction state machine here. The leading-number rule also fires when the
trailing number is exactly "0", because `empty("0")` is true
(`SplitLeadingNumber`, `ZeroHouseNumberIsReplaced`).

## Model

| member | source | states |
|---|---|---|
| `Einvoice.Rstrpos` | classes/XLite/Module/MultiSafepay/Einvoice/Model/Payment/Processor/Einvoice.php:518-533 | With a one-character needle, searching the reversed string from `strlen - offset` gives the greatest index below the offset that holds the needle, or `false` when none does. A `null` offset searches the whole string. |
| `Einvoice.ParseAddress` | classes/XLite/Module/MultiSafepay/Einvoice/Model/Payment/Processor/Einvoice.php:484-509 | The right-to-left `rstrpos` loop ends, because each hit lies below the previous offset. The loop together with the leading-number fallback returns exactly `SplitAddress` of the input. |
| `Einvoice.LastDigitSpace` | classes/XLite/Module/MultiSafepay/Einvoice/Model/Payment/Processor/Einvoice.php:489-497 | The position the loop stops at is a space followed by a digit, with no such space after it. The result is `None` exactly when no such space exists before the bound. |
| `Einvoice.SplitAtLastDigitSpace` | classes/XLite/Module/MultiSafepay/Einvoice/Model/Payment/Processor/Einvoice.php:489-497 | At the rightmost space followed by a digit, the street is the trimmed prefix and the house number is the trimmed suffix. The house number starts with a digit. A house number of exactly "0" on a line that starts with a digit is the one exception. |
| `Einvoice.SplitLeadingNumber` | classes/XLite/Module/MultiSafepay/Einvoice/Model/Payment/Processor/Einvoice.php:499-506 | When the first pass found no space followed by a digit, or found the PHP-`empty` house number "0", a line that starts with a digit and holds a space splits at its first space. The house number is the token before it, trimmed of ", \t\n\r\0\x0B", and starts with the line's first digit. The street is the trimmed rest. |
| `Einvoice.SplitWithoutNumber` | classes/XLite/Module/MultiSafepay/Einvoice/Model/Payment/Processor/Einvoice.php:486-508 | When neither rule applies, the result is the input unchanged (not trimmed) with an empty house number. |
| `Einvoice.HouseNumberShape` | classes/XLite/Module/MultiSafepay/Einvoice/Model/Payment/Processor/Einvoice.php:484-509 | For every input, the house number is empty or starts with a digit. It is empty exactly when no space is followed by a digit and the line does not both start with a digit and contain a space. |
| `Einvoice.SplitExampleTrailingNumber` | classes/XLite/Module/MultiSafepay/Einvoice/Model/Payment/Processor/Einvoice.php:491-497 | "Main Street 42" gives ("Main Street", "42"). |
| `Einvoice.SplitExampleLeadingNumber` | classes/XLite/Module/MultiSafepay/Einvoice/Model/Payment/Processor/Einvoice.php:499-506 | "42 Main Street" gives ("Main Street", "42"). |
| `Einvoice.SplitExampleNoNumber` | classes/XLite/Module/MultiSafepay/Einvoice/Model/Payment/Processor/Einvoice.php:486-508 | "Main Street" gives ("Main Street", ""). |
| `Einvoice.ZeroHouseNumberIsReplaced` | classes/XLite/Module/MultiSafepay/Einvoice/Model/Payment/Processor/Einvoice.php:499-506 | `empty("0")` is true, so "1 Street 0" first yields house number "0" and is then split at its leading number, giving ("Street 0", "1"). |
| `Einvoice.LocaleFromLanguageCode` | classes/XLite/Module/MultiSafepay/Einvoice/Model/Payment/Processor/Einvoice.php:300-330 | A locale is returned for exactly the 19 listed codes and `null` for any other. Every locale is `xx_YY` with an upper-case region and repeats the code. The one exception is "cn", which maps to "zh_CN". |
| `Einvoice.GetSetting` | classes/XLite/Module/MultiSafepay/Einvoice/Model/Payment/Processor/Einvoice.php:369-379 | A non-null own setting is returned as is. Otherwise the result is the same-named setting of the "MultiSafepay Connect" method record. It is `null` exactly when both are missing, including when that record does not exist. |
| `Einvoice.EinvoicePaymentSettings` | classes/XLite/Module/MultiSafepay/Einvoice/Model/Payment/Processor/Einvoice.php:135-140 | With Einvoice's available settings `['prefix']`, the settings array has the single key "prefix", holding what `getSetting('prefix')` resolves. |
| `Einvoice.PaymentSettings` | classes/XLite/Module/MultiSafepay/Einvoice/Model/Payment/Processor/Einvoice.php:350-360 | The result has one key per available setting name and no others. Each key holds what `getSetting` resolves for that name. |
| `Einvoice.Environment` | classes/XLite/Module/MultiSafepay/Einvoice/Model/Payment/Processor/Einvoice.php:336-343 | The result is always one of the two API URLs. It is the live URL exactly when the resolved `account_type` is a numeric string whose value is one. In every other case, a missing setting included, it is the test URL. |
| `Einvoice.EnvironmentExamples` | classes/XLite/Module/MultiSafepay/Einvoice/Model/Payment/Processor/Einvoice.php:336-343 | "1" selects live, also when it comes only from the shared record. A missing setting selects test, and so does an own "0" over a shared "1". |
| `PhpCompare.LooseEqualsOne` | classes/XLite/Module/MultiSafepay/Einvoice/Model/Payment/Processor/Einvoice.php:338 | A string is loosely `== '1'` exactly when it is a PHP 7 numeric string whose value is one. |
| `PhpCompare.LooseEqualsNullableOne` | classes/XLite/Module/MultiSafepay/Einvoice/Model/Payment/Processor/Einvoice.php:338 | `null == '1'` is false. For a string, `== '1'` holds exactly when its numeric value is one. |
| `PhpCompare.ZeroPaddedEqualsOne` | classes/XLite/Module/MultiSafepay/Einvoice/Model/Payment/Processor/Einvoice.php:338 | "01" and "1.0" are loosely equal to "1". |
| `PhpCompare.SignedEqualsOne` | classes/XLite/Module/MultiSafepay/Einvoice/Model/Payment/Processor/Einvoice.php:338 | " 1" and "+1" are loosely equal to "1". |
| `PhpCompare.ExponentEqualsOne` | classes/XLite/Module/MultiSafepay/Einvoice/Model/Payment/Processor/Einvoice.php:338 | "1e0" and "10e-1" are loosely equal to "1". |
| `PhpCompare.TrailingTextNotEqualsOne` | classes/XLite/Module/MultiSafepay/Einvoice/Model/Payment/Processor/Einvoice.php:338 | "1 ", "1abc" and "1e" are not numeric strings and are not loosely equal to "1". |
| `PhpCompare.EmptyAndNegativeNotEqualsOne` | classes/XLite/Module/MultiSafepay/Einvoice/Model/Payment/Processor/Einvoice.php:338 | "" and "-1" are not loosely equal to "1". |
| `PhpRuntime.Reverse` | classes/XLite/Module/MultiSafepay/Einvoice/Model/Payment/Processor/Einvoice.php:526 | `strrev` keeps the length and puts character `i` at position `len - 1 - i`. |
| `PhpRuntime.Strpos` | classes/XLite/Module/MultiSafepay/Einvoice/Model/Payment/Processor/Einvoice.php:500 | `strpos` with a one-character needle returns the first position at or after the offset that holds the needle. It returns `false` exactly when there is none. |
| `PhpRuntime.TrimSlice` | classes/XLite/Module/MultiSafepay/Einvoice/Model/Payment/Processor/Einvoice.php:493-504 | `trim` returns the slice between a leading run and a trailing run of listed characters. Neither end of the result is a listed character. |

## Left out

- `startEinvoice` is not modelled. It builds the gateway request from ORM objects, `$_POST` and `$_SERVER`, calls the external API client and ends with `header`/`exit`. The amount is a float rounding times 100.
- `formatDob` is not modelled. Its behaviour is that of `DateTime::createFromFormat`, a library call whose lenient date parsing is not visible here.
- `processReturn`, `getIconPath` and `doRefund` are not modelled. They only delegate to the `Connect` and `Refund` classes, which are not part of this model.
- `isConfigured`, `getInputErrors` and `getFormFields` are not modelled. They depend on parent-class methods, request data and the translation service, none of which are part of this model.
- `isTestMode` (`'0' == getSetting('Test')`), `getInputTemplate` (`getSetting('transaction_type') == '1'`) and `isAllSettingsProvided` (`getSetting('prefix')` read as a boolean) are not modelled. Each is a single setting lookup or comparison outside the modelled core; `GetSetting` and `LooseEqualsNullable` express the parts they are built from.
- The members that only return a constant are not modelled: `getOperationTypes`, `getAllowedTransactions`, `getSettingsWidget`, `getInitialTransactionType`, `getReturnType`, `getAdminIconURL`, `getFormURL`, `getInputDataAccessLevels` and `getCheckoutTemplate`.
- The Fietsenbon and IdealQr processors and the Erotiekbon controller are not modelled. They only override constants on top of the `Connect` processor, or forward a request to it.
- Rstrpos: the needle is a single character, and the offset must be `null` or lie within the string. Only `' '` and in-range offsets are ever passed by `parseAddress`. Longer needles and out-of-range offsets are not modelled, because their behaviour depends on the PHP version (a warning, a `ValueError`, or a negative `strpos` offset).
- Environment: numeric strings are compared by their exact decimal value. PHP compares them as doubles, so a string such as "1.00000000000000001" that rounds to 1.0 selects the live API in PHP but not in this model. Integer strings that overflow a PHP integer, and PHP 8's acceptance of trailing whitespace, are not modelled either.
- PaymentSettings: the result is a map, so the key order of the PHP array is not modelled.
- GetSetting: the repository is a map keyed by service name. Several method records sharing the service name, where `findOneBy` would pick one, are not modelled. Non-string setting values are not modelled either.
