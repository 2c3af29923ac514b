# Convertion, modelled in Dafny

Convertion is a small TypeScript library. Its `Convertion` class turns dates,
numbers and money amounts into display strings. It works from a settings record
that holds:

- a date format and a date-time format;
- a timezone;
- money settings: the symbol, which side of the number it goes on, and the
  number of decimals;
- number settings: the decimal separator and the digit-group separator.

The class owns one such record. Callers read it through a getter and update it
field by field through a setter, which checks the two date formats. Each
conversion also has a static twin that builds a throwaway instance from the
given settings, or from `DefaultConvertionSettings.default()` when none are
given.

The project has these modules:

- `ConvertionSettingsInterface` holds the settings record and its three
  string-literal union types. Each union type is a datatype, with functions that
  give back the literal text that ends up in the output.
- `DefaultConvertionSettings` is the default record.
- `NumberGrouping` is the digit-grouping pipeline of the number conversion. It
  contains the inner `chunk` loop as a method proved against a specification
  function. It also proves that the pipeline equals an independent
  "groups of three from the right" definition, and the consequences of that:
  - deleting the separators gives the digits back;
  - each separator stands after every third digit counted from the right;
  - the length of the result.
- `Convertion` holds specification functions for every conversion and for the
  setter. It also holds the `Convertion` class, whose field is updated in place
  by the setter. Each method is proved equal to its specification function.
- `ConvertionLemmas` holds the properties:
  - where the sign, the grouped digits and the fraction go;
  - what the `NONE` separator does;
  - that the symbol location only moves the symbol;
  - worked values with the default settings;
  - the shared date guards;
  - the setter's behaviour on failure and on success, including idempotence.
- `Strings` contains the JavaScript string and array operations the code uses
  (`split`, `join`, `reverse`), plus a `Strip` function used to state the
  grouping property.
- `Wrappers` contains `Option`, `Result` and `Outcome` (an outcome is either
  returned, or thrown with an error).

Each `throw` in the source becomes an `Err` result or a `Fail` outcome. Its
error is one of six `ConvertionError` values, and `Message` gives the source's
message text for each. A seventh value, `DecimalsOutOfRange`, stands for the
`RangeError` that `toFixed` raises for a `decimals` outside 0 to 100.

Three things come from moment-timezone or from floating point, so they are
parameters of the operations that need them:

- checking that a pattern is a strict date format;
- formatting a time value, with or without a timezone;
- the rounding done by `toFixed`.

A JavaScript number is `NaN` or a sign together with the text that
`Math.abs(value).toString()` renders. The model works on that text, so it covers
every rendering, including exponent forms.

### Behaviour of the code that the model keeps as written

- **The `NONE` digit separator.** The union type at
  `src/interfaces/convertion-settings.interface.ts:22` offers `'NONE'` beside `'.'`
  and `','`, which evidently means "no separator". But line 92 of
  `src/classes/convertion.class.ts` joins the reversed chunks with the literal
  text `NONE` and then reverses everything. So the word is inserted between the
  groups and comes out reversed: `1234567` prints as `1ENON234ENON567`. This is
  proved in `NoneSeparatorInsertedReversed` and `NoneSeparatorExample`.
- **Decimals in money strings.** Lines 126 and 128 format `+value.toFixed(decimals)`.
  The unary `+` turns the fixed-point text back into a number, and the number
  conversion then renders that number, so trailing zeros are not printed. The
  model takes the rounding as a parameter. `DefaultMoneyOfFive` shows the
  consequence for a rounding that gives back `5` for 5: with the default
  settings the instance method prints `€5`.
- **Out-of-range decimals.** `toFixed` throws a `RangeError` when `decimals` is
  outside 0 to 100, before it looks at the value, so the money conversion throws
  even for `NaN`. The model returns the `DecimalsOutOfRange` error there.
- **The static money wrapper.** Line 185 calls the number conversion, so the
  wrapper neither rounds nor adds the symbol, and it never raises the
  `RangeError`. The model keeps that: its contract is the number conversion's.
  `DefaultMoneyOfFive` and `StaticMoneyIgnoresDecimals` show the instance method
  and the static wrapper giving different results for the same input.

## Model

| member | source | states |
|---|---|---|
| ConvertionSettingsInterface.DecimalSymbol | src/interfaces/convertion-settings.interface.ts:21 | the decimal separator is one character: `.` exactly for the `'.'` literal, `,` otherwise |
| ConvertionSettingsInterface.DigitSymbol | src/interfaces/convertion-settings.interface.ts:22 | the `'.'` and `','` separators are one character and match their literal; `'NONE'` is the four-letter text `NONE` |
| DefaultConvertionSettings.Default | src/classes/default-convertion-settings.class.ts:6-21 | the default record: `DD/MM/YYYY`, `DD/MM/YYYY HH:mm:ss`, `UTC`, two decimals, euro symbol before the number, `,` as decimal separator and `.` as digit separator (two distinct characters) |
| Strings.Split | src/classes/convertion.class.ts:91 | `split('.')` gives at least one part, no part contains the delimiter, and joining the parts with it gives the input back |
| Strings.Join | src/classes/convertion.class.ts:92 | `join(sep)` puts `sep` between consecutive parts; what it does in the pipeline is stated by `Strings.Split` (a split joins back), `NumberGrouping.ChunksJoin` and `NumberGrouping.GroupDigitsFromRight` |
| Strings.Reverse | src/classes/convertion.class.ts:92-94 | the reversal has the same length, and position `i` holds the character at `len-1-i` |
| NumberGrouping.Chunks | src/classes/convertion.class.ts:103-113 | what `chunk` returns: no pieces exactly for the empty string, and never more pieces than characters |
| NumberGrouping.ChunksJoin | src/classes/convertion.class.ts:103-113 | the pieces of `chunk` concatenate back to the input, and there are no pieces exactly when the input is empty |
| NumberGrouping.ChunksSizes | src/classes/convertion.class.ts:103-113 | every piece of `chunk` but the last is `n` long, and the last holds 1 to `n` characters |
| NumberGrouping.Chunk | src/classes/convertion.class.ts:103-113 | the `for` loop pushing `substr(i, n)` returns exactly the pieces specified by `Chunks` |
| NumberGrouping.GroupDigits | src/classes/convertion.class.ts:92-94 | the reverse, chunk, join and reverse pipeline as written; its meaning is stated by `GroupDigitsFromRight` and `GroupDigitsShape` |
| NumberGrouping.GroupDigitsFromRight | src/classes/convertion.class.ts:92-94 | reverse, chunk by three, join with `sep`, reverse back equals grouping by three from the right with the separator text reversed |
| NumberGrouping.GroupFromRightStrip | src/classes/convertion.class.ts:92-94 | with a one-character separator absent from the digits, deleting the separators from the grouped text gives the digits back |
| NumberGrouping.GroupFromRightLength | src/classes/convertion.class.ts:92-94 | the grouped text has one separator for each full group of three after the first digit |
| NumberGrouping.GroupFromRightPositions | src/classes/convertion.class.ts:92-94 | a position holds the one-character separator exactly when its distance from the end is a multiple of four |
| NumberGrouping.GroupDigitsShape | src/classes/convertion.class.ts:92-94 | the source's own pipeline with a one-character separator: digits recovered by stripping, separators every three digits from the right, length |
| NumberGrouping.GroupFromRightFirst | src/classes/convertion.class.ts:92-94 | the grouped text starts with the first digit, never with a separator |
| Convertion.Message | src/classes/convertion.class.ts:8-81 | each of the class's six errors carries its own message, all ending in `!`; the `RangeError` of `toFixed` carries the engine's message |
| Convertion.EffectiveSettings | src/classes/convertion.class.ts:36-41 | given settings are used as they are, unvalidated; missing settings mean the defaults (`UTC`, two decimals, and so on) |
| Convertion.UnsignedText | src/classes/convertion.class.ts:91-101 | the text of an absolute value; a rendering without `.` is its grouped digits alone |
| Convertion.FormatNumber | src/classes/convertion.class.ts:79-101 | `null`/`undefined` gives `""`; the conversion throws exactly for `NaN`, and then with the invalid-number error |
| Convertion.ToFixed | src/classes/convertion.class.ts:126 | `toFixed` throws exactly when `decimals` is outside 0 to 100, whatever the value; in range, the result is `NaN` exactly when the value is: a number is rounded to a number, never to `NaN` |
| Convertion.FormatMoney | src/classes/convertion.class.ts:121-130 | `null`/`undefined` gives `""`; a `decimals` outside 0 to 100 throws the `RangeError` of `toFixed` for any number, `NaN` included; otherwise `NaN` throws the invalid-number error; it throws exactly in these two cases, so any other number with `decimals` in range gives a text; a result holds at least the symbol's characters |
| Convertion.DateGuard | src/classes/convertion.class.ts:50-53 | a date is formatted exactly when it is a `Date` with a valid time; a missing date is the only guard that returns, and it returns `""` |
| Convertion.FormatDate | src/classes/convertion.class.ts:50-56 | `""` for a missing date, the not-a-date and invalid-date errors, otherwise the date formatted with `dateFormat` |
| Convertion.FormatDateTime | src/classes/convertion.class.ts:65-71 | the same guards, otherwise the date formatted with `dateTimeFormat`, in the settings' timezone exactly when the flag (default `true`) is set |
| Convertion.ApplySettings | src/classes/convertion.class.ts:7-28 | a missing argument throws and changes nothing; the setter returns exactly when each given, non-empty format is a strict pattern; the timezone never changes |
| Convertion.Convertion.constructor | src/classes/convertion.class.ts:36-42 | the stored settings are the given ones, or the defaults when none are given |
| Convertion.Convertion.GetSettings | src/classes/convertion.class.ts:29-31 | the getter returns the stored settings |
| Convertion.Convertion.SetSettings | src/classes/convertion.class.ts:7-28 | the new settings and the thrown-or-returned outcome are those of `ApplySettings` on the old settings, including the partial commit before a throw; the timezone is kept |
| Convertion.Convertion.ConvertDateToDateString | src/classes/convertion.class.ts:50-56 | the result is the shared guard's result or the date formatted with `dateFormat` |
| Convertion.Convertion.ConvertDateToDateTimeString | src/classes/convertion.class.ts:65-71 | the result is the shared guard's result, or the date formatted with `dateTimeFormat` (in the settings' timezone when asked) |
| Convertion.Convertion.ConvertNumberToNumberString | src/classes/convertion.class.ts:79-114 | the step-by-step assembly (sign flag, split, `chunk` loop, join, reverse, sign, decimal part) equals `FormatNumber` on the current number settings |
| Convertion.Convertion.ConvertNumberToMoneyString | src/classes/convertion.class.ts:121-130 | the result equals `FormatMoney` on the current settings: the number text of the rounded value with the symbol on the configured side |
| Convertion.Convertion.StaticConvertDateToDateString | src/classes/convertion.class.ts:139-144 | the instance date conversion on the given settings, or on the defaults when none are given |
| Convertion.Convertion.StaticConvertDateToDateTimeString | src/classes/convertion.class.ts:154-159 | the instance date-time conversion on the given settings, or on the defaults |
| Convertion.Convertion.StaticConvertNumberToNumberString | src/classes/convertion.class.ts:168-173 | the instance number conversion on the given settings, or on the defaults |
| Convertion.Convertion.StaticConvertNumberToMoneyString | src/classes/convertion.class.ts:181-186 | the NUMBER conversion on the given settings or on the defaults: no rounding and no symbol |
| ConvertionLemmas.FractionAppendedVerbatim | src/classes/convertion.class.ts:91-98 | a rendering `i.f` gives the sign, the grouped `i`, the decimal separator, then `f` exactly as rendered |
| ConvertionLemmas.IntegerHasNoDecimalPart | src/classes/convertion.class.ts:91-100 | a rendering without `.` gives only the sign and the grouped digits, with no decimal separator |
| ConvertionLemmas.NegativeIsMinusAbsolute | src/classes/convertion.class.ts:85-96 | both signs give a text, and the text of a negative value is `-` followed by the text of the non-negative value with the same rendering |
| ConvertionLemmas.NonNegativeHasNoMinus | src/classes/convertion.class.ts:85-96 | a non-negative value whose rendering does not start with `-` never produces a leading `-` |
| ConvertionLemmas.SeparatorEveryThreeDigits | src/classes/convertion.class.ts:91-100 | with `.` or `,` as the digit separator: after the sign, stripping separators gives the digits back, separators stand every three digits from the right, and the length is as expected |
| ConvertionLemmas.SeparatorEveryThreeDigitsWithFraction | src/classes/convertion.class.ts:91-101 | for a rendering `i.f` with `.` or `,` as the digit separator: the text is the sign, the grouped `i`, the decimal separator and `f`; stripping separators from the grouped `i` gives `i` back, separators stand every three digits from the right, and its length is as expected |
| ConvertionLemmas.NoneSeparatorInsertedReversed | src/classes/convertion.class.ts:92-94 | with `NONE` the text `ENON` is inserted between groups of three from the right |
| ConvertionLemmas.NoneSeparatorExample | src/classes/convertion.class.ts:92-94 | with `NONE`, `1234567` gives `1ENON234ENON567` |
| ConvertionLemmas.MoneyLocationOnlyMovesSymbol | src/classes/convertion.class.ts:124-129 | `BEFORE` and `AFTER` fail on the same inputs with the same error, and otherwise give the symbol on opposite sides of the same number text |
| ConvertionLemmas.MoneyIsRoundedNumberWithSymbol | src/classes/convertion.class.ts:126-128 | a number that is not `NaN`, with `decimals` within 0 to 100, always gives a money text: the number conversion of `+value.toFixed(decimals)` (again a number) with the symbol before or after it |
| ConvertionLemmas.DefaultIntegerSeparator | src/classes/convertion.class.ts:91-100 | with the default settings an integer rendering is grouped by three from the right with `.` |
| ConvertionLemmas.DefaultFractionSeparator | src/classes/convertion.class.ts:91-98 | with the default settings the integer part is grouped with `.` and the fraction follows a `,` |
| ConvertionLemmas.DefaultGroupsMillions | src/classes/convertion.class.ts:79-101 | with the default settings `1234567` gives `1.234.567` |
| ConvertionLemmas.DefaultFractionExample | src/classes/convertion.class.ts:79-101 | with the default settings `1234.56` gives `1.234,56` |
| ConvertionLemmas.DefaultNegativeExample | src/classes/convertion.class.ts:79-101 | with the default settings `-1234` gives `-1.234` |
| ConvertionLemmas.DefaultMoneyOfFive | src/classes/convertion.class.ts:121-130 | for a rounding that gives back `5` for 5 at two decimals (the hypothesis), the default settings make the instance money conversion give `€5`, while the static wrapper gives `5` |
| ConvertionLemmas.StaticMoneyIgnoresDecimals | src/classes/convertion.class.ts:181-186 | with `decimals` outside 0 to 100 the instance money conversion throws the `RangeError` for every number, `NaN` included, while the static money wrapper still returns a text for every number |
| ConvertionLemmas.DateGuardsAgree | src/classes/convertion.class.ts:65-68 | the date and date-time conversions throw on the same inputs with the same error, and both give `""` for a missing date |
| ConvertionLemmas.DateTimeWithoutZoneIgnoresTimezone | src/classes/convertion.class.ts:70 | without the timezone flag the date-time text does not depend on the configured timezone |
| ConvertionLemmas.InvalidDateFormatChangesNothing | src/classes/convertion.class.ts:10-15 | a given date format that is not a strict pattern throws the date-format error and leaves every field as it was |
| ConvertionLemmas.InvalidDateTimeFormatKeepsDateFormat | src/classes/convertion.class.ts:18-23 | a bad date-time format throws after the date format was committed; the date-time, money and number settings are untouched |
| ConvertionLemmas.SuccessfulUpdateFields | src/classes/convertion.class.ts:10-27 | after a call that returns, each given field has its new value, the money and number sub-objects are replaced whole, and every other field is kept |
| ConvertionLemmas.UpdateIdempotent | src/classes/convertion.class.ts:7-28 | applying an update that succeeded a second time changes nothing more |

## Left out

- Floating point is not modelled. The text `Math.abs(value).toString()` produces, and the value of
  `+value.toFixed(decimals)`, are inputs: the first is the `magnitude` of a number, the second the sign and text
  that the `Rounding` parameter gives for a number, which is again a number. Nothing is proved about exponent forms, negative zero or rounding direction.
- Which values JavaScript turns into `NaN` via `+value` (strings, objects) is not modelled. A value is
  `NaN` or not.
- moment-timezone is not part of this model. The strict-pattern check, `format` and `tz(...).format(...)`
  are parameters, and the date formats are never parsed. `new Date()` in the setter only feeds that check.
- A date is missing, not a `Date`, or a `Date` with an invalid or valid time value. Other falsy values
  such as `0` or `""` are folded into "missing".
- The setter's JavaScript truthiness is modelled as follows: a format counts as given when it is
  present and non-empty, and a sub-object counts as given when it is present. Partial sub-objects are
  not modelled, because each sub-object is replaced whole.
- Aliasing is not modelled. The constructor stores the caller's object and the getter hands it out, so
  in the source the setter's in-place writes are visible through every reference to that object. The
  model stores the record by value.
- `DefaultConvertionSettings` has a private static `settings` field. It is never read, so it is not
  modelled. Each call of `default()` returns a fresh object; the model returns a value.
- The default money symbol is spelled in a mis-decoded form in the source file. The model uses the euro
  sign itself as `EuroSign`. Nothing in the model depends on the symbol's characters.
- `decimals` is a whole number in the model. JavaScript truncates a fractional `decimals` before the
  0 to 100 range check of `toFixed`, and that truncation is not modelled.
- The `RangeError` message of `toFixed` depends on the JavaScript engine. `Message` gives V8's wording.
- Convertion.FormatMoney: the contract bounds the result's length by the symbol rather than restating
  it. `MoneyIsRoundedNumberWithSymbol` and `MoneyLocationOnlyMovesSymbol` state the full shape.
