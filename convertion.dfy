/**
  The `Convertion` class: it owns one settings record, updates it field by field
  through a validating setter, and turns numbers, money amounts and dates into
  display strings. Each conversion also has a static twin that builds a throwaway
  instance from the given settings or from the defaults.

  What the class delegates to moment-timezone (checking that a pattern is a strict
  format, formatting a date, moving it into a timezone) and the rounding done by
  `toFixed` are parameters of the operations that need them.
 */
module Convertion {
  import opened Wrappers
  import opened Strings
  import opened NumberGrouping
  import opened ConvertionSettingsInterface
  import opened DefaultConvertionSettings

  /** The errors the class throws, each an `Error` with a fixed message. */
  datatype ConvertionError =
    | SettingsRequired
    | InvalidDateFormat
    | InvalidDateTimeFormat
    | NotADate
    | InvalidDate
    | InvalidNumber
    | DecimalsOutOfRange

  /**
    The message of each error. The first six are the class's own; the last is the
    `RangeError` that `toFixed` raises, worded as the V8 engine words it.
   */
  function Message(e: ConvertionError): (m: string)
    ensures |m| > 0
    ensures !e.DecimalsOutOfRange? <==> m[|m| - 1] == '!'
  {
    match e
    case SettingsRequired => "Settings are required to set the settings!"
    case InvalidDateFormat => "The given date format is invalid!"
    case InvalidDateTimeFormat => "The given date time format is invalid!"
    case NotADate => "The given value is not of type date!"
    case InvalidDate => "The given date is not valid!"
    case InvalidNumber => "The given value is not a valid number!"
    case DecimalsOutOfRange => "toFixed() digits argument must be between 0 and 100"
  }

  /**
    A JavaScript number as the number conversion sees it: `NaN`, or whether it is
    below zero together with the text that `Math.abs(value).toString()` renders.
   */
  datatype JsNumber = NaN | Numeric(negative: bool, magnitude: string)

  /** The `value` argument of the number and money conversions: `null`/`undefined`, or a number. */
  datatype NumberArg = NoNumber | GivenNumber(number: JsNumber)

  /** A JavaScript `Date`: its time value is `NaN` (an invalid date) or a count of milliseconds. */
  datatype JsDate = InvalidTime | TimeValue(millis: int)

  /** The `date` argument of the date conversions: `null`/`undefined`, something that is not a `Date`, or a `Date`. */
  datatype DateArg = NoDate | NotADateObject | GivenDate(date: JsDate)

  /** Formats a time value with a pattern (moment's `format`). */
  type DateFormatter = (int, string) -> string

  /** Formats a time value in a timezone with a pattern (moment's `tz(...).format(...)`). */
  type ZonedDateFormatter = (int, string, string) -> string

  /**
    `+value.toFixed(decimals)` on a number that is not `NaN`, with `decimals` between
    0 and 100: from the sign and rendered text of the value, the sign and rendered
    text of the rounded number. The result is again a number, never `NaN`.
   */
  type Rounding = (bool, string, int) -> (bool, string)

  /** The settings a static wrapper or the constructor uses: the given ones, or the defaults when none are given. */
  function EffectiveSettings(settings: Option<ConvertionSettings>): (s: ConvertionSettings)
    ensures settings.Some? ==> s == settings.value
    ensures settings.None? ==> s == Default() && s.timezone == "UTC" && s.moneySettings.decimals == 2
  {
    if settings.None? then Default() else settings.value
  }

  /** The sign text put back in front of the grouped integer part. */
  function SignText(negative: bool): string
  {
    if negative then "-" else ""
  }

  /**
    The text of an absolute value: its grouped integer digits and, when the
    rendering has a `.`, the decimal separator followed by the digits after the
    first `.` as rendered.
   */
  function UnsignedText(ns: ConvertionNumberSettings, magnitude: string): (r: string)
    ensures '.' !in magnitude ==> r == GroupDigits(magnitude, DigitSymbol(ns.digitSeperationSymbol))
  {
    var devided := Split(magnitude, '.');
    assert '.' !in magnitude ==> devided == [magnitude] by {
      if '.' !in magnitude { SplitAbsent(magnitude, '.'); }
    }
    GroupDigits(devided[0], DigitSymbol(ns.digitSeperationSymbol))
      + (if |devided| > 1 then DecimalSymbol(ns.decimalSeperationSymbol) + devided[1] else "")
  }

  /**
    What `convertNumberToNumberString` returns: the empty string for a missing
    value, an error for `NaN`, and otherwise the sign followed by the text of the
    absolute value.
   */
  function FormatNumber(ns: ConvertionNumberSettings, value: NumberArg): (r: Result<string, ConvertionError>)
    ensures value.NoNumber? ==> r == Ok("")
    ensures r.Err? <==> value.GivenNumber? && value.number.NaN?
    ensures r.Err? ==> r.error == InvalidNumber
  {
    match value
    case NoNumber => Ok("")
    case GivenNumber(NaN) => Err(InvalidNumber)
    case GivenNumber(Numeric(negative, magnitude)) => Ok(SignText(negative) + UnsignedText(ns, magnitude))
  }

  /**
    `+value.toFixed(decimals)`: a `decimals` outside 0 to 100 raises a `RangeError`
    before the value is looked at; otherwise `NaN` stays `NaN` and any other
    number is rounded to a number.
   */
  function ToFixed(v: JsNumber, decimals: int, round: Rounding): (r: Result<JsNumber, ConvertionError>)
    ensures r.Err? <==> !(0 <= decimals <= 100)
    ensures r.Err? ==> r.error == DecimalsOutOfRange
    ensures r.Ok? ==> (r.value.NaN? <==> v.NaN?)
  {
    if !(0 <= decimals <= 100) then Err(DecimalsOutOfRange)
    else if v.NaN? then Ok(NaN)
    else
      var t := round(v.negative, v.magnitude, decimals);
      Ok(Numeric(t.0, t.1))
  }

  /**
    What `convertNumberToMoneyString` returns: the empty string for a missing value,
    the `RangeError` of `toFixed` for a `decimals` outside 0 to 100 (even for `NaN`),
    the error of the number conversion if it throws, and otherwise the number string
    of the rounded value with the symbol on the configured side.
   */
  function FormatMoney(s: ConvertionSettings, value: NumberArg, round: Rounding): (r: Result<string, ConvertionError>)
    ensures value.NoNumber? ==> r == Ok("")
    ensures value.GivenNumber? && !(0 <= s.moneySettings.decimals <= 100) ==> r == Err(DecimalsOutOfRange)
    ensures value.GivenNumber? && 0 <= s.moneySettings.decimals <= 100 && value.number.NaN? ==> r == Err(InvalidNumber)
    ensures r.Err? ==> r.error == InvalidNumber || r.error == DecimalsOutOfRange
    ensures r.Err? <==> value.GivenNumber? && (!(0 <= s.moneySettings.decimals <= 100) || value.number.NaN?)
    ensures r.Ok? && value.GivenNumber? ==> |r.value| >= |s.moneySettings.symbol|
  {
    match value
    case NoNumber => Ok("")
    case GivenNumber(v) =>
      var rounded := ToFixed(v, s.moneySettings.decimals, round);
      if rounded.Err? then Err(rounded.error)
      else
      var n := FormatNumber(s.numberSettings, GivenNumber(rounded.value));
      if n.Err? then n
      else
        match s.moneySettings.symbolLocation
        case Before => Ok(s.moneySettings.symbol + n.value)
        case After => Ok(n.value + s.moneySettings.symbol)
  }

  /** The guards the two date conversions share: `None` when the date is to be formatted. */
  function DateGuard(date: DateArg): (g: Option<Result<string, ConvertionError>>)
    ensures g.None? <==> date.GivenDate? && date.date.TimeValue?
    ensures g.Some? && g.value.Ok? ==> date.NoDate? && g.value.value == ""
  {
    match date
    case NoDate => Some(Ok(""))
    case NotADateObject => Some(Err(NotADate))
    case GivenDate(InvalidTime) => Some(Err(InvalidDate))
    case GivenDate(TimeValue(_)) => None
  }

  /** What `convertDateToDateString` returns. */
  function FormatDate(s: ConvertionSettings, date: DateArg, format: DateFormatter): (r: Result<string, ConvertionError>)
    ensures date.NoDate? ==> r == Ok("")
    ensures date.NotADateObject? ==> r == Err(NotADate)
    ensures date.GivenDate? && date.date.InvalidTime? ==> r == Err(InvalidDate)
    ensures date.GivenDate? && date.date.TimeValue? ==> r == Ok(format(date.date.millis, s.dateFormat))
  {
    var g := DateGuard(date);
    if g.Some? then g.value else Ok(format(date.date.millis, s.dateFormat))
  }

  /**
    What `convertDateToDateTimeString` returns; `useTimezone` is its `timezone` flag,
    which the source defaults to `true` when the caller leaves it out.
   */
  function FormatDateTime(s: ConvertionSettings, date: DateArg, useTimezone: bool,
                          format: DateFormatter, formatInZone: ZonedDateFormatter): (r: Result<string, ConvertionError>)
    ensures date.NoDate? ==> r == Ok("")
    ensures date.NotADateObject? ==> r == Err(NotADate)
    ensures date.GivenDate? && date.date.InvalidTime? ==> r == Err(InvalidDate)
    ensures date.GivenDate? && date.date.TimeValue? ==>
      r == Ok(if useTimezone then formatInZone(date.date.millis, s.timezone, s.dateTimeFormat)
              else format(date.date.millis, s.dateTimeFormat))
  {
    var g := DateGuard(date);
    if g.Some? then g.value
    else if useTimezone then Ok(formatInZone(date.date.millis, s.timezone, s.dateTimeFormat))
    else Ok(format(date.date.millis, s.dateTimeFormat))
  }

  /**
    The argument of the settings setter. Each field may be missing; the setter
    skips a format that is missing or empty (both are falsy), and a missing
    money or number sub-object. `timezone` is accepted and never read.
   */
  datatype SettingsUpdate = SettingsUpdate(
    dateFormat: Option<string>,
    dateTimeFormat: Option<string>,
    timezone: Option<string>,
    moneySettings: Option<ConvertionMoneySettings>,
    numberSettings: Option<ConvertionNumberSettings>)

  /** A format field the setter acts on: present and not the empty string. */
  predicate Truthy(f: Option<string>)
  {
    f.Some? && f.value != ""
  }

  /** A format field the setter lets through: skipped, or accepted as a strict pattern. */
  predicate FormatAccepted(f: Option<string>, isStrictPattern: string -> bool)
  {
    !Truthy(f) || isStrictPattern(f.value)
  }

  /** The settings after a call of the setter, and whether the call returned or threw. */
  datatype Applied = Applied(settings: ConvertionSettings, outcome: Outcome<ConvertionError>)

  /**
    The setter as a function of the old settings: it checks and commits the date
    format, then the date-time format, then replaces the money and number
    sub-objects, stopping at the first check that fails.
   */
  function ApplySettings(s: ConvertionSettings, update: Option<SettingsUpdate>,
                         isStrictPattern: string -> bool): (out: Applied)
    ensures out.settings.timezone == s.timezone
    ensures update.None? ==> out == Applied(s, Fail(SettingsRequired))
    ensures out.outcome.Pass? <==>
      update.Some? && FormatAccepted(update.value.dateFormat, isStrictPattern)
                   && FormatAccepted(update.value.dateTimeFormat, isStrictPattern)
  {
    if update.None? then Applied(s, Fail(SettingsRequired))
    else
      var u := update.value;
      if !FormatAccepted(u.dateFormat, isStrictPattern) then Applied(s, Fail(InvalidDateFormat))
      else
        var s1 := if Truthy(u.dateFormat) then s.(dateFormat := u.dateFormat.value) else s;
        if !FormatAccepted(u.dateTimeFormat, isStrictPattern) then Applied(s1, Fail(InvalidDateTimeFormat))
        else
          var s2 := if Truthy(u.dateTimeFormat) then s1.(dateTimeFormat := u.dateTimeFormat.value) else s1;
          var s3 := if u.moneySettings.Some? then s2.(moneySettings := u.moneySettings.value) else s2;
          var s4 := if u.numberSettings.Some? then s3.(numberSettings := u.numberSettings.value) else s3;
          Applied(s4, Pass)
  }

  class Convertion {
    /** The owned settings record (`_settings`). */
    var settings: ConvertionSettings

    /** With no settings the defaults are used; given settings are stored without any check. */
    constructor(init: Option<ConvertionSettings>)
      ensures settings == EffectiveSettings(init)
    {
      if init.None? {
        settings := Default();
      } else {
        settings := init.value;
      }
    }

    /** The `settings` getter: the stored record. */
    function GetSettings(): (s: ConvertionSettings)
      reads this
      ensures s == settings
    {
      settings
    }

    /**
      The `settings` setter. Fields are checked and committed one after the other, so
      a throw can leave the fields handled before it already changed.
     */
    method SetSettings(update: Option<SettingsUpdate>, isStrictPattern: string -> bool)
      returns (outcome: Outcome<ConvertionError>)
      modifies this
      ensures Applied(settings, outcome) == ApplySettings(old(settings), update, isStrictPattern)
      ensures settings.timezone == old(settings.timezone)
    {
      if update.None? {
        return Fail(SettingsRequired);
      }
      var u := update.value;
      if Truthy(u.dateFormat) {
        if isStrictPattern(u.dateFormat.value) {
          settings := settings.(dateFormat := u.dateFormat.value);
        } else {
          return Fail(InvalidDateFormat);
        }
      }
      if Truthy(u.dateTimeFormat) {
        if isStrictPattern(u.dateTimeFormat.value) {
          settings := settings.(dateTimeFormat := u.dateTimeFormat.value);
        } else {
          return Fail(InvalidDateTimeFormat);
        }
      }
      if u.moneySettings.Some? {
        settings := settings.(moneySettings := u.moneySettings.value);
      }
      if u.numberSettings.Some? {
        settings := settings.(numberSettings := u.numberSettings.value);
      }
      return Pass;
    }

    /** `convertDateToDateString`: the guards, then the date formatted with `dateFormat`. */
    method ConvertDateToDateString(date: DateArg, format: DateFormatter)
      returns (r: Result<string, ConvertionError>)
      ensures r == FormatDate(settings, date, format)
    {
      if date.NoDate? {
        return Ok("");
      }
      if date.NotADateObject? {
        return Err(NotADate);
      }
      if date.date.InvalidTime? {
        return Err(InvalidDate);
      }
      return Ok(format(date.date.millis, settings.dateFormat));
    }

    /**
      `convertDateToDateTimeString`: the guards, then the date formatted with
      `dateTimeFormat`, in `timezone` when asked. The source's flag defaults to
      `true`, so a caller that leaves it out gets `useTimezone == true`.
     */
    method ConvertDateToDateTimeString(date: DateArg, useTimezone: bool,
                                       format: DateFormatter, formatInZone: ZonedDateFormatter)
      returns (r: Result<string, ConvertionError>)
      ensures r == FormatDateTime(settings, date, useTimezone, format, formatInZone)
    {
      if date.NoDate? {
        return Ok("");
      }
      if date.NotADateObject? {
        return Err(NotADate);
      }
      if date.date.InvalidTime? {
        return Err(InvalidDate);
      }
      if useTimezone {
        r := Ok(formatInZone(date.date.millis, settings.timezone, settings.dateTimeFormat));
      } else {
        r := Ok(format(date.date.millis, settings.dateTimeFormat));
      }
    }

    /** `convertNumberToNumberString`, step by step as the source assembles the string. */
    method ConvertNumberToNumberString(value: NumberArg) returns (r: Result<string, ConvertionError>)
      ensures r == FormatNumber(settings.numberSettings, value)
    {
      if value.NoNumber? {
        return Ok("");
      }
      if value.number.NaN? {
        return Err(InvalidNumber);
      }
      var isNegative := false;
      if value.number.negative {
        isNegative := true;
      }
      var devidedNumber := Split(value.number.magnitude, '.');
      var chunks := Chunk(Reverse(devidedNumber[0]), GroupSize);
      var wholeNumber := Reverse(Join(chunks, DigitSymbol(settings.numberSettings.digitSeperationSymbol)));
      if isNegative {
        wholeNumber := "-" + wholeNumber;
      }
      ghost var grouped := GroupDigits(devidedNumber[0], DigitSymbol(settings.numberSettings.digitSeperationSymbol));
      ghost var sign := SignText(value.number.negative);
      assert wholeNumber == sign + grouped;
      if |devidedNumber| > 1 {
        var dec := DecimalSymbol(settings.numberSettings.decimalSeperationSymbol);
        r := Ok(wholeNumber + dec + devidedNumber[1]);
        ConcatRegroup(sign, grouped, dec, devidedNumber[1]);
      } else {
        r := Ok(wholeNumber);
        ConcatRegroup(sign, grouped, "", "");
      }
    }

    /** `convertNumberToMoneyString`: the number string of the rounded value with the symbol before or after it. */
    method ConvertNumberToMoneyString(value: NumberArg, round: Rounding) returns (r: Result<string, ConvertionError>)
      ensures r == FormatMoney(settings, value, round)
    {
      if value.NoNumber? {
        return Ok("");
      }
      var rounded := ToFixed(value.number, settings.moneySettings.decimals, round);
      if rounded.Err? {
        return Err(rounded.error);
      }
      var n := ConvertNumberToNumberString(GivenNumber(rounded.value));
      if n.Err? {
        return n;
      }
      match settings.moneySettings.symbolLocation {
        case Before =>
          r := Ok(settings.moneySettings.symbol + n.value);
        case After =>
          r := Ok(n.value + settings.moneySettings.symbol);
      }
    }

    /** The static `convertDateToDateString(settings, date)`. */
    static method StaticConvertDateToDateString(settings: Option<ConvertionSettings>, date: DateArg,
                                                format: DateFormatter)
      returns (r: Result<string, ConvertionError>)
      ensures r == FormatDate(EffectiveSettings(settings), date, format)
    {
      var s := if settings.None? then Default() else settings.value;
      var c := new Convertion(Some(s));
      r := c.ConvertDateToDateString(date, format);
    }

    /** The static `convertDateToDateTimeString(settings, date, timezone)`; `timezone` defaults to `true` there too. */
    static method StaticConvertDateToDateTimeString(settings: Option<ConvertionSettings>, date: DateArg,
                                                    useTimezone: bool, format: DateFormatter,
                                                    formatInZone: ZonedDateFormatter)
      returns (r: Result<string, ConvertionError>)
      ensures r == FormatDateTime(EffectiveSettings(settings), date, useTimezone, format, formatInZone)
    {
      var s := if settings.None? then Default() else settings.value;
      var c := new Convertion(Some(s));
      r := c.ConvertDateToDateTimeString(date, useTimezone, format, formatInZone);
    }

    /** The static `convertNumberToNumberString(settings, value)`. */
    static method StaticConvertNumberToNumberString(settings: Option<ConvertionSettings>, value: NumberArg)
      returns (r: Result<string, ConvertionError>)
      ensures r == FormatNumber(EffectiveSettings(settings).numberSettings, value)
    {
      var s := if settings.None? then Default() else settings.value;
      var c := new Convertion(Some(s));
      r := c.ConvertNumberToNumberString(value);
    }

    /**
      The static `convertNumberToMoneyString(settings, value)`. It calls the NUMBER
      conversion of its throwaway instance, so it neither rounds nor adds a symbol.
     */
    static method StaticConvertNumberToMoneyString(settings: Option<ConvertionSettings>, value: NumberArg)
      returns (r: Result<string, ConvertionError>)
      ensures r == FormatNumber(EffectiveSettings(settings).numberSettings, value)
    {
      var s := if settings.None? then Default() else settings.value;
      var c := new Convertion(Some(s));
      r := c.ConvertNumberToNumberString(value);
    }
  }
}
