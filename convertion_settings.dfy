/**
  The settings record and its three string-literal union types. Each union type
  becomes a datatype whose constructors are its literals; the functions below give
  back the literal text that the formatter inserts into its output.
 */
module ConvertionSettingsInterface {

  /** `moneySymbolLocationTypes`: `'BEFORE' | 'AFTER'`. */
  datatype SymbolLocation = Before | After

  /** `numberDecimalSeperationSymbolTypes`: `'.' | ','`. */
  datatype DecimalSeparation = DecimalPoint | DecimalComma

  /** `numberDigitSeperationSymbolTypes`: `'NONE' | '.' | ','`. */
  datatype DigitSeparation = NoDigitSeparation | DigitPoint | DigitComma

  /** `ConvertionMoneySettings`; `decimals` is a JavaScript number and is not validated anywhere. */
  datatype ConvertionMoneySettings = ConvertionMoneySettings(
    symbol: string,
    symbolLocation: SymbolLocation,
    decimals: int)

  /** `ConvertionNumberSettings`. */
  datatype ConvertionNumberSettings = ConvertionNumberSettings(
    decimalSeperationSymbol: DecimalSeparation,
    digitSeperationSymbol: DigitSeparation)

  /** `ConvertionSettings`: every one of the five fields is always present. */
  datatype ConvertionSettings = ConvertionSettings(
    dateFormat: string,
    dateTimeFormat: string,
    timezone: string,
    moneySettings: ConvertionMoneySettings,
    numberSettings: ConvertionNumberSettings)

  /** The literal of a decimal separator: always exactly one character, `.` or `,`. */
  function DecimalSymbol(d: DecimalSeparation): (s: string)
    ensures |s| == 1
    ensures s[0] == '.' || s[0] == ','
    ensures d.DecimalPoint? <==> s[0] == '.'
  {
    match d
    case DecimalPoint => "."
    case DecimalComma => ","
  }

  /**
    The literal of a digit separator. `.` and `,` are one character long; `NONE`
    is the four-letter word itself, which is what the formatter inserts.
   */
  function DigitSymbol(d: DigitSeparation): (s: string)
    ensures |s| == 1 <==> !d.NoDigitSeparation?
    ensures |s| == 1 ==> (s[0] == '.' <==> d.DigitPoint?) && (s[0] == ',' <==> d.DigitComma?)
    ensures d.NoDigitSeparation? ==> s == "NONE"
  {
    match d
    case NoDigitSeparation => "NONE"
    case DigitPoint => "."
    case DigitComma => ","
  }
}
