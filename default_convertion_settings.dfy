/** The factory of the default settings record. */
module DefaultConvertionSettings {
  import opened ConvertionSettingsInterface

  /**
    The euro sign. The source file spells this literal in a mis-decoded form; the
    model treats it as an opaque currency-symbol string.
   */
  const EuroSign: string := "\U{20AC}"

  /**
    `DefaultConvertionSettings.default()`: a fixed record. Its number separators are
    two distinct single characters, so the digit-grouping theorem applies to it.
   */
  function Default(): (s: ConvertionSettings)
    ensures s.dateFormat == "DD/MM/YYYY"
    ensures s.dateTimeFormat == "DD/MM/YYYY HH:mm:ss"
    ensures s.timezone == "UTC"
    ensures s.moneySettings.decimals == 2 && s.moneySettings.decimals >= 0
    ensures s.moneySettings.symbol == EuroSign && s.moneySettings.symbolLocation.Before?
    ensures DecimalSymbol(s.numberSettings.decimalSeperationSymbol) == ","
    ensures DigitSymbol(s.numberSettings.digitSeperationSymbol) == "."
    ensures DecimalSymbol(s.numberSettings.decimalSeperationSymbol)
         != DigitSymbol(s.numberSettings.digitSeperationSymbol)
  {
    ConvertionSettings(
      "DD/MM/YYYY",
      "DD/MM/YYYY HH:mm:ss",
      "UTC",
      ConvertionMoneySettings(EuroSign, Before, 2),
      ConvertionNumberSettings(DecimalComma, DigitPoint))
  }
}
