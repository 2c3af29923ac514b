/** Properties of the conversions and of the settings setter. */
module ConvertionLemmas {
  import opened Wrappers
  import opened Strings
  import opened NumberGrouping
  import opened ConvertionSettingsInterface
  import opened DefaultConvertionSettings
  import opened Convertion

  // ---------------------------------------------------------------------------
  // Number conversion

  /**
    A rendered value with one `.`: the grouped integer digits, the decimal
    separator, then the digits after the point exactly as rendered.
   */
  lemma FractionAppendedVerbatim(ns: ConvertionNumberSettings, negative: bool, i: string, f: string)
    requires '.' !in i && '.' !in f
    ensures FormatNumber(ns, GivenNumber(Numeric(negative, i + "." + f)))
         == Ok(SignText(negative) + GroupDigits(i, DigitSymbol(ns.digitSeperationSymbol))
               + DecimalSymbol(ns.decimalSeperationSymbol) + f)
  {
    var m := i + "." + f;
    var g := GroupDigits(i, DigitSymbol(ns.digitSeperationSymbol));
    var dec := DecimalSymbol(ns.decimalSeperationSymbol);
    calc {
      FormatNumber(ns, GivenNumber(Numeric(negative, m)));
      Ok(SignText(negative) + UnsignedText(ns, m));
      { SplitOnce(i, f, '.'); }
      Ok(SignText(negative) + (g + (dec + f)));
      { ConcatRegroup(SignText(negative), g, dec, f); }
      Ok(SignText(negative) + g + dec + f);
    }
  }

  /** A rendered value without `.`: only the sign and the grouped integer digits, no decimal separator. */
  lemma IntegerHasNoDecimalPart(ns: ConvertionNumberSettings, negative: bool, i: string)
    requires '.' !in i
    ensures FormatNumber(ns, GivenNumber(Numeric(negative, i)))
         == Ok(SignText(negative) + GroupDigits(i, DigitSymbol(ns.digitSeperationSymbol)))
  {
    SplitAbsent(i, '.');
    ConcatRegroup(SignText(negative), GroupDigits(i, DigitSymbol(ns.digitSeperationSymbol)), "", "");
  }

  /** A negative value gives `-` followed by the text of the non-negative value with the same rendering. */
  lemma NegativeIsMinusAbsolute(ns: ConvertionNumberSettings, magnitude: string)
    ensures FormatNumber(ns, GivenNumber(Numeric(true, magnitude))).Ok?
    ensures FormatNumber(ns, GivenNumber(Numeric(false, magnitude))).Ok?
    ensures FormatNumber(ns, GivenNumber(Numeric(true, magnitude))).value
         == "-" + FormatNumber(ns, GivenNumber(Numeric(false, magnitude))).value
  {
    assert SignText(false) + UnsignedText(ns, magnitude) == UnsignedText(ns, magnitude);
  }

  /** A non-negative value whose rendering does not start with `-` gives text that does not start with `-`. */
  lemma NonNegativeHasNoMinus(ns: ConvertionNumberSettings, magnitude: string)
    requires magnitude == [] || magnitude[0] != '-'
    ensures var r := FormatNumber(ns, GivenNumber(Numeric(false, magnitude)));
            r.Ok? && (r.value == [] || r.value[0] != '-')
  {
    var parts := Split(magnitude, '.');
    var sep := DigitSymbol(ns.digitSeperationSymbol);
    var g := GroupDigits(parts[0], sep);
    var t := FormatNumber(ns, GivenNumber(Numeric(false, magnitude))).value;
    assert |t| >= |g| && t[..|g|] == g;
    GroupDigitsFromRight(parts[0], sep);
    if parts[0] != [] {
      GroupFromRightFirst(parts[0], Reverse(sep));
      SplitFirstIsPrefix(magnitude, '.');
      assert t[0] == g[0] == parts[0][0] == magnitude[0];
    } else {
      assert g == [];
      assert |parts| > 1 ==> t[0] == DecimalSymbol(ns.decimalSeperationSymbol)[0];
    }
  }

  /**
    With `.` or `,` as digit separator and an integer part that does not contain
    it, the integer part of the output is the digits with the separator after
    every third digit from the right: deleting the separators gives the digits back,
    and none stands first or last.
   */
  lemma SeparatorEveryThreeDigits(ns: ConvertionNumberSettings, negative: bool, i: string)
    requires !ns.digitSeperationSymbol.NoDigitSeparation?
    requires '.' !in i && DigitSymbol(ns.digitSeperationSymbol)[0] !in i
    ensures var c := DigitSymbol(ns.digitSeperationSymbol)[0];
            var r := FormatNumber(ns, GivenNumber(Numeric(negative, i))).value;
            var g := r[|SignText(negative)|..];
            r == SignText(negative) + g
            && Strip(g, c) == i
            && (forall k :: 0 <= k < |g| ==> (g[k] == c <==> (|g| - k) % 4 == 0))
            && (|i| > 0 ==> |g| == |i| + (|i| - 1) / 3)
  {
    var c := DigitSymbol(ns.digitSeperationSymbol)[0];
    assert DigitSymbol(ns.digitSeperationSymbol) == [c];
    IntegerHasNoDecimalPart(ns, negative, i);
    GroupDigitsShape(i, c);
  }

  /**
    The same grouping for a rendering with a fraction: the integer part before the
    decimal separator is grouped as in `SeparatorEveryThreeDigits`, and the decimal
    separator and the digits after the point follow it unchanged.
   */
  lemma SeparatorEveryThreeDigitsWithFraction(ns: ConvertionNumberSettings, negative: bool, i: string, f: string)
    requires !ns.digitSeperationSymbol.NoDigitSeparation?
    requires '.' !in i && '.' !in f && DigitSymbol(ns.digitSeperationSymbol)[0] !in i
    ensures FormatNumber(ns, GivenNumber(Numeric(negative, i + "." + f)))
         == Ok(SignText(negative) + GroupDigits(i, DigitSymbol(ns.digitSeperationSymbol))
               + DecimalSymbol(ns.decimalSeperationSymbol) + f)
    ensures var c := DigitSymbol(ns.digitSeperationSymbol)[0];
            var g := GroupDigits(i, DigitSymbol(ns.digitSeperationSymbol));
            Strip(g, c) == i
            && (forall k :: 0 <= k < |g| ==> (g[k] == c <==> (|g| - k) % 4 == 0))
            && (|i| > 0 ==> |g| == |i| + (|i| - 1) / 3)
  {
    FractionAppendedVerbatim(ns, negative, i, f);
    var sym := DigitSymbol(ns.digitSeperationSymbol);
    assert sym == [sym[0]];
    GroupDigitsShape(i, sym[0]);
  }

  /**
    With `NONE` as digit separator the word is inserted between groups of three,
    reversed, because the separator is joined in before the final reversal.
   */
  lemma NoneSeparatorInsertedReversed(ns: ConvertionNumberSettings, negative: bool, i: string)
    requires ns.digitSeperationSymbol.NoDigitSeparation? && '.' !in i
    ensures FormatNumber(ns, GivenNumber(Numeric(negative, i)))
         == Ok(SignText(negative) + GroupFromRight(i, "ENON"))
  {
    var sep := DigitSymbol(ns.digitSeperationSymbol);
    IntegerHasNoDecimalPart(ns, negative, i);
    GroupDigitsFromRight(i, sep);
    NoneReversed();
  }

  /** The separator text `NONE` read backwards. */
  lemma NoneReversed()
    ensures Reverse("NONE") == "ENON"
  {
    assert Reverse("NONE") == Reverse("ONE") + "N";
  }

  // ---------------------------------------------------------------------------
  // Money conversion

  /**
    The symbol location only decides the side of the symbol: with `BEFORE` the
    text is the symbol and then some numeric text, with `AFTER` it is that same
    numeric text and then the symbol, and both throw on the same inputs.
   */
  lemma MoneyLocationOnlyMovesSymbol(s: ConvertionSettings, value: NumberArg, round: Rounding)
    requires value.GivenNumber?
    ensures var sym := s.moneySettings.symbol;
            var before := FormatMoney(s.(moneySettings := s.moneySettings.(symbolLocation := Before)), value, round);
            var after := FormatMoney(s.(moneySettings := s.moneySettings.(symbolLocation := After)), value, round);
            (before.Ok? <==> after.Ok?)
            && (before.Err? ==> before == after)
            && (before.Ok? ==>
                  before.value[..|sym|] == sym
                  && after.value[|after.value| - |sym|..] == sym
                  && before.value[|sym|..] == after.value[..|after.value| - |sym|])
  {
    var sym := s.moneySettings.symbol;
    var rounded := ToFixed(value.number, s.moneySettings.decimals, round);
    var n := FormatNumber(s.numberSettings, GivenNumber(if rounded.Ok? then rounded.value else NaN));
    if rounded.Ok? && n.Ok? {
      assert (sym + n.value)[..|sym|] == sym && (sym + n.value)[|sym|..] == n.value;
      assert (n.value + sym)[|n.value|..] == sym && (n.value + sym)[..|n.value|] == n.value;
    }
  }

  /**
    A number that is not `NaN` with `decimals` between 0 and 100 always gives a
    money text: the number text of the rounded value with the symbol attached on
    the configured side.
   */
  lemma MoneyIsRoundedNumberWithSymbol(s: ConvertionSettings, v: JsNumber, round: Rounding)
    requires 0 <= s.moneySettings.decimals <= 100 && v.Numeric?
    ensures FormatMoney(s, GivenNumber(v), round).Ok?
    ensures var m := FormatMoney(s, GivenNumber(v), round).value;
            var rounded := ToFixed(v, s.moneySettings.decimals, round);
            var n := FormatNumber(s.numberSettings, GivenNumber(rounded.value));
            var sym := s.moneySettings.symbol;
            rounded.Ok? && rounded.value.Numeric?
            && n.Ok?
            && (s.moneySettings.symbolLocation.Before? ==> m == sym + n.value)
            && (s.moneySettings.symbolLocation.After? ==> m == n.value + sym)
  {
  }

  /**
    A `decimals` outside 0 to 100 makes the instance money conversion throw the
    `RangeError` of `toFixed` for every number, while the static money wrapper,
    which calls the number conversion, never rounds and so returns a text.
   */
  lemma StaticMoneyIgnoresDecimals(s: ConvertionSettings, negative: bool, magnitude: string, round: Rounding)
    requires !(0 <= s.moneySettings.decimals <= 100)
    ensures FormatMoney(s, GivenNumber(Numeric(negative, magnitude)), round) == Err(DecimalsOutOfRange)
    ensures FormatMoney(s, GivenNumber(NaN), round) == Err(DecimalsOutOfRange)
    ensures FormatNumber(EffectiveSettings(Some(s)).numberSettings, GivenNumber(Numeric(negative, magnitude))).Ok?
  {
  }

  // ---------------------------------------------------------------------------
  // Worked values with the default settings

  /** The grouping of `1234567` with the separator text `mark`. */
  lemma GroupMillions(mark: string)
    ensures GroupFromRight("1234567", mark) == "1" + mark + "234" + mark + "567"
  {
    var d := "1234567";
    assert d[..4] == "1234" && d[4..] == "567";
    assert "1234"[..1] == "1" && "1234"[1..] == "234";
    assert GroupFromRight("1", mark) == "1";
    assert GroupFromRight("1234", mark) == "1" + mark + "234";
  }

  /** The grouping of `1234` with the separator text `mark`. */
  lemma GroupThousands(mark: string)
    ensures GroupFromRight("1234", mark) == "1" + mark + "234"
  {
    assert "1234"[..1] == "1" && "1234"[1..] == "234";
    assert GroupFromRight("1", mark) == "1";
  }

  /** With the default settings an integer rendering is grouped with `.`. */
  lemma DefaultIntegerSeparator(negative: bool, i: string)
    requires '.' !in i
    ensures FormatNumber(Default().numberSettings, GivenNumber(Numeric(negative, i)))
         == Ok(SignText(negative) + GroupFromRight(i, "."))
  {
    IntegerHasNoDecimalPart(Default().numberSettings, negative, i);
    GroupDigitsFromRight(i, ".");
    assert Reverse(".") == ".";
  }

  /** With the default settings the integer part is grouped with `.` and the fraction follows a `,`. */
  lemma DefaultFractionSeparator(negative: bool, i: string, f: string)
    requires '.' !in i && '.' !in f
    ensures FormatNumber(Default().numberSettings, GivenNumber(Numeric(negative, i + "." + f)))
         == Ok(SignText(negative) + GroupFromRight(i, ".") + "," + f)
  {
    FractionAppendedVerbatim(Default().numberSettings, negative, i, f);
    GroupDigitsFromRight(i, ".");
    assert Reverse(".") == ".";
  }

  /** `1234567` is shown as `1.234.567`. */
  lemma DefaultGroupsMillions()
    ensures FormatNumber(Default().numberSettings, GivenNumber(Numeric(false, "1234567"))) == Ok("1.234.567")
  {
    var d := "1234567";
    GroupMillions(".");
    assert GroupFromRight(d, ".") == "1.234.567";
    assert '.' !in d;
    DefaultIntegerSeparator(false, d);
    assert SignText(false) + "1.234.567" == "1.234.567";
  }

  /** `1234.56` is shown as `1.234,56`: the fraction is appended after `,` as rendered. */
  lemma DefaultFractionExample()
    ensures FormatNumber(Default().numberSettings, GivenNumber(Numeric(false, "1234.56"))) == Ok("1.234,56")
  {
    var i, f := "1234", "56";
    GroupThousands(".");
    assert GroupFromRight(i, ".") == "1.234";
    assert '.' !in i && '.' !in f;
    assert i + "." + f == "1234.56";
    DefaultFractionSeparator(false, i, f);
    assert SignText(false) + "1.234" + "," + f == "1.234,56";
  }

  /** `-1234` is shown as `-1.234`: the sign is put back after grouping. */
  lemma DefaultNegativeExample()
    ensures FormatNumber(Default().numberSettings, GivenNumber(Numeric(true, "1234"))) == Ok("-1.234")
  {
    var i := "1234";
    GroupThousands(".");
    assert GroupFromRight(i, ".") == "1.234";
    assert '.' !in i;
    DefaultIntegerSeparator(true, i);
    assert SignText(true) + "1.234" == "-1.234";
  }

  /** With `NONE`, `1234567` comes out as `1ENON234ENON567`, not as `1234567`. */
  lemma NoneSeparatorExample(ns: ConvertionNumberSettings)
    requires ns.digitSeperationSymbol.NoDigitSeparation?
    ensures FormatNumber(ns, GivenNumber(Numeric(false, "1234567"))) == Ok("1ENON234ENON567")
  {
    var d := "1234567";
    assert GroupFromRight(d, "ENON") == "1ENON234ENON567" by { GroupMillions("ENON"); }
    assert '.' !in d;
    NoneSeparatorInsertedReversed(ns, false, d);
    assert SignText(false) + "1ENON234ENON567" == "1ENON234ENON567";
  }

  /**
    With the default settings and a rounding that renders 5 as `5`, the instance
    money conversion gives the euro sign and `5`, while the static money wrapper,
    which calls the number conversion, gives only `5`.
   */
  lemma DefaultMoneyOfFive(round: Rounding)
    requires round(false, "5", 2) == (false, "5")
    ensures FormatMoney(Default(), GivenNumber(Numeric(false, "5")), round) == Ok(EuroSign + "5")
    ensures FormatNumber(EffectiveSettings(None).numberSettings, GivenNumber(Numeric(false, "5"))) == Ok("5")
  {
    var d := "5";
    assert GroupFromRight(d, ".") == "5";
    assert '.' !in d;
    DefaultIntegerSeparator(false, d);
    assert SignText(false) + "5" == "5";
    assert EffectiveSettings(None) == Default();
  }

  // ---------------------------------------------------------------------------
  // Date conversions

  /**
    The date and date-time conversions apply the same guards: the empty string for
    a missing date and the same error for a non-date or an invalid date.
   */
  lemma DateGuardsAgree(s: ConvertionSettings, date: DateArg, useTimezone: bool,
                        format: DateFormatter, formatInZone: ZonedDateFormatter)
    ensures var d := FormatDate(s, date, format);
            var dt := FormatDateTime(s, date, useTimezone, format, formatInZone);
            (d.Err? <==> dt.Err?) && (d.Err? ==> d == dt)
            && (date.NoDate? ==> d == Ok("") && dt == Ok(""))
            && (d.Ok? <==> date.NoDate? || (date.GivenDate? && date.date.TimeValue?))
  {
  }

  /** Without timezone conversion the date-time text does not depend on the configured timezone. */
  lemma DateTimeWithoutZoneIgnoresTimezone(s: ConvertionSettings, zone: string, date: DateArg,
                                           format: DateFormatter, formatInZone: ZonedDateFormatter)
    ensures FormatDateTime(s, date, false, format, formatInZone)
         == FormatDateTime(s.(timezone := zone), date, false, format, formatInZone)
  {
  }

  // ---------------------------------------------------------------------------
  // Settings setter

  /** A date format that is given but not a strict pattern throws and changes nothing. */
  lemma InvalidDateFormatChangesNothing(s: ConvertionSettings, u: SettingsUpdate, isStrictPattern: string -> bool)
    requires Truthy(u.dateFormat) && !isStrictPattern(u.dateFormat.value)
    ensures ApplySettings(s, Some(u), isStrictPattern) == Applied(s, Fail(InvalidDateFormat))
  {
  }

  /**
    A date-time format that is given but not a strict pattern throws after the date
    format was committed; the money and number settings are not touched.
   */
  lemma InvalidDateTimeFormatKeepsDateFormat(s: ConvertionSettings, u: SettingsUpdate,
                                             isStrictPattern: string -> bool)
    requires FormatAccepted(u.dateFormat, isStrictPattern)
    requires Truthy(u.dateTimeFormat) && !isStrictPattern(u.dateTimeFormat.value)
    ensures var out := ApplySettings(s, Some(u), isStrictPattern);
            out.outcome == Fail(InvalidDateTimeFormat)
            && out.settings.dateFormat == (if Truthy(u.dateFormat) then u.dateFormat.value else s.dateFormat)
            && out.settings.dateTimeFormat == s.dateTimeFormat
            && out.settings.moneySettings == s.moneySettings
            && out.settings.numberSettings == s.numberSettings
  {
  }

  /**
    A call that returns sets each given field to its new value, replaces the money
    and number sub-objects wholesale when given, and keeps every field that is not
    given, including the timezone.
   */
  lemma SuccessfulUpdateFields(s: ConvertionSettings, u: SettingsUpdate, isStrictPattern: string -> bool)
    requires ApplySettings(s, Some(u), isStrictPattern).outcome.Pass?
    ensures var t := ApplySettings(s, Some(u), isStrictPattern).settings;
            t.dateFormat == (if Truthy(u.dateFormat) then u.dateFormat.value else s.dateFormat)
            && t.dateTimeFormat == (if Truthy(u.dateTimeFormat) then u.dateTimeFormat.value else s.dateTimeFormat)
            && t.timezone == s.timezone
            && t.moneySettings == (if u.moneySettings.Some? then u.moneySettings.value else s.moneySettings)
            && t.numberSettings == (if u.numberSettings.Some? then u.numberSettings.value else s.numberSettings)
  {
  }

  /** Applying an update that succeeded a second time changes nothing more. */
  lemma UpdateIdempotent(s: ConvertionSettings, u: SettingsUpdate, isStrictPattern: string -> bool)
    requires ApplySettings(s, Some(u), isStrictPattern).outcome.Pass?
    ensures var once := ApplySettings(s, Some(u), isStrictPattern);
            ApplySettings(once.settings, Some(u), isStrictPattern) == once
  {
  }
}
