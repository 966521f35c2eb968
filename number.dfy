/**
 * `formatNumber` (packages/intl-core/src/number.ts): memoised
 * `Intl.NumberFormat` on the shared number cache, and the three option
 * shapes its type allows.
 */
module NumberFormatting {

  import opened Wrappers
  import opened Json
  import opened Intl
  import opened FormatCache

  datatype NumberStyle = DecimalStyle | PercentStyle | UnitStyle

  /** Every property of the object is one of `allowed`. */
  predicate OnlyNames(o: seq<Field>, allowed: set<string>) {
    forall i :: 0 <= i < |o| ==> o[i].name in allowed
  }

  /** `minimumFractionDigits` and `maximumFractionDigits`, where present, are numbers. */
  predicate NumericDigits(o: seq<Field>) {
    forall i :: 0 <= i < |o| && (o[i].name == "minimumFractionDigits" || o[i].name == "maximumFractionDigits")
                ==> o[i].value.JNum?
  }

  const DigitNames: set<string> := {"minimumFractionDigits", "maximumFractionDigits"}

  /** `DecimalOptions`: `style` absent or 'decimal'. */
  predicate IsDecimalOptions(o: Options) {
    && OnlyNames(o, {"style"} + DigitNames)
    && (Get(o, "style") == None || Get(o, "style") == Some(JStr("decimal")))
    && NumericDigits(o)
  }

  /** `PercentOptions`: `style` is 'percent'. */
  predicate IsPercentOptions(o: Options) {
    && OnlyNames(o, {"style"} + DigitNames)
    && Get(o, "style") == Some(JStr("percent"))
    && NumericDigits(o)
  }

  /** `UnitOptions`: `style` is 'unit' and a `unit` is mandatory. */
  predicate IsUnitOptions(o: Options) {
    && OnlyNames(o, {"style", "unit", "unitDisplay"} + DigitNames)
    && Get(o, "style") == Some(JStr("unit"))
    && Get(o, "unit").Some? && Get(o, "unit").value.JStr?
    && (Get(o, "unitDisplay").Some? ==> Get(o, "unitDisplay").value in {JStr("short"), JStr("long"), JStr("narrow")})
    && NumericDigits(o)
  }

  /** The union type `NumberFormatOptions`. */
  predicate IsNumberFormatOptions(o: Options) {
    IsDecimalOptions(o) || IsPercentOptions(o) || IsUnitOptions(o)
  }

  /** The shape of a `NumberFormatOptions` value; the three shapes exclude one another. */
  function StyleOf(o: Options): (s: NumberStyle)
    requires IsNumberFormatOptions(o)
    ensures s == DecimalStyle <==> IsDecimalOptions(o)
    ensures s == PercentStyle <==> IsPercentOptions(o)
    ensures s == UnitStyle <==> IsUnitOptions(o)
  {
    if Get(o, "style") == Some(JStr("percent")) then PercentStyle
    else if Get(o, "style") == Some(JStr("unit")) then UnitStyle
    else DecimalStyle
  }

  /** No number option shape has the currency style, which `formatCurrency` always writes. */
  lemma NotCurrencyStyle(o: Options)
    requires IsNumberFormatOptions(o)
    ensures Get(o, "style") != Some(JStr("currency"))
  {
  }

  /**
   * The get-or-create step both `formatNumber` and `formatCurrency` perform on
   * `numberFormatCache`: `get(key)`, and on a miss `new Intl.NumberFormat`
   * followed by `set(key, formatter)`.
   */
  method CachedNumberFormat(caches: FormatCaches, locale: Locale, opts: Options)
    returns (formatter: NumberFormat)
    requires caches.Valid()
    modifies caches`numberFormats
    ensures caches.Valid()
    ensures var key := MakeCacheKey(locale, opts);
      && key in caches.numberFormats && formatter == caches.numberFormats[key]
      && (key in old(caches.numberFormats) ==> caches.numberFormats == old(caches.numberFormats))
      && (key !in old(caches.numberFormats) ==>
            && fresh(formatter) && formatter.locale == locale && formatter.options == opts
            && caches.numberFormats == old(caches.numberFormats)[key := formatter])
    ensures ':' !in locale && old(caches.ColonFreeNumberLocales()) ==>
      caches.ColonFreeNumberLocales() && formatter.locale == locale && formatter.options == opts
  {
    var key := MakeCacheKey(locale, opts);
    if key in caches.numberFormats {
      formatter := caches.numberFormats[key];
      if ':' !in locale && caches.ColonFreeNumberLocales() {
        NumberHit(caches, locale, opts);
      }
    } else {
      formatter := new NumberFormat(locale, opts);
      caches.numberFormats := caches.numberFormats[key := formatter];
    }
  }

  /**
   * `formatNumber(value, locale, options = {})`: looks the formatter up under
   * `makeCacheKey(locale, options)`, constructs and stores one on a miss, and
   * formats `value` with the formatter found.
   */
  method FormatNumber(caches: FormatCaches, host: Host, value: real, locale: Locale, options: Option<Options>)
    returns (s: string)
    requires caches.Valid()
    modifies caches`numberFormats
    ensures caches.Valid()
    ensures var key := MakeCacheKey(locale, options.GetOr([]));
      && key in caches.numberFormats
      && (key in old(caches.numberFormats) ==> caches.numberFormats == old(caches.numberFormats))
      && (key !in old(caches.numberFormats) ==>
            && fresh(caches.numberFormats[key])
            && caches.numberFormats[key].locale == locale
            && caches.numberFormats[key].options == options.GetOr([])
            && caches.numberFormats == old(caches.numberFormats)[key := caches.numberFormats[key]])
      && s == caches.numberFormats[key].Format(host, value)
    ensures ':' !in locale && old(caches.ColonFreeNumberLocales()) ==>
      && caches.ColonFreeNumberLocales()
      && s == host.numberFormat(locale, options.GetOr([]), value)
  {
    var formatter := CachedNumberFormat(caches, locale, options.GetOr([]));
    s := formatter.Format(host, value);
  }
}
