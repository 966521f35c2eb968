/**
 * `formatCurrency` (packages/intl-core/currency.ts): the option merge
 * `{ style: 'currency', currency, ...options }` and memoisation on the same
 * number cache that `formatNumber` uses.
 */
module CurrencyFormatting {

  import opened Wrappers
  import opened Json
  import opened Intl
  import opened FormatCache
  import NumberFormatting

  type CurrencyCode = string

  /** The two fields written before the caller's options. */
  function CurrencyFields(currency: CurrencyCode): Options {
    [Field("style", JStr("currency")), Field("currency", JStr(currency))]
  }

  /**
   * `{ style: 'currency', currency, ...options }`: a union in which the
   * caller's options win. Every property the caller gives reads as given,
   * `style` and `currency` otherwise read 'currency' and the currency code,
   * and `style` and `currency` stay the first two properties even when
   * overridden.
   */
  function MergeCurrencyOptions(currency: CurrencyCode, options: Options): (merged: Options)
    ensures forall n :: Get(merged, n) == if Get(options, n).Some? then Get(options, n) else Get(CurrencyFields(currency), n)
    ensures |merged| >= 2 && merged[0].name == "style" && merged[1].name == "currency"
  {
    SpreadGetAll(CurrencyFields(currency), options);
    Spread(CurrencyFields(currency), options)
  }

  /** `CurrencyFormatOptions`: digits, `currencyDisplay` and `currencySign`, nothing else. */
  predicate IsCurrencyFormatOptions(o: Options) {
    && NumberFormatting.OnlyNames(o, NumberFormatting.DigitNames + {"currencyDisplay", "currencySign"})
    && NumberFormatting.NumericDigits(o)
    && (Get(o, "currencyDisplay").Some? ==> Get(o, "currencyDisplay").value in {JStr("symbol"), JStr("code"), JStr("name")})
    && (Get(o, "currencySign").Some? ==> Get(o, "currencySign").value in {JStr("standard"), JStr("accounting")})
  }

  /**
   * With options of the declared type, the merged object is exactly
   * style = 'currency', currency = the code, then the caller's fields in order.
   */
  lemma TypedMerge(currency: CurrencyCode, options: Options)
    requires IsCurrencyFormatOptions(options)
    ensures MergeCurrencyOptions(currency, options) == CurrencyFields(currency) + options
    ensures Get(MergeCurrencyOptions(currency, options), "style") == Some(JStr("currency"))
    ensures Get(MergeCurrencyOptions(currency, options), "currency") == Some(JStr(currency))
  {
    var fixed := CurrencyFields(currency);
    forall i | 0 <= i < |options| ensures Get(fixed, options[i].name).None? {
      assert options[i].name in NumberFormatting.DigitNames + {"currencyDisplay", "currencySign"};
    }
    SpreadDisjoint(fixed, options);
    SpreadGet(fixed, options, "style");
    SpreadGet(fixed, options, "currency");
  }

  /**
   * Outside the declared type nothing stops the spread from overriding the
   * fixed fields: a caller's `style` replaces 'currency'.
   */
  lemma CallerMayOverrideStyle(currency: CurrencyCode)
    ensures Get(MergeCurrencyOptions(currency, [Field("style", JStr("decimal"))]), "style") == Some(JStr("decimal"))
  {
  }

  /**
   * `formatNumber` and `formatCurrency` share `numberFormatCache`, but for
   * colon-free locales and options of the declared types their keys never
   * meet: a currency key always carries style 'currency', a number key never does.
   */
  lemma CurrencyKeysNotNumberKeys(l1: Locale, o: Options, l2: Locale, currency: CurrencyCode, options: Options)
    requires ':' !in l1 && ':' !in l2
    requires NumberFormatting.IsNumberFormatOptions(o)
    requires IsCurrencyFormatOptions(options)
    ensures MakeCacheKey(l1, o) != MakeCacheKey(l2, MergeCurrencyOptions(currency, options))
  {
    if MakeCacheKey(l1, o) == MakeCacheKey(l2, MergeCurrencyOptions(currency, options)) {
      CacheKeyInjective(l1, o, l2, MergeCurrencyOptions(currency, options));
      TypedMerge(currency, options);
      NumberFormatting.NotCurrencyStyle(o);
    }
  }

  /**
   * `formatCurrency(amount, locale, currency, options = {})`: get-or-create on
   * `numberFormatCache` under the key of the merged options, then format `amount`.
   */
  method FormatCurrency(caches: FormatCaches, host: Host, amount: real, locale: Locale,
                        currency: CurrencyCode, options: Option<Options>)
    returns (s: string)
    requires caches.Valid()
    modifies caches`numberFormats
    ensures caches.Valid()
    ensures var merged := MergeCurrencyOptions(currency, options.GetOr([]));
      var key := MakeCacheKey(locale, merged);
      && key in caches.numberFormats
      && (key in old(caches.numberFormats) ==> caches.numberFormats == old(caches.numberFormats))
      && (key !in old(caches.numberFormats) ==>
            && fresh(caches.numberFormats[key])
            && caches.numberFormats[key].locale == locale
            && caches.numberFormats[key].options == merged
            && caches.numberFormats == old(caches.numberFormats)[key := caches.numberFormats[key]])
      && s == caches.numberFormats[key].Format(host, amount)
    ensures ':' !in locale && old(caches.ColonFreeNumberLocales()) ==>
      && caches.ColonFreeNumberLocales()
      && s == host.numberFormat(locale, MergeCurrencyOptions(currency, options.GetOr([])), amount)
  {
    var merged := MergeCurrencyOptions(currency, options.GetOr([]));
    var formatter := NumberFormatting.CachedNumberFormat(caches, locale, merged);
    s := formatter.Format(host, amount);
  }
}
