/**
 * `formatRelativeTime` (packages/intl-core/src/relative.ts): a memoised
 * `Intl.RelativeTimeFormat` applied to a signed offset and a unit.
 */
module RelativeTimeFormatting {

  import opened Wrappers
  import opened Json
  import opened Intl
  import opened FormatCache

  /**
   * `formatRelativeTime(value, unit, locale, options)`: omitted options count
   * as `{}`; the key leaves out `value` and `unit`, so every offset and unit
   * shares one formatter per locale and options.
   */
  method FormatRelativeTime(caches: FormatCaches, host: Host, value: real, unit: RelativeTimeUnit,
                            locale: Locale, options: Option<Options>)
    returns (s: string)
    requires caches.Valid()
    modifies caches`relativeTimeFormats
    ensures caches.Valid()
    ensures var key := MakeCacheKey(locale, options.GetOr([]));
      && key in caches.relativeTimeFormats
      && (key in old(caches.relativeTimeFormats) ==> caches.relativeTimeFormats == old(caches.relativeTimeFormats))
      && (key !in old(caches.relativeTimeFormats) ==>
            && fresh(caches.relativeTimeFormats[key])
            && caches.relativeTimeFormats[key].locale == locale
            && caches.relativeTimeFormats[key].options == options.GetOr([])
            && caches.relativeTimeFormats
               == old(caches.relativeTimeFormats)[key := caches.relativeTimeFormats[key]])
      && s == caches.relativeTimeFormats[key].Format(host, value, unit)
    ensures ':' !in locale && old(caches.ColonFreeRelativeTimeLocales()) ==>
      && caches.ColonFreeRelativeTimeLocales()
      && s == host.relativeTimeFormat(locale, options.GetOr([]), value, unit)
  {
    var opts := options.GetOr([]);
    var key := MakeCacheKey(locale, opts);
    var formatter: RelativeTimeFormat;
    if key in caches.relativeTimeFormats {
      formatter := caches.relativeTimeFormats[key];
      if ':' !in locale && caches.ColonFreeRelativeTimeLocales() {
        CacheKeyInjective(formatter.locale, formatter.options, locale, opts);
      }
    } else {
      formatter := new RelativeTimeFormat(locale, opts);
      caches.relativeTimeFormats := caches.relativeTimeFormats[key := formatter];
    }
    s := formatter.Format(host, value, unit);
  }
}
