/**
 * `formatDate` (packages/intl-core/src/date.ts): converts the input to a
 * `Date`, then formats it with a memoised `Intl.DateTimeFormat`.
 */
module DateFormatting {

  import opened Wrappers
  import opened Json
  import opened Intl
  import opened FormatCache

  /** `Date | number | string`. */
  datatype DateInput = DateObject(date: Date) | Timestamp(ms: real) | DateString(text: string)

  /** `typeof input === 'string' || typeof input === 'number' ? new Date(input) : input`. */
  function ToDate(host: Host, input: DateInput): (d: Date)
    ensures input.DateObject? ==> d == input.date
  {
    match input
    case DateObject(d) => d
    case Timestamp(ms) => host.dateFromNumber(ms)
    case DateString(text) => host.dateFromString(text)
  }

  /**
   * `formatDate(input, locale, options = {})`: get-or-create on
   * `dateTimeFormatCache` under a key built from the locale and options only,
   * then `format(date)`. Formatting an invalid date throws a `RangeError`
   * (`None`), after the formatter has been cached.
   */
  method FormatDate(caches: FormatCaches, host: Host, input: DateInput, locale: Locale, options: Option<Options>)
    returns (s: Option<string>)
    requires caches.Valid()
    modifies caches`dateTimeFormats
    ensures caches.Valid()
    ensures var key := MakeCacheKey(locale, options.GetOr([]));
      && key in caches.dateTimeFormats
      && (key in old(caches.dateTimeFormats) ==> caches.dateTimeFormats == old(caches.dateTimeFormats))
      && (key !in old(caches.dateTimeFormats) ==>
            && fresh(caches.dateTimeFormats[key])
            && caches.dateTimeFormats[key].locale == locale
            && caches.dateTimeFormats[key].options == options.GetOr([])
            && caches.dateTimeFormats == old(caches.dateTimeFormats)[key := caches.dateTimeFormats[key]])
      && (ToDate(host, input).InvalidDate? ==> s == None)
      && (ToDate(host, input).Date? ==> s == Some(caches.dateTimeFormats[key].Format(host, ToDate(host, input))))
    ensures ':' !in locale && old(caches.ColonFreeDateTimeLocales()) ==>
      && caches.ColonFreeDateTimeLocales()
      && (ToDate(host, input).Date? ==> s == Some(host.dateTimeFormat(locale, options.GetOr([]), ToDate(host, input))))
  {
    var date := ToDate(host, input);
    var opts := options.GetOr([]);
    var key := MakeCacheKey(locale, opts);
    var formatter: DateTimeFormat;
    if key in caches.dateTimeFormats {
      formatter := caches.dateTimeFormats[key];
      if ':' !in locale && caches.ColonFreeDateTimeLocales() {
        CacheKeyInjective(formatter.locale, formatter.options, locale, opts);
      }
    } else {
      formatter := new DateTimeFormat(locale, opts);
      caches.dateTimeFormats := caches.dateTimeFormats[key := formatter];
    }
    if date.InvalidDate? {
      s := None;
    } else {
      s := Some(formatter.Format(host, date));
    }
  }
}
