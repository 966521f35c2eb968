/**
 * The host platform's `Intl` formatters, seen from the formatting helpers.
 * What a formatter prints comes from CLDR data and floating-point arithmetic,
 * so it is left uninterpreted: a `Host` bundles the platform's behaviour as
 * functions, and a formatter object only remembers the locale and options it
 * was constructed with. Formatter objects have identity, so a reused formatter
 * can be told apart from a freshly constructed one.
 */
module Intl {

  import opened Json

  type Locale = string

  /** `Intl.PluralRules` type option: 'cardinal' | 'ordinal'. */
  datatype PluralType = Cardinal | Ordinal {
    function Name(): string {
      match this
      case Cardinal => "cardinal"
      case Ordinal => "ordinal"
    }
  }

  /** `Intl.LDMLPluralRule`: the six plural categories. */
  datatype PluralCategory = Zero | One | Two | Few | Many | Other {
    function Name(): (s: string)
      ensures s in {"zero", "one", "two", "few", "many", "other"}
    {
      match this
      case Zero => "zero"
      case One => "one"
      case Two => "two"
      case Few => "few"
      case Many => "many"
      case Other => "other"
    }
  }

  /** A JavaScript `Date`: a time value, or the invalid date. */
  datatype Date = Date(timeValue: real) | InvalidDate

  /** `Intl.RelativeTimeFormatUnit`. */
  const RelativeTimeUnits: set<string> :=
    {"year", "years", "quarter", "quarters", "month", "months", "week", "weeks",
     "day", "days", "hour", "hours", "minute", "minutes", "second", "seconds"}

  type RelativeTimeUnit = u: string | u in RelativeTimeUnits witness "day"

  /** What the platform does; none of it is modelled further. */
  datatype Host = Host(
    numberFormat: (Locale, Options, real) -> string,
    dateTimeFormat: (Locale, Options, Date) -> string,
    relativeTimeFormat: (Locale, Options, real, RelativeTimeUnit) -> string,
    pluralSelect: (Locale, PluralType, real) -> PluralCategory,
    dateFromNumber: real -> Date,
    dateFromString: string -> Date)

  /** `new Intl.NumberFormat(locale, options)`. */
  class NumberFormat {
    const locale: Locale
    const options: Options

    constructor (locale: Locale, options: Options)
      ensures this.locale == locale && this.options == options
    {
      this.locale := locale;
      this.options := options;
    }

    function Format(host: Host, value: real): string {
      host.numberFormat(locale, options, value)
    }
  }

  /** `new Intl.DateTimeFormat(locale, options)`. */
  class DateTimeFormat {
    const locale: Locale
    const options: Options

    constructor (locale: Locale, options: Options)
      ensures this.locale == locale && this.options == options
    {
      this.locale := locale;
      this.options := options;
    }

    function Format(host: Host, date: Date): string {
      host.dateTimeFormat(locale, options, date)
    }
  }

  /** `new Intl.RelativeTimeFormat(locale, options)`. */
  class RelativeTimeFormat {
    const locale: Locale
    const options: Options

    constructor (locale: Locale, options: Options)
      ensures this.locale == locale && this.options == options
    {
      this.locale := locale;
      this.options := options;
    }

    function Format(host: Host, value: real, unit: RelativeTimeUnit): string {
      host.relativeTimeFormat(locale, options, value, unit)
    }
  }

  /** `new Intl.PluralRules(locale, { type })`. */
  class PluralRules {
    const locale: Locale
    const pluralType: PluralType

    constructor (locale: Locale, pluralType: PluralType)
      ensures this.locale == locale && this.pluralType == pluralType
    {
      this.locale := locale;
      this.pluralType := pluralType;
    }

    function Select(host: Host, value: real): PluralCategory {
      host.pluralSelect(locale, pluralType, value)
    }
  }
}
