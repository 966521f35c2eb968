/**
 * The format caches (packages/intl-core/src/cache.ts): the cache key built
 * from a locale and serialised options, and the four process-wide maps from
 * keys to formatter objects. The maps are module-level state in the source;
 * here they are the fields of one `FormatCaches` object that every formatting
 * helper receives, and each helper may change only its own field.
 */
module FormatCache {

  import opened Wrappers
  import opened Json
  import opened Intl

  /** The text contains the separator "::" somewhere. */
  predicate ContainsSeparator(k: string) {
    |k| >= 2 && ((k[0] == ':' && k[1] == ':') || ContainsSeparator(k[1..]))
  }

  /** The template-literal type `${string}::${string}`. */
  type CacheKey = k: string | ContainsSeparator(k) witness "::"

  lemma {:induction false} SeparatorFollows(locale: string, text: string)
    ensures ContainsSeparator(locale + "::" + text)
  {
    if locale != [] {
      assert (locale + "::" + text)[1..] == locale[1..] + "::" + text;
      SeparatorFollows(locale[1..], text);
    }
  }

  /** `${locale}::${text}`. */
  function KeyOf(locale: string, text: string): CacheKey {
    SeparatorFollows(locale, text);
    locale + "::" + text
  }

  /** `makeCacheKey(locale, options)`: the locale, "::", then `JSON.stringify(options)`. */
  function MakeCacheKey(locale: string, options: Options): (k: CacheKey)
  {
    KeyOf(locale, Stringify(options))
  }

  /**
   * A cache key is the locale, then "::", then text that reads back as the
   * options.
   */
  lemma MakeCacheKeyParts(locale: string, options: Options)
    ensures var k := MakeCacheKey(locale, options);
      && |k| >= |locale| + 2 && k[..|locale|] == locale && k[|locale|..|locale| + 2] == "::"
      && Parse(k[|locale| + 2..]) == Some(options)
  {
    var k := MakeCacheKey(locale, options);
    assert k[|locale| + 2..] == Stringify(options);
    StringifyRoundTrip(options);
  }

  /** The plain-string key of the plural-rules cache, `${locale}::${type}` (packages/intl-core/src/plural.ts). */
  function PluralRulesKey(locale: string, pluralType: PluralType): (k: string)
    ensures |k| == |locale| + 2 + |pluralType.Name()| && k[..|locale|] == locale
    ensures k[|locale|..|locale| + 2] == "::" && k[|locale| + 2..] in {"cardinal", "ordinal"}
  {
    locale + "::" + pluralType.Name()
  }

  /** The position of the first ':' in the text, or its length when there is none. */
  function FirstColon(k: string): (i: nat)
    ensures i <= |k| && ':' !in k[..i]
    ensures i < |k| ==> k[i] == ':'
  {
    if k == [] || k[0] == ':' then 0
    else
      var i := 1 + FirstColon(k[1..]);
      assert k[..i] == [k[0]] + k[1..][..i - 1];
      i
  }

  /** Splits a key at its first ':', which must start the separator "::". */
  function SplitCacheKey(k: string): (r: Option<(string, string)>)
    ensures r.Some? ==> k == r.value.0 + "::" + r.value.1 && ':' !in r.value.0
  {
    var i := FirstColon(k);
    if i + 1 < |k| && k[i + 1] == ':' then
      assert k == k[..i] + "::" + k[i + 2..];
      Some((k[..i], k[i + 2..]))
    else None
  }

  lemma {:induction false} FirstColonAfter(locale: string, rest: string)
    requires ':' !in locale
    requires rest != [] && rest[0] == ':'
    ensures FirstColon(locale + rest) == |locale|
  {
    if locale != [] {
      assert (locale + rest)[1..] == locale[1..] + rest;
      FirstColonAfter(locale[1..], rest);
    }
  }

  /** For a locale without ':', splitting the key gives back the locale and the text. */
  lemma SplitKeyOf(locale: string, text: string)
    requires ':' !in locale
    ensures SplitCacheKey(KeyOf(locale, text)) == Some((locale, text))
  {
    var k := KeyOf(locale, text);
    assert k == locale + ("::" + text);
    FirstColonAfter(locale, "::" + text);
    assert k[..|locale|] == locale;
    assert k[|locale| + 2..] == text;
  }

  /**
   * For locales without ':', equal keys mean equal locales and equal options:
   * two distinct requests never share a cache entry.
   */
  lemma CacheKeyInjective(l1: string, o1: Options, l2: string, o2: Options)
    requires ':' !in l1 && ':' !in l2
    requires MakeCacheKey(l1, o1) == MakeCacheKey(l2, o2)
    ensures l1 == l2 && o1 == o2
  {
    SplitKeyOf(l1, Stringify(o1));
    SplitKeyOf(l2, Stringify(o2));
    StringifyInjective(o1, o2);
  }

  /** A plural key is the locale, then "::", then the type name. */
  lemma PluralRulesKeyParts(locale: string, pluralType: PluralType)
    ensures var k := PluralRulesKey(locale, pluralType);
            && |k| == |locale| + 2 + |pluralType.Name()|
            && k[|k| - 7] == (if pluralType == Cardinal then 'a' else 'o')
            && locale == k[..|locale|]
  {
    var k := PluralRulesKey(locale, pluralType);
    var n := pluralType.Name();
    assert k == locale + ("::" + n);
    assert k[|k| - 7] == n[|n| - 7];
  }

  /**
   * Plural keys never collide, whatever the locale: the type name at the end of
   * the key decides the type, and what is left before "::" is the locale.
   */
  lemma PluralRulesKeyInjective(l1: string, t1: PluralType, l2: string, t2: PluralType)
    requires PluralRulesKey(l1, t1) == PluralRulesKey(l2, t2)
    ensures l1 == l2 && t1 == t2
  {
    PluralRulesKeyParts(l1, t1);
    PluralRulesKeyParts(l2, t2);
  }

  /** Cardinal and ordinal rules of one locale are separate entries. */
  lemma PluralTypesSeparate(locale: string)
    ensures PluralRulesKey(locale, Cardinal) != PluralRulesKey(locale, Ordinal)
  {
    if PluralRulesKey(locale, Cardinal) == PluralRulesKey(locale, Ordinal) {
      PluralRulesKeyInjective(locale, Cardinal, locale, Ordinal);
    }
  }

  /**
   * `numberFormatCache`, `dateTimeFormatCache`, `relativeTimeFormatCache` and
   * `pluralRulesCache`: four separate maps, so an entry of one kind never
   * stands in for another kind. The first three are keyed by `CacheKey`, the
   * plural one by plain strings.
   */
  class FormatCaches {
    var numberFormats: map<CacheKey, NumberFormat>
    var dateTimeFormats: map<CacheKey, DateTimeFormat>
    var relativeTimeFormats: map<CacheKey, RelativeTimeFormat>
    var pluralRules: map<string, PluralRules>

    /** Every formatter is stored under the key of the locale and options it was built with. */
    ghost predicate Valid()
      reads this
    {
      && (forall k | k in numberFormats :: k == MakeCacheKey(numberFormats[k].locale, numberFormats[k].options))
      && (forall k | k in dateTimeFormats :: k == MakeCacheKey(dateTimeFormats[k].locale, dateTimeFormats[k].options))
      && (forall k | k in relativeTimeFormats
            :: k == MakeCacheKey(relativeTimeFormats[k].locale, relativeTimeFormats[k].options))
      && (forall k | k in pluralRules :: k == PluralRulesKey(pluralRules[k].locale, pluralRules[k].pluralType))
    }

    /** No cached formatter was built for a locale containing ':' (true of every BCP 47 tag). */
    ghost predicate ColonFreeNumberLocales()
      reads this
    {
      forall k | k in numberFormats :: ':' !in numberFormats[k].locale
    }

    ghost predicate ColonFreeDateTimeLocales()
      reads this
    {
      forall k | k in dateTimeFormats :: ':' !in dateTimeFormats[k].locale
    }

    ghost predicate ColonFreeRelativeTimeLocales()
      reads this
    {
      forall k | k in relativeTimeFormats :: ':' !in relativeTimeFormats[k].locale
    }

    /** The caches start empty and are never evicted. */
    constructor ()
      ensures Valid()
      ensures numberFormats == map[] && dateTimeFormats == map[]
      ensures relativeTimeFormats == map[] && pluralRules == map[]
    {
      numberFormats := map[];
      dateTimeFormats := map[];
      relativeTimeFormats := map[];
      pluralRules := map[];
    }
  }

  /** A number formatter found under the key of a colon-free locale was built for that locale and those options. */
  lemma NumberHit(caches: FormatCaches, locale: string, opts: Options)
    requires caches.Valid() && MakeCacheKey(locale, opts) in caches.numberFormats
    requires ':' !in locale && caches.ColonFreeNumberLocales()
    ensures caches.numberFormats[MakeCacheKey(locale, opts)].locale == locale
    ensures caches.numberFormats[MakeCacheKey(locale, opts)].options == opts
  {
    var f := caches.numberFormats[MakeCacheKey(locale, opts)];
    CacheKeyInjective(f.locale, f.options, locale, opts);
  }
}
