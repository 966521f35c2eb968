/**
 * `getPluralCategory` (packages/intl-core/src/plural.ts): memoised
 * `Intl.PluralRules`, keyed by `${locale}::${type}`.
 */
module PluralCategories {

  import opened Wrappers
  import opened Intl
  import opened FormatCache

  /**
   * `getPluralCategory(value, locale, type = 'cardinal')`: get-or-create on
   * `pluralRulesCache`, then `select(value)`. Because plural keys never
   * collide, the answer is always the platform's rules for this locale and
   * type, whether the rules were cached or not.
   */
  method GetPluralCategory(caches: FormatCaches, host: Host, value: real, locale: Locale,
                           pluralType: Option<PluralType>)
    returns (category: PluralCategory)
    requires caches.Valid()
    modifies caches`pluralRules
    ensures caches.Valid()
    ensures var key := PluralRulesKey(locale, pluralType.GetOr(Cardinal));
      && key in caches.pluralRules
      && (key in old(caches.pluralRules) ==> caches.pluralRules == old(caches.pluralRules))
      && (key !in old(caches.pluralRules) ==>
            && fresh(caches.pluralRules[key])
            && caches.pluralRules == old(caches.pluralRules)[key := caches.pluralRules[key]])
      && category == caches.pluralRules[key].Select(host, value)
    ensures category == host.pluralSelect(locale, pluralType.GetOr(Cardinal), value)
    ensures category.Name() in {"zero", "one", "two", "few", "many", "other"}
  {
    var kind := pluralType.GetOr(Cardinal);
    var key := PluralRulesKey(locale, kind);
    var rules: PluralRules;
    if key in caches.pluralRules {
      rules := caches.pluralRules[key];
      PluralRulesKeyInjective(rules.locale, rules.pluralType, locale, kind);
    } else {
      rules := new PluralRules(locale, kind);
      caches.pluralRules := caches.pluralRules[key := rules];
    }
    category := rules.Select(host, value);
  }
}
