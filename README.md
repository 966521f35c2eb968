# i18n and intl core, modelled in Dafny

This project models the logic at the heart of a TypeScript
internationalisation toolkit:

- `negotiateLocale`: exact match, then base-language match, then fallback.
- The `I18n` manager. It holds the current locale and currency, loads and
  activates message catalogs through a pluggable loader, translates with
  `t`, and notifies subscribers.
- The memoising formatting helpers of `intl-core`:
  - `makeCacheKey` and four module-level caches;
  - get-or-create in `formatNumber`, `formatCurrency`, `formatDate`,
    `formatRelativeTime` and `getPluralCategory`.
- The Vite catalog loader: `extractMessages` classifies the module shape; the
  candidate loop tries `.mjs`, then `.js`, and never throws.
- The `no-i18n-indirection` ESLint rule. It flags `x.t(arg)` calls whose first
  argument is a variable, a property access or a call.

Modules:

| file | module | models |
|---|---|---|
| wrappers.dfy | `Wrappers` | `Option` |
| negotiate.dfy | `Negotiate` | locale negotiation |
| json.dfy | `Json` | option objects as ordered fields, object spread, `JSON.stringify` and a parser for its output |
| intl.dfy | `Intl` | the platform's `Intl` formatters: objects that remember their locale and options, with output given by a `Host` of uninterpreted functions |
| cache.dfy | `FormatCache` | cache keys and the class `FormatCaches` holding the four maps |
| number.dfy, currency.dfy, date.dfy, relative.dfy, plural.dfy | one module each | the get-or-create helpers, as methods that update `FormatCaches` |
| js_set.dfy | `InsertionOrderedSet` | a JavaScript `Set` as an insertion-ordered sequence without repetition |
| i18n.dfy | `I18nCore` | the class `I18n` |
| loader.dfy | `CatalogLoading` | `extractMessages` and the loader loop |
| lint.dfy | `NoI18nIndirection` | the rule's `CallExpression` visitor |

Modelling choices:

- The caches are one `FormatCaches` object whose fields are the four maps. The
  formatting methods update that object in place.
- A `JSON.stringify` of an options object is modelled with a serialiser that
  keeps field order. `Json.StringifyRoundTrip` proves a parser reads it back.
  So two option lists share a key only if they are equal field by field and
  in the same order.
- Where a locale contains no `:`, the `locale::json` key determines both the
  locale and the options: the first `:` of the key ends the locale. Each
  get-or-create method then provably answers exactly what a freshly
  constructed formatter would. The guarantee is stated for colon-free
  locales because that makes the split of a key simple to prove, and a
  BCP 47 language tag never contains `:`.
- The asynchronous `setLocale` is split in two:
  - `I18n.BeginSetLocale` is the synchronous part: it resolves the locale and
    makes the loader call;
  - `I18n.CompleteSetLocale` runs when the load resolves: it activates the
    catalog, records the locale and notifies.
- Loads may resolve in any order. Nothing guards against a stale completion,
  and `I18nCore.StaleLoadWins` shows the later-started call losing.
  `I18n.SetLocale` is the two halves run back to back.
- Listener calls are recorded in a ghost log of `(listener, snapshot)` pairs.
- `I18n.CompleteSetLocale` takes the catalog the load resolved with as a
  parameter. A loader is asynchronous and may read files or the network, so
  a completion may carry any catalog. `I18n.SetLocale` is the case in which
  it is the loader's value for the resolved locale and namespace.
- The unsubscribe function returned by `onChange` is a closure over its
  manager. It is modelled as an `Unsubscriber` value that records the manager
  and the listener, and `I18nCore.Unsubscribe` deletes the listener from that
  manager only.

Two behaviours of the code are easy to misread:

- `formatCurrency` spreads the caller's options after
  `{ style: 'currency', currency }`. At run time a caller's `style` or
  `currency` field therefore wins; only the TypeScript type keeps those
  fields out. `CurrencyFormatting.CallerMayOverrideStyle` shows this, and
  `CurrencyFormatting.TypedMerge` proves that for options of the declared
  type both fields are fixed.
- `setLocale` has no `try`/`catch`, so a rejecting loader makes `setLocale`
  reject with nothing activated and nobody notified
  (`I18n.AbandonSetLocale`). It does not fall back to an empty catalog.

## Model

| member | source | states |
|---|---|---|
| Negotiate.BaseOf | packages/intl-core/src/negotiate.ts:18 | the base is the lower-cased prefix of the tag before the first `-`, or the whole lower-cased tag when there is no `-` |
| Negotiate.Bases | packages/intl-core/src/negotiate.ts:19 | the requested base languages, position by position |
| Negotiate.ExactMatch | packages/intl-core/src/negotiate.ts:11-15 | finds a requested tag exactly when some requested tag is supported, and what it finds is a requested tag |
| Negotiate.BaseMatch | packages/intl-core/src/negotiate.ts:21-25 | finds a supported tag exactly when the base of some supported tag is among the requested bases |
| Negotiate.Negotiation | packages/intl-core/src/negotiate.ts:10-28 | the outcome is an exact match exactly when some requested tag is supported, and it is then a requested and supported tag; a base-match outcome is a supported tag |
| Negotiate.NegotiateLocale | packages/intl-core/src/negotiate.ts:5-29 | the result is always a supported tag or the fallback |
| Negotiate.ExactMatchWins | packages/intl-core/src/negotiate.ts:11-15 | the first requested tag that is supported wins, whatever base matches exist |
| Negotiate.BaseMatchWhenNoExact | packages/intl-core/src/negotiate.ts:17-25 | with no exact match, the result is the first supported tag, in supported order, whose base some requested tag shares |
| Negotiate.FallbackIff | packages/intl-core/src/negotiate.ts:27-28 | the fallback is chosen if and only if there is neither an exact nor a base match |
| Negotiate.CaseSensitivity | packages/intl-core/src/negotiate.ts:12-18 | an example of both stages: `EN-gb` is not an exact match for `en-GB` but reaches it through its base, while `en-GB` matches exactly |
| Negotiate.BaseCaseInsensitive | packages/intl-core/src/negotiate.ts:18 | any two tags equal up to ASCII case have the same base |
| Negotiate.LowerIdempotent | packages/intl-core/src/negotiate.ts:18 | lower-casing twice is lower-casing once |
| Negotiate.BaseOfLower | packages/intl-core/src/negotiate.ts:18 | lower-casing a tag first does not change its base |
| Negotiate.BaseMatchCaseInsensitive | packages/intl-core/src/negotiate.ts:19-25 | for all inputs, requests equal up to case position by position reach the same tag in the base-match loop |
| Negotiate.BaseOfPrefix | packages/intl-core/src/negotiate.ts:18 | when the first hyphen is at position `k`, the base is the lower-cased first `k` characters |
| Negotiate.BaseRequested | packages/intl-core/src/negotiate.ts:19-22 | a supported tag's base is among the requested bases exactly when some requested tag has that base |
| Negotiate.ExampleBaseMatch | packages/intl-core/src/negotiate.ts:17-25 | `es-MX` requested against `en, es` gives `es` |
| Negotiate.ExampleFallback | packages/intl-core/src/negotiate.ts:27-28 | `fr` requested against `en, es` gives the fallback |
| Negotiate.ExampleExactFirst | packages/intl-core/src/negotiate.ts:11-15 | `es-ES, en` requested against `en, es-ES` gives `es-ES`, the first requested tag that is supported |
| Json.Get | packages/intl-core/currency.ts:20-24 | a property is present exactly when some field has that name, and its value is that field's |
| Json.Assign | packages/intl-core/currency.ts:20-24 | assigning a property keeps every existing name at its position; the object grows by one field, appended at the end, exactly when the name was absent |
| Json.AssignGet | packages/intl-core/currency.ts:20-24 | after one property assignment, reading that name gives the new value and every other name is unchanged |
| Json.AssignUnique | packages/intl-core/currency.ts:20-24 | property assignment keeps names unique (an existing key is overwritten where it stands) |
| Json.SpreadGet | packages/intl-core/currency.ts:20-24 | `{...t, ...s}` is the union of the two objects in which the right-hand one wins |
| Json.Spread | packages/intl-core/currency.ts:20-24 | `{...t, ...s}` keeps the name of every field of `t` at its position; the properties of `s` only overwrite values or come after |
| Json.SpreadGetAll | packages/intl-core/currency.ts:20-24 | every property of the spread is the right-hand object's when present there, else the left-hand one's |
| Json.SpreadDisjoint | packages/intl-core/currency.ts:20-24 | with no shared names the spread is the left fields followed by the right ones, in order |
| Json.Stringify | packages/intl-core/src/cache.ts:13 | the serialised text is an object literal, from `{` to `}` |
| Json.QuoteRoundTrip | packages/intl-core/src/cache.ts:13 | a quoted, escaped string reads back as its text |
| Json.StringifyRoundTrip | packages/intl-core/src/cache.ts:10-13 | parsing the serialised options gives the options back |
| Json.StringifyInjective | packages/intl-core/src/cache.ts:9-13 | distinct option lists serialise differently |
| Json.OrderMatters | packages/intl-core/src/cache.ts:13 | the same two fields in the other order give a different text, so key order is part of the key |
| FormatCache.MakeCacheKeyParts | packages/intl-core/src/cache.ts:12-14 | `makeCacheKey` gives the locale, then `::`, then text that parses back as the options |
| FormatCache.SeparatorFollows | packages/intl-core/src/cache.ts:1 | `locale + "::" + text` always has the shape of the `CacheKey` template type |
| FormatCache.SplitCacheKey | packages/intl-core/src/cache.ts:1 | the inverse of key building used by the injectivity proof, not a model of the `CacheKey` type: it splits at the first `:`, so keys the type admits, such as `a:b::c`, give nothing; what it returns puts the key back together around `::`, with a colon-free locale part |
| FormatCache.SplitKeyOf | packages/intl-core/src/cache.ts:12-14 | a key made from a colon-free locale splits back into that locale and that text |
| FormatCache.CacheKeyInjective | packages/intl-core/src/cache.ts:12-14 | for colon-free locales, equal keys mean equal locales and equal options |
| FormatCache.PluralRulesKey | packages/intl-core/src/plural.ts:12 | the plural key is the locale, then `::`, then `cardinal` or `ordinal` |
| FormatCache.PluralRulesKeyInjective | packages/intl-core/src/plural.ts:12 | the `locale::type` plural key determines both the locale and the type, for any locale |
| FormatCache.PluralTypesSeparate | packages/intl-core/src/plural.ts:10-12 | cardinal and ordinal rules for one locale never share an entry |
| FormatCache.NumberHit | packages/intl-core/src/number.ts:41-42 | a number formatter found under the key of a colon-free locale was built for that locale and those options |
| FormatCache.FormatCaches.constructor | packages/intl-core/src/cache.ts:3-6 | the four caches are separate maps and start empty |
| Intl.PluralCategory.Name | packages/intl-core/src/plural.ts:11 | a plural category is one of the six LDML names |
| NumberFormatting.StyleOf | packages/intl-core/src/number.ts:4-28 | options of the declared type are exactly one of decimal (style absent or `decimal`), percent, or unit with a mandatory unit |
| NumberFormatting.NotCurrencyStyle | packages/intl-core/src/number.ts:28 | no option object of the declared type asks for currency style |
| NumberFormatting.CachedNumberFormat | packages/intl-core/src/number.ts:41-45 | the formatter returned is the one stored under `makeCacheKey(locale, options)`; a hit leaves the cache unchanged, a miss stores exactly one fresh formatter for this locale and these options and nothing else; for colon-free locales the formatter found is one built for this locale and these options |
| NumberFormatting.FormatNumber | packages/intl-core/src/number.ts:33-48 | the key is `makeCacheKey(locale, options ?? {})`; a hit leaves the cache unchanged, a miss stores exactly one fresh formatter for this locale and these options; the result is the cached formatter's output; for colon-free locales it is what the platform prints for these arguments |
| CurrencyFormatting.MergeCurrencyOptions | packages/intl-core/currency.ts:20-24 | every merged property is the caller's when given, else the fixed `style` or `currency`; `style` and `currency` are the first two fields |
| CurrencyFormatting.TypedMerge | packages/intl-core/currency.ts:4-24 | for options of the declared type the merge is the fixed fields followed by the caller's, and `style` is `currency` with the given code |
| CurrencyFormatting.CallerMayOverrideStyle | packages/intl-core/currency.ts:20-24 | an untyped caller's `style` field overrides `currency` |
| CurrencyFormatting.CurrencyKeysNotNumberKeys | packages/intl-core/currency.ts:1-26 | within the shared number cache, a typed currency key never equals the key of a typed `formatNumber` call |
| CurrencyFormatting.FormatCurrency | packages/intl-core/currency.ts:14-35 | the same get-or-create contract on `numberFormatCache`, under the key of the merged options |
| DateFormatting.ToDate | packages/intl-core/src/date.ts:19 | a `Date` input is used as it is |
| DateFormatting.FormatDate | packages/intl-core/src/date.ts:14-30 | get-or-create on `dateTimeFormatCache` under a key built from the locale and options only, never the input; an Invalid Date gives no string (`format` throws `RangeError`) after the formatter is cached; a valid date gives the cached formatter's output, which for colon-free locales is what the platform prints |
| RelativeTimeFormatting.FormatRelativeTime | packages/intl-core/src/relative.ts:8-24 | get-or-create on `relativeTimeFormatCache` with options defaulting to `{}`; the result is the cached formatter's output for the value and unit |
| PluralCategories.GetPluralCategory | packages/intl-core/src/plural.ts:7-21 | get-or-create on `pluralRulesCache` under `locale::type` with type defaulting to cardinal; the result is always the platform's rule for that locale and type |
| InsertionOrderedSet.Add | packages/i18n-core/src/i18n.ts:94 | `add` keeps the elements unique and adds exactly the new one |
| InsertionOrderedSet.Delete | packages/i18n-core/src/i18n.ts:95 | `delete` removes exactly that element, keeps uniqueness, and changes nothing when it is absent |
| InsertionOrderedSet.AddIdempotent | packages/i18n-core/src/i18n.ts:25-27 | re-adding a listener is a no-op |
| InsertionOrderedSet.AddGoesLast | packages/i18n-core/src/i18n.ts:94 | a new listener goes after all earlier ones |
| InsertionOrderedSet.DeleteIdempotent | packages/i18n-core/src/i18n.ts:95 | calling an unsubscribe function twice is the same as once |
| InsertionOrderedSet.DeleteOnlyThat | packages/i18n-core/src/i18n.ts:95 | unsubscribing removes only that listener and keeps the others' order |
| InsertionOrderedSet.DeleteUndoesAdd | packages/i18n-core/src/i18n.ts:93-96 | subscribing a new listener and unsubscribing it restores the set |
| I18nCore.Round | packages/i18n-core/src/i18n.ts:97-102 | one notification round calls each listener in order with the same snapshot |
| I18nCore.RoundCallsEachOnce | packages/i18n-core/src/i18n.ts:97-102 | in a round every current subscriber is called exactly once and nobody else is called |
| I18nCore.RoundSnapshot | packages/i18n-core/src/i18n.ts:98-101 | every call of a round goes to a subscriber with that round's snapshot |
| I18nCore.RoundAppend | packages/i18n-core/src/i18n.ts:99-101 | a round over one more listener is the shorter round followed by that listener's call |
| I18nCore.EmptyLoader | packages/i18n-core/src/i18n.ts:41 | the default loader resolves to `{}` for every locale and namespace |
| I18nCore.I18n.constructor | packages/i18n-core/src/i18n.ts:29-48 | locale is `initialLocale ?? defaultLocale` and currency `initialCurrency ?? defaultCurrency`; an omitted loader yields `{}`; an empty catalog is active for the current locale; no subscribers |
| I18nCore.I18n.ResolveLocale | packages/i18n-core/src/i18n.ts:63-65 | a supported locale is kept; any other silently becomes the default |
| I18nCore.I18n.T | packages/i18n-core/src/i18n.ts:83-86 | translation looks the id up in the active catalog (a missing id is returned as is, see Left out) |
| I18nCore.I18n.BeginSetLocale | packages/i18n-core/src/i18n.ts:62-67 | the loader is called with the resolved locale and the namespace, `messages` by default |
| I18nCore.I18n.CompleteSetLocale | packages/i18n-core/src/i18n.ts:67-72 | on completion the locale is the resolved one, the active catalog is exactly the loaded messages, the currency and subscribers are unchanged, and one round is notified with the new snapshot |
| I18nCore.I18n.AbandonSetLocale | packages/i18n-core/src/i18n.ts:67 | a rejected load changes no observable state |
| I18nCore.I18n.SetLocale | packages/i18n-core/src/i18n.ts:62-73 | an uninterrupted `setLocale` activates what the loader returns for the resolved locale and notifies once |
| I18nCore.I18n.SetCurrency | packages/i18n-core/src/i18n.ts:75-78 | currency becomes the argument unvalidated; locale, catalog and subscribers are unchanged; one round is notified |
| I18nCore.I18n.OnChange | packages/i18n-core/src/i18n.ts:93-96 | the listener is added to the set and the returned handle names this manager and that listener |
| I18nCore.Unsubscribe | packages/i18n-core/src/i18n.ts:95 | the handle deletes exactly its own listener from the manager that created it |
| I18nCore.I18n.Notify | packages/i18n-core/src/i18n.ts:97-102 | the loop calls every subscriber in insertion order with the snapshot taken before it starts |
| I18nCore.StaleLoadWins | packages/i18n-core/src/i18n.ts:62-73 | when an earlier `setLocale`'s load resolves after a later one's, the earlier locale and catalog stay active |
| I18nCore.Scenario | packages/i18n-core/src/i18n.ts:29-73 | after `es` then the unsupported `fr`, the locale is `en` and `hello` translates to the English text |
| CatalogLoading.ObjectLikeIsObject | apps/web-react/src/i18n/loader.ts:20 | `v && typeof v === 'object'` holds exactly for non-null objects, so functions are excluded |
| CatalogLoading.Get | apps/web-react/src/i18n/loader.ts:21-27 | a missing property reads as `undefined` |
| CatalogLoading.ExtractMessages | apps/web-react/src/i18n/loader.ts:19-35 | `mod.messages` when it is an object; else, when `mod.default` is an object, `default.messages` if that is an object and `default` otherwise; null in every other case |
| CatalogLoading.ExtractRecoversCatalog | apps/web-react/src/i18n/loader.ts:8-11 | each of the three declared module shapes yields its own catalog (when the bare default is unambiguous) |
| CatalogLoading.BareDefaultMisread | apps/web-react/src/i18n/loader.ts:25-32 | a bare default catalog with an object-valued message `messages` is read as the wrapped shape |
| CatalogLoading.NamedExportWins | apps/web-react/src/i18n/loader.ts:22-24 | a named `messages` export is taken whatever `default` holds |
| CatalogLoading.NoCatalogShapes | apps/web-react/src/i18n/loader.ts:20-34 | null, undefined, functions, strings and objects with neither shape give null |
| CatalogLoading.Candidates | apps/web-react/src/i18n/loader.ts:57-60 | exactly two distinct candidates, `base/locale/ns.mjs` then `base/locale/ns.js` |
| CatalogLoading.Attempt | apps/web-react/src/i18n/loader.ts:63-66 | a failed import gives nothing; a successful one gives `extractMessages` of the module |
| CatalogLoading.FirstCatalog | apps/web-react/src/i18n/loader.ts:62-77 | the result is the catalog of the first candidate that imports and extracts, or `{}` when none does |
| CatalogLoading.FirstSuccessWins | apps/web-react/src/i18n/loader.ts:62-66 | the first successful candidate decides, whatever the later ones hold |
| CatalogLoading.AllFailEmpty | apps/web-react/src/i18n/loader.ts:67-77 | when every import fails or extracts nothing the loader resolves to `{}` |
| CatalogLoading.LoadCatalog | apps/web-react/src/i18n/loader.ts:55-79 | the loop returns the first candidate's catalog with `basePath` defaulting to `/src/locales`; it stops right after the first success, and every earlier candidate failed |
| NoI18nIndirection.CheckCallExpression | apps/web-react/eslint-plugin-i18n.cjs:10-44 | a report happens iff the callee is a member expression whose property is named `t`, there is an argument, and the first argument is an identifier, member expression or call; the report is on that argument with its pattern's message |
| NoI18nIndirection.MessagesDistinct | apps/web-react/eslint-plugin-i18n.cjs:25-39 | the three messages differ |
| NoI18nIndirection.ReportsPerPattern | apps/web-react/eslint-plugin-i18n.cjs:23-40 | variable, property-access and call arguments each get one report with their own message |
| NoI18nIndirection.LiteralAllowed | apps/web-react/eslint-plugin-i18n.cjs:42 | a literal first argument is never reported |
| NoI18nIndirection.ReceiverIgnored | apps/web-react/eslint-plugin-i18n.cjs:13-16 | the receiver is not examined: `foo.t(x)` is judged like `i18n.t(x)` |
| NoI18nIndirection.OnlyFirstArgument | apps/web-react/eslint-plugin-i18n.cjs:20-41 | arguments after the first never change the outcome |
| NoI18nIndirection.PropertyNameOnly | apps/web-react/eslint-plugin-i18n.cjs:13-16 | only `property.name` is read: `i18n[t](x)` and `i18n.#t(x)` are inspected, `i18n['t'](x)` is not |
| NoI18nIndirection.OtherCallsIgnored | apps/web-react/eslint-plugin-i18n.cjs:12-19 | plain calls, calls of other method names, and calls without arguments are never reported |

## Left out

- What the platform formatters print is not modelled. `Intl.NumberFormat`,
  `DateTimeFormat`, `RelativeTimeFormat` and `PluralRules` depend on CLDR
  data and floating point, so their outputs are uninterpreted functions of
  the locale, options and value (`Intl.Host`).
- `Intl` constructors that throw `RangeError` on an invalid locale or options
  are not modelled.
- `new Date(number | string)` is an uninterpreted function of the host.
- NaN, `-0` and infinities are not distinguished: values are reals. So the
  `RangeError` that `RelativeTimeFormat.format` throws for a non-finite value
  cannot arise in the model.
- FormatCache.CacheKeyInjective, FormatCache.SplitKeyOf, FormatCache.NumberHit
  and the colon-free clauses of the formatting methods are stated only for
  locales without `:`. A key whose locale contains `:` is not shown to be
  ambiguous or unambiguous.
- Object spread follows the ordinary order of insertion. The JavaScript rule
  that integer-like keys come first is not modelled.
- `JSON.stringify` is modelled for string values and non-negative integer
  values. Not covered:
  - boolean values, such as `hour12` or `useGrouping`;
  - escaping of control characters and lone surrogates;
  - non-integer and negative numbers;
  - nested objects and properties whose value is `undefined`.
- Lowercasing in `baseOf` covers only ASCII. JavaScript's full Unicode
  `toLowerCase` is not covered.
- The Lingui runtime (`load`, `activate`, `_`) is two fields of `I18n`:
  `activeLocale` and `catalog`. Loading replaces the catalog, whereas Lingui
  merges catalogs per locale. ICU placeholder interpolation is not modelled.
- I18n.T: a missing id returning the id itself is Lingui behaviour not
  visible in the code. It is modelled as an assumption, and `values` and
  `namespace` are ignored as in the code.
- The runtime Lingui instance is a process-wide singleton, so two `I18n`
  instances share one active catalog. The model gives each manager its own.
- The `locale` and `currency` getters are the fields `currentLocale` and
  `currentCurrency`, so they have no members of their own.
- A listener that subscribes or unsubscribes during a notification round is
  not modelled. There, the live iteration of a JavaScript `Set` would differ.
  Listeners have no effects of their own: a call is an entry in the ghost log.
- Scheduling of `async`/`await` is not modelled. Completions of `setLocale`
  can arrive in any order, and nothing else interleaves.
- `import()` is an oracle from path to module value. Real module caching,
  and bundler resolution of the `@vite-ignore` path, are not modelled.
- Module values are modelled on own properties only. Prototype lookups such
  as an inherited `messages` property are not covered.
- ESLint's traversal is not modelled: the visitor is applied to one
  `CallExpression` node. `create(context)` and the plugin wiring are not
  modelled either.
- The `formatting.ts`, `adapters.ts` and framework-adapter files are thin
  delegations to `Intl` or to framework reactivity.
  packages/i18n-core/src/loader.ts is a single dynamic import.
  None of these are part of this model.
