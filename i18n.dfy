/**
 * The framework-agnostic I18n manager (packages/i18n-core/src/i18n.ts): the
 * current locale and currency, catalog loading and activation, translation
 * lookup, and change notification for subscribers.
 *
 * The translation runtime's process-wide active locale and catalog are
 * fields of the manager. The asynchronous `setLocale` is two steps: the
 * synchronous part that resolves the locale and starts the load, and the
 * continuation that runs when the load resolves. Loads may resolve in any
 * order; calls to listeners are recorded in a ghost log.
 */
module I18nCore {

  import opened Wrappers
  import opened InsertionOrderedSet

  type LocaleCode = string
  type CurrencyCode = string
  type Namespace = string

  /** Message id to translated template. */
  type Messages = map<string, string>

  /** The injected catalog loader, `(locale, namespace) => Promise<Messages>`, by what it resolves to. */
  type CatalogLoader = (LocaleCode, Namespace) -> Messages

  /** The identity of a subscribed listener function. */
  type Listener = nat

  const DefaultNamespace: Namespace := "messages"

  /** The snapshot `{ locale, currency }` handed to listeners. */
  datatype State = State(locale: LocaleCode, currency: CurrencyCode)

  /** One call `listener(snapshot)`. */
  datatype Notification = Notification(listener: Listener, snapshot: State)

  /** The arguments of one loader call, made by one `setLocale` that has not resolved yet. */
  datatype LoadRequest = LoadRequest(locale: LocaleCode, namespace: Namespace)

  /** The closure `onChange` returns: it deletes its listener from the manager it captured. */
  datatype Unsubscriber = Unsubscriber(manager: I18n, listener: Listener)

  /** The loader used when none is given: `async () => ({})`. */
  function EmptyLoader(): (loader: CatalogLoader)
    ensures forall locale, namespace :: loader(locale, namespace) == map[]
  {
    (locale: LocaleCode, namespace: Namespace) => map[]
  }

  /** The calls one run of `notify` makes: each listener in order, with the same snapshot. */
  function Round(listeners: seq<Listener>, snapshot: State): (r: seq<Notification>)
    ensures |r| == |listeners|
    ensures forall i :: 0 <= i < |r| ==> r[i] == Notification(listeners[i], snapshot)
  {
    if listeners == [] then [] else [Notification(listeners[0], snapshot)] + Round(listeners[1..], snapshot)
  }

  /**
   * In one round every subscriber is called exactly once and nobody else is
   * called: a listener that was unsubscribed is never called.
   */
  lemma {:induction false} RoundCallsEachOnce(listeners: seq<Listener>, snapshot: State, l: Listener)
    requires NoDuplicates(listeners)
    ensures multiset(Round(listeners, snapshot))[Notification(l, snapshot)] == if l in listeners then 1 else 0
  {
    if listeners != [] {
      RoundCallsEachOnce(listeners[1..], snapshot, l);
      assert Round(listeners, snapshot) == [Notification(listeners[0], snapshot)] + Round(listeners[1..], snapshot);
      assert l in listeners <==> l == listeners[0] || l in listeners[1..];
      assert listeners[0] !in listeners[1..];
    }
  }

  /** No round calls a listener with a snapshot other than its own. */
  lemma RoundSnapshot(listeners: seq<Listener>, snapshot: State, n: Notification)
    requires n in Round(listeners, snapshot)
    ensures n.snapshot == snapshot && n.listener in listeners
  {
  }

  class I18n {
    const supportedLocales: seq<string>
    const defaultLocale: LocaleCode
    const loader: CatalogLoader

    var currentLocale: LocaleCode
    var currentCurrency: CurrencyCode
    var subscribers: seq<Listener>

    /** The translation runtime's active locale and its catalog. */
    var activeLocale: LocaleCode
    var catalog: Messages

    /** Every listener call made so far, in order. */
    ghost var notified: seq<Notification>
    /** The `setLocale` calls whose load has not resolved yet. */
    ghost var pending: multiset<LoadRequest>

    ghost predicate Valid()
      reads this
    {
      NoDuplicates(subscribers) && activeLocale == currentLocale
    }

    /**
     * `new I18n({ supportedLocales, defaultLocale, defaultCurrency, loader?,
     * initialLocale?, initialCurrency? })`; activates an empty catalog for the
     * initial locale so that `t` works before the first load.
     */
    constructor (supportedLocales: seq<string>, defaultLocale: LocaleCode, defaultCurrency: CurrencyCode,
                 loader: Option<CatalogLoader>, initialLocale: Option<LocaleCode>,
                 initialCurrency: Option<CurrencyCode>)
      ensures Valid()
      ensures this.supportedLocales == supportedLocales && this.defaultLocale == defaultLocale
      ensures forall l, n :: this.loader(l, n) == if loader.Some? then loader.value(l, n) else map[]
      ensures currentLocale == initialLocale.GetOr(defaultLocale)
      ensures currentCurrency == initialCurrency.GetOr(defaultCurrency)
      ensures activeLocale == currentLocale && catalog == map[]
      ensures subscribers == [] && notified == [] && pending == multiset{}
    {
      this.supportedLocales := supportedLocales;
      this.defaultLocale := defaultLocale;
      this.loader := loader.GetOr(EmptyLoader());
      currentLocale := initialLocale.GetOr(defaultLocale);
      currentCurrency := initialCurrency.GetOr(defaultCurrency);
      subscribers := [];
      notified := [];
      pending := multiset{};
      new;
      catalog := map[];
      activeLocale := currentLocale;
    }

    /** The locale `setLocale` actually loads: unsupported locales become the default, silently. */
    function ResolveLocale(next: LocaleCode): (r: LocaleCode)
      ensures r in supportedLocales || r == defaultLocale
      ensures next in supportedLocales ==> r == next
      ensures next !in supportedLocales ==> r == defaultLocale
    {
      if next in supportedLocales then next else defaultLocale
    }

    /** `t(id, values?, namespace?)`, with an assumed runtime lookup (see README). */
    function T(id: string, values: map<string, string>, namespace: Option<Namespace>): (r: string)
      reads this
      ensures id in catalog ==> r == catalog[id]
      ensures id !in catalog ==> r == id
    {
      if id in catalog then catalog[id] else id
    }

    /** The synchronous part of `setLocale(next, namespace = 'messages')`: it returns the loader call it makes. */
    method BeginSetLocale(next: LocaleCode, namespace: Option<Namespace>) returns (request: LoadRequest)
      modifies this`pending
      ensures request == LoadRequest(ResolveLocale(next), namespace.GetOr(DefaultNamespace))
      ensures pending == old(pending) + multiset{request}
    {
      request := LoadRequest(ResolveLocale(next), namespace.GetOr(DefaultNamespace));
      pending := pending + multiset{request};
    }

    /**
     * The continuation of `setLocale` once the load resolves with `messages`:
     * load and activate the catalog, make its locale current, notify.
     * Nothing compares this request with later ones, so whichever load
     * resolves last decides the locale and the catalog. The loader is
     * asynchronous and may read files or the network, so what a load
     * resolves with is any catalog, not necessarily `loader`'s value for the
     * request; `SetLocale` is the case where it is.
     */
    method CompleteSetLocale(request: LoadRequest, messages: Messages)
      requires Valid()
      requires request in pending
      modifies this`activeLocale, this`catalog, this`currentLocale, this`notified, this`pending
      ensures Valid()
      ensures currentLocale == request.locale && activeLocale == request.locale && catalog == messages
      ensures forall id :: id in messages ==> T(id, map[], None) == messages[id]
      ensures currentCurrency == old(currentCurrency) && subscribers == old(subscribers)
      ensures pending == old(pending) - multiset{request}
      ensures notified == old(notified) + Round(subscribers, State(request.locale, currentCurrency))
    {
      pending := pending - multiset{request};
      catalog := messages;
      activeLocale := request.locale;
      currentLocale := request.locale;
      Notify();
    }

    /** A load that rejects: the rejection reaches the caller of `setLocale` and nothing changes. */
    method AbandonSetLocale(request: LoadRequest)
      requires request in pending
      modifies this`pending
      ensures pending == old(pending) - multiset{request}
    {
      pending := pending - multiset{request};
    }

    /** `await setLocale(next, namespace)` with no other call overlapping it. */
    method SetLocale(next: LocaleCode, namespace: Option<Namespace>)
      requires Valid()
      modifies this`activeLocale, this`catalog, this`currentLocale, this`notified, this`pending
      ensures Valid()
      ensures currentLocale == ResolveLocale(next) && activeLocale == currentLocale
      ensures catalog == loader(ResolveLocale(next), namespace.GetOr(DefaultNamespace))
      ensures currentCurrency == old(currentCurrency) && subscribers == old(subscribers)
      ensures pending == old(pending)
      ensures notified == old(notified) + Round(subscribers, State(ResolveLocale(next), currentCurrency))
    {
      var request := BeginSetLocale(next, namespace);
      var messages := loader(request.locale, request.namespace);
      CompleteSetLocale(request, messages);
    }

    /** `setCurrency(next)`: no validation; locale and catalog stay, subscribers are notified. */
    method SetCurrency(next: CurrencyCode)
      requires Valid()
      modifies this`currentCurrency, this`notified
      ensures Valid()
      ensures currentCurrency == next
      ensures currentLocale == old(currentLocale) && catalog == old(catalog) && subscribers == old(subscribers)
      ensures notified == old(notified) + Round(subscribers, State(currentLocale, next))
    {
      currentCurrency := next;
      Notify();
    }

    /** `onChange(listener)`: adds the listener to the set and returns its unsubscribe function. */
    method OnChange(listener: Listener) returns (unsubscribe: Unsubscriber)
      requires Valid()
      modifies this`subscribers
      ensures Valid()
      ensures subscribers == Add(old(subscribers), listener)
      ensures unsubscribe == Unsubscriber(this, listener)
    {
      subscribers := Add(subscribers, listener);
      unsubscribe := Unsubscriber(this, listener);
    }

    /** `notify()`: calls every subscriber in insertion order with the current snapshot. */
    method Notify()
      modifies this`notified
      ensures notified == old(notified) + Round(subscribers, State(currentLocale, currentCurrency))
    {
      var snapshot := State(currentLocale, currentCurrency);
      var i := 0;
      while i < |subscribers|
        invariant 0 <= i <= |subscribers|
        invariant notified == old(notified) + Round(subscribers[..i], snapshot)
      {
        RoundAppend(subscribers[..i], subscribers[i], snapshot);
        assert subscribers[..i + 1] == subscribers[..i] + [subscribers[i]];
        notified := notified + [Notification(subscribers[i], snapshot)];
        i := i + 1;
      }
      assert subscribers[..i] == subscribers;
    }
  }

  /**
   * Calling the closure `onChange` returned: `subscribers.delete(listener)` on
   * the manager it was created by, and on no other.
   */
  method Unsubscribe(unsubscribe: Unsubscriber)
    requires unsubscribe.manager.Valid()
    modifies unsubscribe.manager`subscribers
    ensures unsubscribe.manager.Valid()
    ensures unsubscribe.manager.subscribers == Delete(old(unsubscribe.manager.subscribers), unsubscribe.listener)
  {
    var m := unsubscribe.manager;
    m.subscribers := Delete(m.subscribers, unsubscribe.listener);
  }

  lemma {:induction false} RoundAppend(listeners: seq<Listener>, l: Listener, snapshot: State)
    ensures Round(listeners + [l], snapshot) == Round(listeners, snapshot) + [Notification(l, snapshot)]
  {
    if listeners != [] {
      assert (listeners + [l])[1..] == listeners[1..] + [l];
      RoundAppend(listeners[1..], l, snapshot);
    } else {
      assert listeners + [l] == [l];
    }
  }

  /**
   * Two overlapping `setLocale` calls whose loads resolve out of order: the
   * earlier call resolves last and its locale and catalog stay active,
   * although the later call was made after it.
   */
  method StaleLoadWins(m: I18n, first: LocaleCode, second: LocaleCode, namespace: Option<Namespace>,
                       firstMessages: Messages, secondMessages: Messages)
    requires m.Valid()
    modifies m
    ensures m.Valid()
    ensures m.currentLocale == m.ResolveLocale(first) && m.catalog == firstMessages
    ensures m.pending == old(m.pending)
  {
    var a := m.BeginSetLocale(first, namespace);
    var b := m.BeginSetLocale(second, namespace);
    m.CompleteSetLocale(b, secondMessages);
    m.CompleteSetLocale(a, firstMessages);
  }

  /**
   * An end-to-end run: Spanish is loaded and shown; an unsupported locale
   * falls back to English, whose catalog is fetched anew.
   */
  method Scenario() returns (m: I18n)
    ensures m.currentLocale == "en" && m.T("hello", map[], None) == "Hello"
  {
    var loader := (locale: LocaleCode, namespace: Namespace) =>
      if locale == "es" then map["hello" := "Hola"] else map["hello" := "Hello"];
    m := new I18n(["en", "es"], "en", "EUR", Some(loader), None, None);
    assert m.T("hello", map[], None) == "hello";
    m.SetLocale("es", Some("common"));
    assert m.T("hello", map[], None) == "Hola";
    m.SetLocale("fr", Some("common"));
  }
}
