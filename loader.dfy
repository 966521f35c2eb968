/**
 * The Vite catalog loader (apps/web-react/src/i18n/loader.ts): the shape
 * check that pulls the message object out of a dynamically imported
 * module, and the loop over the two candidate paths that never throws.
 *
 * Dynamic `import()` is an oracle from path to module value, `None`
 * standing for an import that rejects.
 */
module CatalogLoading {

  import opened Wrappers

  /** The JavaScript values a module namespace and its properties can hold. */
  datatype JsValue =
    | Undefined
    | Null
    | Bool(b: bool)
    | Number(n: int)
    | Str(s: string)
    | Function
    | Object(props: map<string, JsValue>)

  /** Truthiness, as `if (v)` and `&&` test it. */
  predicate IsTruthy(v: JsValue) {
    match v
    case Undefined => false
    case Null => false
    case Bool(b) => b
    case Number(n) => n != 0
    case Str(s) => s != ""
    case Function => true
    case Object(_) => true
  }

  /** The `typeof` operator. */
  function TypeOf(v: JsValue): string {
    match v
    case Undefined => "undefined"
    case Null => "object"
    case Bool(_) => "boolean"
    case Number(_) => "number"
    case Str(_) => "string"
    case Function => "function"
    case Object(_) => "object"
  }

  /** The test `v && typeof v === 'object'` the extractor applies at every level. */
  predicate IsObjectLike(v: JsValue) {
    IsTruthy(v) && TypeOf(v) == "object"
  }

  /** The test accepts exactly the non-null objects: not `null`, not functions. */
  lemma ObjectLikeIsObject(v: JsValue)
    ensures IsObjectLike(v) <==> v.Object?
  {
  }

  /** Property access `v.name` on an object; a missing property reads as `undefined`. */
  function Get(v: JsValue, name: string): (r: JsValue)
    ensures v.Object? && name in v.props ==> r == v.props[name]
    ensures !(v.Object? && name in v.props) ==> r == Undefined
  {
    if v.Object? && name in v.props then v.props[name] else Undefined
  }

  /** The catalog object a loader resolves to: message id to compiled message. */
  type Messages = map<string, JsValue>

  /**
   * `extractMessages(mod)`: the named export `messages` when it is an
   * object; otherwise, when `default` is an object, its `messages` when that
   * is an object and else `default` itself; otherwise null.
   */
  function ExtractMessages(mod: JsValue): (r: Option<Messages>)
    ensures r.Some? <==> mod.Object? && (Get(mod, "messages").Object? || Get(mod, "default").Object?)
    ensures Get(mod, "messages").Object? ==> r == Some(Get(mod, "messages").props)
    ensures !Get(mod, "messages").Object? && Get(mod, "default").Object? ==>
      r == Some(if Get(Get(mod, "default"), "messages").Object?
                then Get(Get(mod, "default"), "messages").props
                else Get(mod, "default").props)
  {
    ObjectLikeIsObject(mod);
    if IsObjectLike(mod) then
      var named := Get(mod, "messages");
      ObjectLikeIsObject(named);
      if IsObjectLike(named) then Some(named.props)
      else
        var defWrap := Get(mod, "default");
        ObjectLikeIsObject(defWrap);
        if IsObjectLike(defWrap) then
          var defObj := Get(defWrap, "messages");
          ObjectLikeIsObject(defObj);
          if IsObjectLike(defObj) then Some(defObj.props) else Some(defWrap.props)
        else None
    else None
  }

  /** The three module shapes the loader's `CatalogModule` type names. */
  datatype CatalogModule =
    | NamedExport(messages: Messages)
    | DefaultWrapped(messages: Messages)
    | DefaultBare(messages: Messages)

  /** The module namespace object of each shape. */
  function ModuleValue(m: CatalogModule): JsValue {
    match m
    case NamedExport(msgs) => Object(map["messages" := Object(msgs)])
    case DefaultWrapped(msgs) => Object(map["default" := Object(map["messages" := Object(msgs)])])
    case DefaultBare(msgs) => Object(map["default" := Object(msgs)])
  }

  /**
   * A bare default export is read as the catalog unless the catalog itself
   * has a message id `messages` whose compiled value is an object; then the
   * wrapped shape is assumed and that one message is returned instead.
   */
  predicate Unambiguous(m: CatalogModule) {
    m.DefaultBare? ==> !Get(Object(m.messages), "messages").Object?
  }

  /** Every unambiguous module of the declared shapes yields its own catalog. */
  lemma ExtractRecoversCatalog(m: CatalogModule)
    requires Unambiguous(m)
    ensures ExtractMessages(ModuleValue(m)) == Some(m.messages)
  {
  }

  /** The ambiguous bare default: a catalog whose id `messages` maps to an object loses everything else. */
  lemma BareDefaultMisread(inner: Messages)
    ensures var catalog := map["messages" := Object(inner), "hello" := Str("Hello")];
            ExtractMessages(ModuleValue(DefaultBare(catalog))) == Some(inner)
  {
    var catalog := map["messages" := Object(inner), "hello" := Str("Hello")];
    assert Get(Object(catalog), "messages") == Object(inner);
  }

  /** A named `messages` export wins over any `default` export. */
  lemma NamedExportWins(msgs: Messages, other: JsValue)
    ensures ExtractMessages(Object(map["messages" := Object(msgs), "default" := other])) == Some(msgs)
  {
    assert Get(Object(map["messages" := Object(msgs), "default" := other]), "messages") == Object(msgs);
  }

  /** Non-objects and objects with neither shape give null. */
  lemma NoCatalogShapes(props: map<string, JsValue>)
    requires !Get(Object(props), "messages").Object? && !Get(Object(props), "default").Object?
    ensures ExtractMessages(Null) == None && ExtractMessages(Undefined) == None
    ensures ExtractMessages(Function) == None && ExtractMessages(Str("messages")) == None
    ensures ExtractMessages(Object(props)) == None
  {
  }

  /** Dynamic `import(path)`: the module, or `None` when the import rejects. */
  type Importer = string -> Option<JsValue>

  const DefaultBasePath: string := "/src/locales"

  /** The candidate paths, `.mjs` first, then `.js`. */
  function Candidates(basePath: string, locale: string, namespace: string): (r: seq<string>)
    ensures |r| == 2 && r[0] != r[1]
    ensures r[0] == basePath + "/" + locale + "/" + namespace + ".mjs"
    ensures r[1] == basePath + "/" + locale + "/" + namespace + ".js"
  {
    var stem := basePath + "/" + locale + "/" + namespace;
    assert |stem + ".mjs"| != |stem + ".js"|;
    [stem + ".mjs", stem + ".js"]
  }

  /** One iteration of the loop: import, then extract; a rejection and a null extraction both give `None`. */
  function Attempt(importer: Importer, path: string): (r: Option<Messages>)
    ensures importer(path).None? ==> r.None?
    ensures importer(path).Some? ==> r == ExtractMessages(importer(path).value)
  {
    match importer(path)
    case None => None
    case Some(mod) => ExtractMessages(mod)
  }

  /** The first candidate that yields messages; `{}` when none does. */
  function FirstCatalog(paths: seq<string>, importer: Importer): (r: Messages)
    ensures (exists i :: 0 <= i < |paths| && Attempt(importer, paths[i]).Some? &&
               (forall j :: 0 <= j < i ==> Attempt(importer, paths[j]).None?) &&
               r == Attempt(importer, paths[i]).value)
         || ((forall j :: 0 <= j < |paths| ==> Attempt(importer, paths[j]).None?) && r == map[])
  {
    if paths == [] then map[]
    else match Attempt(importer, paths[0])
      case Some(m) => m
      case None =>
        var rest := FirstCatalog(paths[1..], importer);
        assert forall j :: 1 <= j < |paths| ==> paths[j] == paths[1..][j - 1];
        rest
  }

  /** The result is the catalog of the first successful candidate, whatever the later ones hold. */
  lemma {:induction false} FirstSuccessWins(paths: seq<string>, importer: Importer, i: nat)
    requires i < |paths| && Attempt(importer, paths[i]).Some?
    requires forall j :: 0 <= j < i ==> Attempt(importer, paths[j]).None?
    ensures FirstCatalog(paths, importer) == Attempt(importer, paths[i]).value
  {
    if i > 0 {
      assert Attempt(importer, paths[0]).None?;
      assert forall j :: 0 <= j < i - 1 ==> paths[1..][j] == paths[j + 1];
      FirstSuccessWins(paths[1..], importer, i - 1);
    }
  }

  /** When every candidate fails the loader resolves to `{}` rather than rejecting. */
  lemma {:induction false} AllFailEmpty(paths: seq<string>, importer: Importer)
    requires forall j :: 0 <= j < |paths| ==> Attempt(importer, paths[j]).None?
    ensures FirstCatalog(paths, importer) == map[]
  {
    if paths != [] {
      assert Attempt(importer, paths[0]).None?;
      assert forall j :: 0 <= j < |paths| - 1 ==> paths[1..][j] == paths[j + 1];
      AllFailEmpty(paths[1..], importer);
    }
  }

  /**
   * The function `createViteCatalogLoader(basePath)` returns, applied to
   * `(locale, namespace)`. `tried` lists the paths imported, in order.
   */
  method LoadCatalog(basePath: Option<string>, importer: Importer, locale: string, namespace: string)
    returns (messages: Messages, ghost tried: seq<string>)
    ensures messages == FirstCatalog(Candidates(basePath.GetOr(DefaultBasePath), locale, namespace), importer)
    ensures 0 < |tried| <= 2 && tried <= Candidates(basePath.GetOr(DefaultBasePath), locale, namespace)
    ensures forall j :: 0 <= j < |tried| - 1 ==> Attempt(importer, tried[j]).None?
    ensures |tried| < 2 ==> Attempt(importer, tried[|tried| - 1]).Some?
  {
    var candidates := Candidates(basePath.GetOr(DefaultBasePath), locale, namespace);
    tried := [];
    for i := 0 to |candidates|
      invariant tried == candidates[..i]
      invariant forall j :: 0 <= j < i ==> Attempt(importer, candidates[j]).None?
    {
      tried := tried + [candidates[i]];
      var mod := importer(candidates[i]);
      if mod.Some? {
        var extracted := ExtractMessages(mod.value);
        if extracted.Some? {
          FirstSuccessWins(candidates, importer, i);
          return extracted.value, tried;
        }
      }
    }
    AllFailEmpty(candidates, importer);
    return map[], tried;
  }
}
