/**
 * The `no-i18n-indirection` ESLint rule (apps/web-react/eslint-plugin-i18n.cjs):
 * its `CallExpression` visitor flags `x.t(arg, ...)` calls whose first
 * argument is a variable, a property access or a call. `context.report`
 * becomes the returned report.
 */
module NoI18nIndirection {

  import opened Wrappers

  /** The ESTree nodes the visitor looks at; every other node type is `Other`. */
  datatype Node =
    | Identifier(name: string)
    | PrivateIdentifier(name: string)
    | MemberExpression(object: Node, property: Node, computed: bool)
    | CallExpression(callee: Node, arguments: seq<Node>)
    | Literal(raw: string)
    | Other(kind: string)

  /** The node's `type` field. */
  function TypeOf(n: Node): string {
    match n
    case Identifier(_) => "Identifier"
    case PrivateIdentifier(_) => "PrivateIdentifier"
    case MemberExpression(_, _, _) => "MemberExpression"
    case CallExpression(_, _) => "CallExpression"
    case Literal(_) => "Literal"
    case Other(kind) => kind
  }

  /** The node's `name` field: only identifiers, private ones included, carry one. */
  function NameOf(n: Node): Option<string> {
    match n
    case Identifier(name) => Some(name)
    case PrivateIdentifier(name) => Some(name)
    case _ => None
  }

  /** One `context.report({ node, message })`. */
  datatype Report = Report(node: Node, message: string)

  /** The three messages share their opening and their closing example. */
  const MessageHead: string := "Avoid i18n indirection: Use literal strings instead of "
  const MessageTail: string := " in i18n.t() calls. Example: i18n.t(\"literal.id\", values, \"namespace\")"
  const VariableMessage: string := MessageHead + "variables" + MessageTail
  const PropertyMessage: string := MessageHead + "object properties" + MessageTail
  const CallMessage: string := MessageHead + "function calls" + MessageTail

  /** A call the rule inspects: callee `<anything>.t` (by property name only) with at least one argument. */
  predicate IsTranslateCall(node: Node)
    requires node.CallExpression?
  {
    node.callee.MemberExpression? && NameOf(node.callee.property) == Some("t") && |node.arguments| > 0
  }

  /** The message for each flagged first-argument type, by the `type` string. */
  function MessageFor(argType: string): Option<string> {
    if argType == "Identifier" then Some(VariableMessage)
    else if argType == "MemberExpression" then Some(PropertyMessage)
    else if argType == "CallExpression" then Some(CallMessage)
    else None
  }

  /** The visitor: at most one report, always on the first argument. */
  function CheckCallExpression(node: Node): (r: Option<Report>)
    requires node.CallExpression?
    ensures r.Some? <==> IsTranslateCall(node) && MessageFor(TypeOf(node.arguments[0])).Some?
    ensures r.Some? ==> r.value == Report(node.arguments[0], MessageFor(TypeOf(node.arguments[0])).value)
  {
    if node.callee.MemberExpression? && NameOf(node.callee.property) == Some("t") && |node.arguments| > 0 then
      var firstArg := node.arguments[0];
      if TypeOf(firstArg) == "Identifier" then Some(Report(firstArg, VariableMessage))
      else if TypeOf(firstArg) == "MemberExpression" then Some(Report(firstArg, PropertyMessage))
      else if TypeOf(firstArg) == "CallExpression" then Some(Report(firstArg, CallMessage))
      else None
    else None
  }

  /** The three messages are distinct, so a report says which pattern it found. */
  lemma MessagesDistinct()
    ensures VariableMessage != PropertyMessage && PropertyMessage != CallMessage && VariableMessage != CallMessage
  {
    var k := |MessageHead|;
    assert VariableMessage[k] == 'v' && PropertyMessage[k] == 'o' && CallMessage[k] == 'f';
  }

  /** Each of the three patterns gets its own message, reported on the argument. */
  lemma ReportsPerPattern(receiver: Node, v: string, obj: Node, prop: Node, computed: bool,
                          callee: Node, args: seq<Node>, rest: seq<Node>)
    ensures var t := MemberExpression(receiver, Identifier("t"), false);
            CheckCallExpression(CallExpression(t, [Identifier(v)] + rest)) == Some(Report(Identifier(v), VariableMessage))
            && CheckCallExpression(CallExpression(t, [MemberExpression(obj, prop, computed)] + rest))
               == Some(Report(MemberExpression(obj, prop, computed), PropertyMessage))
            && CheckCallExpression(CallExpression(t, [CallExpression(callee, args)] + rest))
               == Some(Report(CallExpression(callee, args), CallMessage))
  {
  }

  /** Literal ids are allowed, and so is every other first-argument type. */
  lemma LiteralAllowed(receiver: Node, raw: string, rest: seq<Node>)
    ensures CheckCallExpression(CallExpression(MemberExpression(receiver, Identifier("t"), false), [Literal(raw)] + rest)) == None
  {
  }

  /** The receiver is never examined: `foo.t(x)` is judged exactly like `i18n.t(x)`. */
  lemma ReceiverIgnored(a: Node, b: Node, property: Node, computed: bool, args: seq<Node>)
    ensures CheckCallExpression(CallExpression(MemberExpression(a, property, computed), args))
         == CheckCallExpression(CallExpression(MemberExpression(b, property, computed), args))
  {
  }

  /** Only the first argument matters: the ones after it never change the outcome. */
  lemma OnlyFirstArgument(callee: Node, first: Node, rest: seq<Node>)
    ensures CheckCallExpression(CallExpression(callee, [first] + rest)) == CheckCallExpression(CallExpression(callee, [first]))
  {
  }

  /**
   * The callee test reads `property.name` only, whatever `computed` says:
   * `i18n[t](x)` and `i18n.#t(x)` are inspected, `i18n['t'](x)` is not.
   */
  lemma PropertyNameOnly(receiver: Node, x: string)
    ensures CheckCallExpression(CallExpression(MemberExpression(receiver, Identifier("t"), true), [Identifier(x)])).Some?
    ensures CheckCallExpression(CallExpression(MemberExpression(receiver, PrivateIdentifier("t"), false), [Identifier(x)])).Some?
    ensures CheckCallExpression(CallExpression(MemberExpression(receiver, Literal("'t'"), true), [Identifier(x)])) == None
  {
  }

  /** Calls that are not method calls named `t`, or have no arguments, are never reported. */
  lemma OtherCallsIgnored(receiver: Node, name: string, args: seq<Node>)
    requires name != "t"
    ensures CheckCallExpression(CallExpression(Identifier("t"), args)) == None
    ensures CheckCallExpression(CallExpression(MemberExpression(receiver, Identifier(name), false), args)) == None
    ensures CheckCallExpression(CallExpression(MemberExpression(receiver, Identifier("t"), false), [])) == None
  {
  }
}
