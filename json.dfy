/**
 * Option objects and `JSON.stringify` over them, as `makeCacheKey`
 * (packages/intl-core/src/cache.ts) uses it. An options object is an ordered
 * sequence of named fields: JavaScript keeps string keys in insertion order and
 * `JSON.stringify` writes them in that order, so `{a, b}` and `{b, a}` serialise
 * differently. The parser below is the inverse the proofs use: it recovers
 * the fields from the text, which makes serialisation injective.
 */
module Json {

  import opened Wrappers

  /** The value kinds that occur in the formatting options: strings and counts of digits. */
  datatype Value = JStr(s: string) | JNum(n: nat)

  datatype Field = Field(name: string, value: Value)

  /** An object never holds two properties of the same name. */
  predicate UniqueNames(o: seq<Field>) {
    forall i, j :: 0 <= i < j < |o| ==> o[i].name != o[j].name
  }

  /** A plain options object: its fields in insertion order. */
  type Options = o: seq<Field> | UniqueNames(o) witness []

  /** The value of property `name`, if the object has one. */
  function Get(o: seq<Field>, name: string): (r: Option<Value>)
    ensures r.Some? <==> exists i :: 0 <= i < |o| && o[i].name == name
    ensures r.Some? ==> exists i :: 0 <= i < |o| && o[i] == Field(name, r.value)
  {
    if o == [] then None
    else if o[0].name == name then Some(o[0].value)
    else
      var r := Get(o[1..], name);
      assert forall i :: 1 <= i < |o| ==> o[i] == o[1..][i - 1];
      r
  }

  /**
   * Property assignment `target[f.name] = f.value`: an existing property keeps
   * its position and takes the new value, a new one goes at the end.
   */
  function Assign(t: seq<Field>, f: Field): (r: seq<Field>)
    ensures |r| == if Get(t, f.name).Some? then |t| else |t| + 1
    ensures forall i :: 0 <= i < |t| ==> r[i].name == t[i].name
    ensures Get(t, f.name).None? ==> r == t + [f]
  {
    if t == [] then [f]
    else if t[0].name == f.name then [f] + t[1..]
    else [t[0]] + Assign(t[1..], f)
  }

  /** After the assignment, property `f.name` reads `f.value` and every other property is as before. */
  lemma {:induction false} AssignGet(t: seq<Field>, f: Field, n: string)
    ensures Get(Assign(t, f), n) == if n == f.name then Some(f.value) else Get(t, n)
  {
    if t != [] && t[0].name != f.name {
      AssignGet(t[1..], f, n);
      assert Assign(t, f)[1..] == Assign(t[1..], f);
    }
  }

  /** Assignment never creates a second property of the same name. */
  lemma {:induction false} AssignUnique(t: seq<Field>, f: Field)
    requires UniqueNames(t)
    ensures UniqueNames(Assign(t, f))
  {
    if t != [] && t[0].name != f.name {
      AssignUnique(t[1..], f);
      var r := Assign(t, f);
      AssignGet(t[1..], f, t[0].name);
      assert r[1..] == Assign(t[1..], f);
      assert Get(r[1..], t[0].name).None?;
    }
  }

  /**
   * The object spread `{...target, ...source}`: the properties of `source`
   * assigned onto `target` one by one, in order.
   */
  function Spread(t: Options, s: Options): (r: Options)
    ensures |r| >= |t| && forall i :: 0 <= i < |t| ==> r[i].name == t[i].name
    decreases |s|
  {
    if s == [] then t
    else
      AssignUnique(t, s[0]);
      Spread(Assign(t, s[0]), s[1..])
  }

  /** The spread is a map union in which the right-hand operand wins. */
  lemma {:induction false} SpreadGet(t: Options, s: Options, n: string)
    ensures Get(Spread(t, s), n) == if Get(s, n).Some? then Get(s, n) else Get(t, n)
    decreases |s|
  {
    if s != [] {
      AssignUnique(t, s[0]);
      var t' := Assign(t, s[0]);
      SpreadGet(t', s[1..], n);
      AssignGet(t, s[0], n);
    }
  }

  /** `SpreadGet` for every name at once. */
  lemma SpreadGetAll(t: Options, s: Options)
    ensures forall n :: Get(Spread(t, s), n) == if Get(s, n).Some? then Get(s, n) else Get(t, n)
  {
    forall n ensures Get(Spread(t, s), n) == if Get(s, n).Some? then Get(s, n) else Get(t, n) {
      SpreadGet(t, s, n);
    }
  }

  /** When no property of `s` is already present in `t`, the spread appends `s` in its order. */
  lemma {:induction false} SpreadDisjoint(t: Options, s: Options)
    requires forall i :: 0 <= i < |s| ==> Get(t, s[i].name).None?
    ensures Spread(t, s) == t + s
    decreases |s|
  {
    if s != [] {
      AssignUnique(t, s[0]);
      var t' := Assign(t, s[0]);
      assert t' == t + [s[0]];
      forall i | 0 <= i < |s[1..]| ensures Get(t', s[1..][i].name).None? {
        AssignGet(t, s[0], s[i + 1].name);
        assert s[i + 1].name != s[0].name;
      }
      SpreadDisjoint(t', s[1..]);
      assert t' + s[1..] == t + s;
    }
  }

  // ---------------------------------------------------------------- writing

  /** `JSON.stringify` escapes the quote and the backslash inside a string. */
  function EscapeChar(c: char): string {
    if c == '"' || c == '\\' then ['\\', c] else [c]
  }

  function Escape(s: string): string {
    if s == [] then [] else EscapeChar(s[0]) + Escape(s[1..])
  }

  function Quote(s: string): string {
    "\"" + Escape(s) + "\""
  }

  predicate IsDigit(c: char) {
    '0' <= c <= '9'
  }

  function DigitChar(d: nat): (c: char)
    requires d < 10
    ensures IsDigit(c)
  {
    ('0' as int + d) as char
  }

  function DigitValue(c: char): nat
    requires IsDigit(c)
  {
    c as int - '0' as int
  }

  /** The decimal text of a non-negative integer, as `JSON.stringify` writes it. */
  function NatText(n: nat): (t: string)
    ensures |t| > 0 && forall i :: 0 <= i < |t| ==> IsDigit(t[i])
  {
    if n < 10 then [DigitChar(n)] else NatText(n / 10) + [DigitChar(n % 10)]
  }

  function ValueText(v: Value): string {
    match v
    case JStr(s) => Quote(s)
    case JNum(n) => NatText(n)
  }

  function FieldText(f: Field): string {
    Quote(f.name) + ":" + ValueText(f.value)
  }

  function FieldsText(o: seq<Field>): string
    requires |o| > 0
  {
    FieldText(o[0]) + if |o| == 1 then "" else "," + FieldsText(o[1..])
  }

  /** `JSON.stringify(options)`: the fields in order, comma-separated, in braces. */
  function Stringify(o: seq<Field>): (text: string)
    ensures |text| >= 2 && text[0] == '{' && text[|text| - 1] == '}'
  {
    if o == [] then "{}" else "{" + FieldsText(o) + "}"
  }

  // ---------------------------------------------------------------- reading

  /** Reads the body of a string literal up to its closing quote; returns the text and what follows. */
  function ParseStringBody(s: string): (r: Option<(string, string)>)
    ensures r.Some? ==> |r.value.1| < |s|
  {
    if s == [] then None
    else if s[0] == '"' then Some(([], s[1..]))
    else if s[0] == '\\' then
      if |s| < 2 then None
      else match ParseStringBody(s[2..])
        case None => None
        case Some((t, rest)) => Some(([s[1]] + t, rest))
    else match ParseStringBody(s[1..])
      case None => None
      case Some((t, rest)) => Some(([s[0]] + t, rest))
  }

  /** Reads the longest run of digits, accumulating it onto `acc`. */
  function ParseDigits(s: string, acc: nat): (r: (nat, string))
    ensures |r.1| <= |s|
    ensures |s| > 0 && IsDigit(s[0]) ==> |r.1| < |s|
  {
    if s != [] && IsDigit(s[0]) then ParseDigits(s[1..], acc * 10 + DigitValue(s[0])) else (acc, s)
  }

  function ParseValue(s: string): (r: Option<(Value, string)>)
    ensures r.Some? ==> |r.value.1| < |s|
  {
    if s != [] && s[0] == '"' then
      match ParseStringBody(s[1..])
      case None => None
      case Some((t, rest)) => Some((JStr(t), rest))
    else if s != [] && IsDigit(s[0]) then
      var (n, rest) := ParseDigits(s, 0);
      Some((JNum(n), rest))
    else None
  }

  function ParseField(s: string): (r: Option<(Field, string)>)
    ensures r.Some? ==> |r.value.1| < |s|
  {
    if s != [] && s[0] == '"' then
      match ParseStringBody(s[1..])
      case None => None
      case Some((name, rest)) =>
        if rest != [] && rest[0] == ':' then
          match ParseValue(rest[1..])
          case None => None
          case Some((v, rest')) => Some((Field(name, v), rest'))
        else None
    else None
  }

  function ParseFields(s: string): (r: Option<(seq<Field>, string)>)
    ensures r.Some? ==> |r.value.1| < |s|
    decreases |s|
  {
    match ParseField(s)
    case None => None
    case Some((f, rest)) =>
      if rest != [] && rest[0] == ',' then
        match ParseFields(rest[1..])
        case None => None
        case Some((fs, rest')) => Some(([f] + fs, rest'))
      else Some(([f], rest))
  }

  /** Reads back the text of an options object. */
  function Parse(text: string): Option<seq<Field>> {
    if text == "{}" then Some([])
    else if text != [] && text[0] == '{' then
      match ParseFields(text[1..])
      case Some((fs, rest)) => if rest == "}" then Some(fs) else None
      case None => None
    else None
  }

  // ---------------------------------------------------------------- round trip

  lemma {:induction false} EscapeRoundTrip(x: string, rest: string)
    ensures ParseStringBody(Escape(x) + "\"" + rest) == Some((x, rest))
  {
    if x == [] {
      assert Escape(x) + "\"" + rest == "\"" + rest;
    } else {
      var tail := Escape(x[1..]) + "\"" + rest;
      assert Escape(x) + "\"" + rest == EscapeChar(x[0]) + tail;
      EscapeRoundTrip(x[1..], rest);
      if x[0] == '"' || x[0] == '\\' {
        assert (['\\', x[0]] + tail)[2..] == tail;
      } else {
        assert ([x[0]] + tail)[1..] == tail;
      }
      assert [x[0]] + x[1..] == x;
    }
  }

  /** The value of a run of digits read left to right onto `acc`. */
  function DigitsValue(ds: string, acc: nat): nat
    requires forall i :: 0 <= i < |ds| ==> IsDigit(ds[i])
  {
    if ds == [] then acc else DigitsValue(ds[1..], acc * 10 + DigitValue(ds[0]))
  }

  lemma {:induction false} ParseDigitsAppend(ds: string, rest: string, acc: nat)
    requires forall i :: 0 <= i < |ds| ==> IsDigit(ds[i])
    ensures ParseDigits(ds + rest, acc) == ParseDigits(rest, DigitsValue(ds, acc))
  {
    if ds == [] {
      assert ds + rest == rest;
    } else {
      assert (ds + rest)[1..] == ds[1..] + rest;
      ParseDigitsAppend(ds[1..], rest, acc * 10 + DigitValue(ds[0]));
    }
  }

  lemma {:induction false} DigitsValueSnoc(ds: string, d: char, acc: nat)
    requires forall i :: 0 <= i < |ds| ==> IsDigit(ds[i])
    requires IsDigit(d)
    ensures DigitsValue(ds + [d], acc) == DigitsValue(ds, acc) * 10 + DigitValue(d)
  {
    if ds != [] {
      assert (ds + [d])[1..] == ds[1..] + [d];
      DigitsValueSnoc(ds[1..], d, acc * 10 + DigitValue(ds[0]));
    }
  }

  lemma {:induction false} NatTextValue(n: nat)
    ensures DigitsValue(NatText(n), 0) == n
  {
    if n >= 10 {
      NatTextValue(n / 10);
      DigitsValueSnoc(NatText(n / 10), DigitChar(n % 10), 0);
    }
  }

  lemma NatRoundTrip(n: nat, rest: string)
    requires rest == [] || !IsDigit(rest[0])
    ensures ParseValue(NatText(n) + rest) == Some((JNum(n), rest))
  {
    ParseDigitsAppend(NatText(n), rest, 0);
    NatTextValue(n);
  }

  /** A quoted string reads back as its text, leaving what follows the closing quote. */
  lemma QuoteRoundTrip(s: string, after: string)
    ensures var text := Quote(s) + after;
      text != [] && text[0] == '"' && ParseStringBody(text[1..]) == Some((s, after))
  {
    var text := Quote(s) + after;
    assert text == "\"" + (Escape(s) + "\"" + after);
    assert text[1..] == Escape(s) + "\"" + after;
    EscapeRoundTrip(s, after);
  }

  lemma ValueRoundTrip(v: Value, rest: string)
    requires rest == [] || !IsDigit(rest[0])
    ensures ParseValue(ValueText(v) + rest) == Some((v, rest))
  {
    match v
    case JStr(s) =>
      QuoteRoundTrip(s, rest);
    case JNum(n) =>
      NatRoundTrip(n, rest);
  }

  /** The steps of `ParseField`: a quoted name, a colon, a value. */
  lemma ParseFieldSteps(s: string, name: string, after: string, v: Value, rest: string)
    requires s != [] && s[0] == '"' && ParseStringBody(s[1..]) == Some((name, after))
    requires after != [] && after[0] == ':' && ParseValue(after[1..]) == Some((v, rest))
    ensures ParseField(s) == Some((Field(name, v), rest))
  {
  }

  lemma FieldRoundTrip(f: Field, rest: string)
    requires rest == [] || !IsDigit(rest[0])
    ensures ParseField(FieldText(f) + rest) == Some((f, rest))
  {
    var value := ValueText(f.value) + rest;
    var after := ":" + value;
    var text := Quote(f.name) + after;
    assert FieldText(f) + rest == text;
    QuoteRoundTrip(f.name, after);
    assert after[1..] == value;
    ValueRoundTrip(f.value, rest);
    ParseFieldSteps(text, f.name, after, f.value, rest);
  }

  /** The steps of `ParseFields` on its last field. */
  lemma ParseFieldsLast(s: string, f: Field, rest: string)
    requires ParseField(s) == Some((f, rest)) && rest != [] && rest[0] != ','
    ensures ParseFields(s) == Some(([f], rest))
  {
  }

  /** The steps of `ParseFields` on a field followed by a comma and more fields. */
  lemma ParseFieldsMore(s: string, f: Field, rest: string, fs: seq<Field>, rest': string)
    requires ParseField(s) == Some((f, rest)) && rest != [] && rest[0] == ','
    requires ParseFields(rest[1..]) == Some((fs, rest'))
    ensures ParseFields(s) == Some(([f] + fs, rest'))
  {
  }

  lemma {:induction false} FieldsRoundTrip(o: seq<Field>, rest: string)
    requires |o| > 0
    requires rest != [] && rest[0] == '}'
    ensures ParseFields(FieldsText(o) + rest) == Some((o, rest))
  {
    if |o| == 1 {
      assert FieldsText(o) + rest == FieldText(o[0]) + rest;
      FieldRoundTrip(o[0], rest);
      ParseFieldsLast(FieldText(o[0]) + rest, o[0], rest);
      assert [o[0]] == o;
    } else {
      var more := FieldsText(o[1..]) + rest;
      var comma := "," + more;
      assert FieldsText(o) + rest == FieldText(o[0]) + comma;
      FieldRoundTrip(o[0], comma);
      assert comma[1..] == more;
      FieldsRoundTrip(o[1..], rest);
      ParseFieldsMore(FieldText(o[0]) + comma, o[0], comma, o[1..], rest);
      assert [o[0]] + o[1..] == o;
    }
  }

  /** A non-empty field list is written starting with the quote of its first name. */
  lemma FieldsTextHead(o: seq<Field>)
    requires |o| > 0
    ensures |FieldsText(o)| > 0 && FieldsText(o)[0] == '"'
  {
    assert FieldText(o[0]) == "\"" + (Escape(o[0].name) + "\"" + ":" + ValueText(o[0].value));
  }

  /** The steps of `Parse` on a non-empty object. */
  lemma ParseObject(text: string, fs: seq<Field>)
    requires text != "{}" && text != [] && text[0] == '{' && ParseFields(text[1..]) == Some((fs, "}"))
    ensures Parse(text) == Some(fs)
  {
  }

  /** Reading the text back yields the same fields in the same order. */
  lemma StringifyRoundTrip(o: seq<Field>)
    ensures Parse(Stringify(o)) == Some(o)
  {
    if o != [] {
      var body := FieldsText(o) + "}";
      var text := "{" + body;
      assert Stringify(o) == text;
      FieldsRoundTrip(o, "}");
      assert text[1..] == body;
      FieldsTextHead(o);
      assert text != "{}" by { assert text[1] == '"'; }
      ParseObject(text, o);
    }
  }

  /** Two options objects serialise alike only when they have the same fields in the same order. */
  lemma StringifyInjective(a: seq<Field>, b: seq<Field>)
    requires Stringify(a) == Stringify(b)
    ensures a == b
  {
    StringifyRoundTrip(a);
    StringifyRoundTrip(b);
  }

  /** Reordering the fields changes the text: equal sets of options need not share a key. */
  lemma OrderMatters(f: Field, g: Field)
    requires f != g
    ensures Stringify([f, g]) != Stringify([g, f])
  {
    if Stringify([f, g]) == Stringify([g, f]) {
      StringifyInjective([f, g], [g, f]);
    }
  }
}
