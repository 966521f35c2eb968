/**
 * Locale negotiation (packages/intl-core/src/negotiate.ts): pick a supported
 * locale for a ranked list of requested locales, trying an exact match first,
 * then a match on the base language, then the fallback.
 */
module Negotiate {

  import opened Wrappers

  /** `toLowerCase` on one character; only the ASCII letters A-Z change. */
  function LowerChar(c: char): (r: char)
    ensures r == '-' <==> c == '-'
    ensures 'A' <= c <= 'Z' ==> r == (c as int + 32) as char
    ensures !('A' <= c <= 'Z') ==> r == c
  {
    if 'A' <= c <= 'Z' then (c as int + 32) as char else c
  }

  /** `toLowerCase` on a string, character by character. */
  function Lower(s: string): (r: string)
    ensures |r| == |s|
    ensures forall i :: 0 <= i < |s| ==> r[i] == LowerChar(s[i])
  {
    seq(|s|, i requires 0 <= i < |s| => LowerChar(s[i]))
  }

  /** `split('-')[0]`: the text before the first hyphen, or all of it when there is none. */
  function UpToHyphen(s: string): (r: string)
    ensures |r| <= |s| && r == s[..|r|]
    ensures '-' !in r
    ensures |r| == |s| || s[|r|] == '-'
  {
    if s == [] || s[0] == '-' then [] else [s[0]] + UpToHyphen(s[1..])
  }

  /**
   * The inner helper `baseOf`: lower-case the tag, then cut it at the first hyphen.
   * The base is the lower-cased prefix of the tag before its first hyphen.
   */
  function BaseOf(tag: string): (b: string)
    ensures |b| <= |tag|
    ensures b == Lower(tag[..|b|])
    ensures '-' !in b
    ensures |b| == |tag| || tag[|b|] == '-'
  {
    var b := UpToHyphen(Lower(tag));
    assert Lower(tag)[..|b|] == Lower(tag[..|b|]);
    b
  }

  predicate IsLowerWord(s: string) {
    forall i :: 0 <= i < |s| ==> 'a' <= s[i] <= 'z'
  }

  /** The base is the lower-cased text before the first hyphen, whatever its position `k`. */
  lemma BaseOfPrefix(tag: string, k: nat)
    requires k <= |tag| && (forall i :: 0 <= i < k ==> tag[i] != '-')
    requires k == |tag| || tag[k] == '-'
    ensures BaseOf(tag) == Lower(tag[..k])
  {
    var b := BaseOf(tag);
    forall i | 0 <= i < |b|
      ensures tag[i] != '-'
    {
      assert b[i] == LowerChar(tag[..|b|][i]);
    }
    assert |b| == k;
  }

  /** A tag whose first subtag is already a lower-case word has that word as its base. */
  lemma BaseOfLowerPrefix(tag: string, k: nat)
    requires k <= |tag| && IsLowerWord(tag[..k])
    requires k == |tag| || tag[k] == '-'
    ensures BaseOf(tag) == tag[..k]
  {
    assert forall i :: 0 <= i < k ==> tag[..k][i] == tag[i];
    BaseOfPrefix(tag, k);
  }

  /** `requestedLocales.map(baseOf)`. */
  function Bases(tags: seq<string>): (bs: seq<string>)
    ensures |bs| == |tags|
    ensures forall i :: 0 <= i < |tags| ==> bs[i] == BaseOf(tags[i])
  {
    seq(|tags|, i requires 0 <= i < |tags| => BaseOf(tags[i]))
  }

  /** The first loop: the first requested tag that is itself supported (case-sensitive). */
  function ExactMatch(requested: seq<string>, supported: seq<string>): (r: Option<string>)
    ensures r.Some? <==> exists i :: 0 <= i < |requested| && requested[i] in supported
    ensures r.Some? ==> exists i :: 0 <= i < |requested| && requested[i] == r.value
                                   && requested[i] in supported
                                   && forall j :: 0 <= j < i ==> requested[j] !in supported
  {
    if requested == [] then None
    else if requested[0] in supported then Some(requested[0])
    else
      var r := ExactMatch(requested[1..], supported);
      assert forall i :: 1 <= i < |requested| ==> requested[i] == requested[1..][i - 1];
      r
  }

  /** The second loop: the first supported tag, in supported order, whose base is requested. */
  function BaseMatch(supported: seq<string>, requestedBases: seq<string>): (r: Option<string>)
    ensures r.Some? <==> exists i :: 0 <= i < |supported| && BaseOf(supported[i]) in requestedBases
    ensures r.Some? ==> exists i :: 0 <= i < |supported| && supported[i] == r.value
                                   && BaseOf(supported[i]) in requestedBases
                                   && forall j :: 0 <= j < i ==> BaseOf(supported[j]) !in requestedBases
  {
    if supported == [] then None
    else if BaseOf(supported[0]) in requestedBases then Some(supported[0])
    else
      var r := BaseMatch(supported[1..], requestedBases);
      assert forall i :: 1 <= i < |supported| ==> supported[i] == supported[1..][i - 1];
      r
  }

  /** Which of the three stages decided the negotiation. */
  datatype Outcome = Exact(tag: string) | Base(tag: string) | Fallback

  function Negotiation(requested: seq<string>, supported: seq<string>): (r: Outcome)
    ensures r.Exact? <==> HasExact(requested, supported)
    ensures r.Exact? ==> r.tag in requested && r.tag in supported
    ensures r.Base? ==> r.tag in supported
  {
    match ExactMatch(requested, supported)
    case Some(t) => Exact(t)
    case None =>
      match BaseMatch(supported, Bases(requested))
      case Some(t) => Base(t)
      case None => Fallback
  }

  /** `negotiateLocale(requestedLocales, supportedLocales, fallbackLocale)`. */
  function NegotiateLocale(requested: seq<string>, supported: seq<string>, fallback: string): (r: string)
    ensures r in supported || r == fallback
  {
    match Negotiation(requested, supported)
    case Exact(t) => t
    case Base(t) => t
    case Fallback => fallback
  }

  ghost predicate HasExact(requested: seq<string>, supported: seq<string>) {
    exists i :: 0 <= i < |requested| && requested[i] in supported
  }

  ghost predicate HasBase(requested: seq<string>, supported: seq<string>) {
    exists i, j :: 0 <= i < |supported| && 0 <= j < |requested| && BaseOf(supported[i]) == BaseOf(requested[j])
  }

  /** An exact match is the first supported tag in requested order, and it beats any base match. */
  lemma ExactMatchWins(requested: seq<string>, supported: seq<string>, fallback: string, i: nat)
    requires i < |requested| && requested[i] in supported
    requires forall j :: 0 <= j < i ==> requested[j] !in supported
    ensures Negotiation(requested, supported) == Exact(requested[i])
    ensures NegotiateLocale(requested, supported, fallback) == requested[i]
  {
    var r := ExactMatch(requested, supported);
    assert r.Some?;
    var k :| 0 <= k < |requested| && requested[k] == r.value && requested[k] in supported
             && forall j :: 0 <= j < k ==> requested[j] !in supported;
    assert k == i;
  }

  /**
   * With no exact match, the result is the first supported tag, in supported order,
   * whose base language is the base of some requested tag.
   */
  lemma BaseMatchWhenNoExact(requested: seq<string>, supported: seq<string>, fallback: string, i: nat, j: nat)
    requires !HasExact(requested, supported)
    requires i < |supported| && j < |requested| && BaseOf(supported[i]) == BaseOf(requested[j])
    requires forall k :: 0 <= k < i ==> forall m :: 0 <= m < |requested| ==> BaseOf(supported[k]) != BaseOf(requested[m])
    ensures Negotiation(requested, supported) == Base(supported[i])
    ensures NegotiateLocale(requested, supported, fallback) == supported[i]
  {
    var bases := Bases(requested);
    assert BaseOf(supported[i]) == bases[j];
    var r := BaseMatch(supported, bases);
    assert r.Some?;
    var k :| 0 <= k < |supported| && supported[k] == r.value && BaseOf(supported[k]) in bases
             && forall m :: 0 <= m < k ==> BaseOf(supported[m]) !in bases;
    assert k == i;
  }

  /** A base is among the requested bases exactly when some requested tag has it. */
  lemma BaseRequested(requested: seq<string>, tag: string)
    ensures BaseOf(tag) in Bases(requested) <==> exists j :: 0 <= j < |requested| && BaseOf(tag) == BaseOf(requested[j])
  {
    var bases := Bases(requested);
    if BaseOf(tag) in bases {
      var j :| 0 <= j < |bases| && bases[j] == BaseOf(tag);
      assert BaseOf(tag) == BaseOf(requested[j]);
    }
  }

  /** The fallback stage is reached exactly when there is neither an exact nor a base match. */
  lemma FallbackIff(requested: seq<string>, supported: seq<string>)
    ensures Negotiation(requested, supported).Fallback?
            <==> !HasExact(requested, supported) && !HasBase(requested, supported)
  {
    var bases := Bases(requested);
    if HasBase(requested, supported) {
      var i, j :| 0 <= i < |supported| && 0 <= j < |requested| && BaseOf(supported[i]) == BaseOf(requested[j]);
      BaseRequested(requested, supported[i]);
    }
    if BaseMatch(supported, bases).Some? {
      var i :| 0 <= i < |supported| && BaseOf(supported[i]) in bases;
      BaseRequested(requested, supported[i]);
    }
  }

  /** Tags equal up to ASCII case have the same base. */
  lemma BaseCaseInsensitive(a: string, b: string)
    requires Lower(a) == Lower(b)
    ensures BaseOf(a) == BaseOf(b)
  {
  }

  /** Lower-casing twice is lower-casing once. */
  lemma LowerIdempotent(s: string)
    ensures Lower(Lower(s)) == Lower(s)
  {
    forall i | 0 <= i < |s|
      ensures Lower(Lower(s))[i] == Lower(s)[i]
    {
      assert Lower(Lower(s))[i] == LowerChar(LowerChar(s[i]));
    }
  }

  /** Lower-casing a tag first does not change its base. */
  lemma BaseOfLower(tag: string)
    ensures BaseOf(Lower(tag)) == BaseOf(tag)
  {
    LowerIdempotent(tag);
    BaseCaseInsensitive(Lower(tag), tag);
  }

  /**
   * The second loop ignores the case of the requested tags: requests equal up
   * to case, position by position, reach the same supported tag.
   */
  lemma BaseMatchCaseInsensitive(requested: seq<string>, requested': seq<string>, supported: seq<string>)
    requires |requested| == |requested'|
    requires forall i :: 0 <= i < |requested| ==> Lower(requested[i]) == Lower(requested'[i])
    ensures BaseMatch(supported, Bases(requested)) == BaseMatch(supported, Bases(requested'))
  {
    forall i | 0 <= i < |requested|
      ensures Bases(requested)[i] == Bases(requested')[i]
    {
      BaseCaseInsensitive(requested[i], requested'[i]);
    }
    assert Bases(requested) == Bases(requested');
  }

  /**
   * Exact matching is case-sensitive and base matching is not: "EN-gb" is not an
   * exact match for "en-GB", but it reaches it through the base language "en".
   */
  lemma CaseSensitivity()
    ensures Negotiation(["EN-gb"], ["en-GB"]) == Base("en-GB")
    ensures Negotiation(["en-GB"], ["en-GB"]) == Exact("en-GB")
  {
    assert "EN-gb" != "en-GB" by { assert "EN-gb"[0] != "en-GB"[0]; }
    BaseOfPrefix("EN-gb", 2);
    assert "EN-gb"[..2] == "EN";
    assert Lower("EN") == "en";
    BaseOfLowerPrefix("en-GB", 2);
    assert "en-GB"[..2] == "en";
    BaseMatchWhenNoExact(["EN-gb"], ["en-GB"], "en", 0, 0);
    ExactMatchWins(["en-GB"], ["en-GB"], "en", 0);
  }

  /** A regional request reaches the supported base language: `['es-MX']` against `['en', 'es']` gives `'es'`. */
  lemma ExampleBaseMatch()
    ensures NegotiateLocale(["es-MX"], ["en", "es"], "en") == "es"
  {
    assert "es-MX" != "en" && "es-MX" != "es";
    BaseOfLowerPrefix("es-MX", 2);
    BaseOfLowerPrefix("en", 2);
    BaseOfLowerPrefix("es", 2);
    assert "es-MX"[..2] == "es" && "en"[..2] == "en" && "es"[..2] == "es";
    BaseMatchWhenNoExact(["es-MX"], ["en", "es"], "en", 1, 0);
  }

  /** A request with no match gets the fallback: `['fr']` against `['en', 'es']` gives `'en'`. */
  lemma ExampleFallback()
    ensures NegotiateLocale(["fr"], ["en", "es"], "en") == "en"
  {
    assert "fr" != "en" by { assert "fr"[0] != "en"[0]; }
    assert "fr" != "es" by { assert "fr"[0] != "es"[0]; }
    assert ExactMatch(["fr"], ["en", "es"]).None? by {
      assert ["fr"][0] !in ["en", "es"];
    }
    BaseOfLowerPrefix("fr", 2);
    BaseOfLowerPrefix("en", 2);
    BaseOfLowerPrefix("es", 2);
    assert "fr"[..2] == "fr" && "en"[..2] == "en" && "es"[..2] == "es";
    var bases := Bases(["fr"]);
    assert bases == ["fr"];
    assert BaseMatch(["en", "es"], bases).None? by {
      assert BaseOf(["en", "es"][0]) !in bases;
      assert BaseOf(["en", "es"][1]) !in bases;
    }
  }

  /** The first requested tag that is supported wins: `['es-ES', 'en']` against `['en', 'es-ES']` gives `'es-ES'`. */
  lemma ExampleExactFirst()
    ensures NegotiateLocale(["es-ES", "en"], ["en", "es-ES"], "en") == "es-ES"
  {
    ExactMatchWins(["es-ES", "en"], ["en", "es-ES"], "en", 0);
  }
}
