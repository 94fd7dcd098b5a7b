/** `_reason_about_intent`: scoring the four intents from the query's words
    and the extracted entities, and picking the best one. */
module Intents {
  import opened Text
  import opened Repr
  import E = Entities

  /** What the user wants; `Error` is only ever produced by the pipeline. */
  datatype Intent = ServiceInquiry | LocationSearch | Navigation | GeneralInfo | Error

  /** The key under which the source files an intent. */
  function IntentName(i: Intent): (r: string)
    ensures r != []
  {
    match i
    case ServiceInquiry => "service_inquiry"
    case LocationSearch => "location_search"
    case Navigation => "navigation"
    case GeneralInfo => "general_info"
    case Error => "error"
  }

  /** Different intents have different keys. */
  lemma IntentNameInjective(i: Intent, j: Intent)
    requires IntentName(i) == IntentName(j)
    ensures i == j
  {
    match i
    case ServiceInquiry =>
      assert IntentName(i)[0] == 's';
    case LocationSearch =>
      assert IntentName(i)[0] == 'l';
    case Navigation =>
      assert IntentName(i)[0] == 'n';
    case GeneralInfo =>
      assert IntentName(i)[0] == 'g';
    case Error =>
      assert IntentName(i)[0] == 'e';
  }

  /** Phrases that ask for every outlet and override all other signals. */
  const ListAllPatterns: seq<string> :=
    ["list all", "show all", "all outlets", "all locations", "every outlet", "complete list"]

  /** Phrases that suggest a question about a service. */
  const InquiryKeywords: seq<string> :=
    ["allows", "allow", "support", "supports", "offer", "offers", "provide", "provides",
     "have", "has", "available", "can i", "do you", "which", "what", "where can i"]

  /** Phrases that suggest looking for a place. */
  const LocationKeywords: seq<string> := ["where", "nearest", "closest", "find", "locate", "address"]

  /** Phrases that suggest asking for directions. */
  const NavigationKeywords: seq<string> := ["direction", "how to get", "way to", "navigate", "route"]

  /** Phrases that suggest asking for general information. */
  const GeneralKeywords: seq<string> := ["list", "show", "tell me about", "information"]

  /** Some phrase of the list occurs in `s` (`any(p in s for p in pats)`). */
  predicate ContainsAny(s: string, pats: seq<string>) {
    exists i :: 0 <= i < |pats| && Contains(s, pats[i])
  }

  // Longer texts in this module are written as concatenations of short
  // literals; the pieces join into the one text of the source, and are
  // split only to keep the verifier's work on literals small.

  /** The reasoning of a "list all" request. */
  const ListAllStep := "Detected 'list all' " + "request - overriding " + "other intents"

  /** The reasoning when no rule fires. */
  const DefaultStep := "No specific intent " + "detected, defaulting " + "to general information"

  /** One scoring rule that fired: the intent it votes for, its weight, and
      the reasoning step it records. */
  datatype Rule = Rule(intent: Intent, weight: real, step: string)

  /** `[r]` when `c` holds, else nothing. */
  function When(c: bool, r: Rule): (rs: seq<Rule>)
    ensures c ==> rs == [r]
    ensures !c ==> rs == []
  {
    if c then [r] else []
  }

  /** The facts about a query that the scoring rules test. */
  datatype Signals = Signals(
    services: bool, inquiry: bool, locations: bool, times: bool,
    placeWords: bool, directions: bool, general: bool)

  /** The signals of the lower-cased query `q` and its entities. */
  function SignalsOf(q: string, e: E.Entities): (g: Signals)
    ensures g.services <==> e.services != []
    ensures g.locations <==> e.locations != []
    ensures g.times <==> e.timeReferences != []
  {
    Signals(
      e.services != [], ContainsAny(q, InquiryKeywords), e.locations != [], e.timeReferences != [],
      ContainsAny(q, LocationKeywords), ContainsAny(q, NavigationKeywords), ContainsAny(q, GeneralKeywords))
  }

  /** Every rule has a positive weight and votes for a real intent. */
  predicate Valid(rs: seq<Rule>) {
    forall i :: 0 <= i < |rs| ==> rs[i].weight > 0.0 && rs[i].intent != Error
  }

  /** Prepending a valid rule that may or may not have fired keeps a list valid. */
  lemma WhenValid(c: bool, r: Rule, rest: seq<Rule>)
    requires r.weight > 0.0 && r.intent != Error && Valid(rest)
    ensures Valid(When(c, r) + rest)
  {
    if c {
      assert forall i :: 1 <= i < |rest| + 1 ==> (When(c, r) + rest)[i] == rest[i - 1];
    }
  }

  /** The rules that fire on the given signals, in the order the source
      applies them; the three steps that describe entities are given. */
  function Fire(g: Signals, servicesStep: string, locationsStep: string, timesStep: string): (rs: seq<Rule>)
    ensures Valid(rs)
  {
    var r1 := Rule(ServiceInquiry, 0.8, servicesStep);
    var r2 := Rule(ServiceInquiry, 0.6, "Found service inquiry " + "keywords");
    var r3 := Rule(LocationSearch, 0.5, locationsStep);
    var r4 := Rule(ServiceInquiry, 0.3, timesStep);
    var r5 := Rule(LocationSearch, 0.5, "Found location search " + "keywords");
    var r6 := Rule(Navigation, 0.7, "Found navigation keywords");
    var r7 := Rule(GeneralInfo, 0.4, "Found general " + "information keywords");
    var t7 := When(g.general && !g.services, r7);
    var t6 := When(g.directions, r6) + t7;
    var t5 := When(g.placeWords && !g.services, r5) + t6;
    var t4 := When(g.times, r4) + t5;
    var t3 := When(g.locations, r3) + t4;
    var t2 := When(g.inquiry, r2) + t3;
    WhenValid(g.directions, r6, t7);
    WhenValid(g.placeWords && !g.services, r5, t6);
    WhenValid(g.times, r4, t5);
    WhenValid(g.locations, r3, t4);
    WhenValid(g.inquiry, r2, t3);
    WhenValid(g.services, r1, t2);
    When(g.services, r1) + t2
  }

  /** The rules that fire for the lower-cased query `q`. */
  function Rules(q: string, e: E.Entities): (rs: seq<Rule>)
    ensures Valid(rs)
  {
    Fire(SignalsOf(q, e),
      "Detected service " + "keywords: " + ListRepr(e.services),
      "Detected locations: " + ListRepr(e.locations),
      "Detected time references: " + ListRepr(e.timeReferences))
  }

  /** The accumulated score of intent `x`: the weights of its rules, summed
      in order. */
  function Total(rs: seq<Rule>, x: Intent): real
    decreases |rs|
  {
    if rs == [] then 0.0 else (if rs[0].intent == x then rs[0].weight else 0.0) + Total(rs[1..], x)
  }

  /** With positive weights, an intent scores above zero exactly when one of
      its rules fired. */
  lemma {:induction false} TotalPositive(rs: seq<Rule>, x: Intent)
    requires forall i :: 0 <= i < |rs| ==> rs[i].weight > 0.0
    ensures Total(rs, x) >= 0.0
    ensures Total(rs, x) > 0.0 <==> exists i :: 0 <= i < |rs| && rs[i].intent == x
    decreases |rs|
  {
    if rs != [] {
      TotalPositive(rs[1..], x);
      if exists i :: 0 <= i < |rs| && rs[i].intent == x {
        var i :| 0 <= i < |rs| && rs[i].intent == x;
        if i > 0 {
          assert rs[1..][i - 1].intent == x;
        }
      }
      if exists i :: 0 <= i < |rs| - 1 && rs[1..][i].intent == x {
        var i :| 0 <= i < |rs| - 1 && rs[1..][i].intent == x;
        assert rs[i + 1].intent == x;
      }
    }
  }

  /** Prepending a rule that may or may not have fired. */
  lemma TotalWhen(c: bool, r: Rule, rest: seq<Rule>, x: Intent)
    ensures Total(When(c, r) + rest, x) == Vote(c, r, x) + Total(rest, x)
  {
    if c {
      assert (When(c, r) + rest)[1..] == rest;
    } else {
      assert When(c, r) + rest == rest;
    }
  }

  /** `x` received a score before `y` first did. */
  predicate ScoredBefore(rs: seq<Rule>, x: Intent, y: Intent) {
    exists a :: 0 <= a < |rs| && rs[a].intent == x && forall b :: 0 <= b <= a ==> rs[b].intent != y
  }

  /** The intents that received a score, in the order they first did (the
      key order of the source's score dictionary). */
  function FirstSeen(rs: seq<Rule>): (r: seq<Intent>)
    ensures forall x :: x in r <==> exists i :: 0 <= i < |rs| && rs[i].intent == x
    ensures forall i, j :: 0 <= i < j < |r| ==> r[i] != r[j]
    ensures forall i, j :: 0 <= i < j < |r| ==> ScoredBefore(rs, r[i], r[j])
    decreases |rs|
  {
    if rs == [] then []
    else
      var init := rs[..|rs| - 1];
      var o := FirstSeen(init);
      var x := rs[|rs| - 1].intent;
      assert forall i :: 0 <= i < |init| ==> init[i] == rs[i];
      var r := if x in o then o else o + [x];
      assert forall i, j :: 0 <= i < j < |r| ==> ScoredBefore(rs, r[i], r[j]) by {
        forall i, j | 0 <= i < j < |r|
          ensures ScoredBefore(rs, r[i], r[j])
        {
          if j < |o| {
            assert ScoredBefore(init, o[i], o[j]);
            var a :| 0 <= a < |init| && init[a].intent == o[i] && forall b :: 0 <= b <= a ==> init[b].intent != o[j];
            assert rs[a].intent == o[i];
          } else {
            assert o[i] in o;
            var a :| 0 <= a < |init| && init[a].intent == o[i];
            forall b | 0 <= b <= a
              ensures rs[b].intent != x
            {
              assert init[b].intent in o;
            }
          }
        }
      }
      r
  }

  /** `max(keys, key=score)`: the first key whose score is the largest. */
  function FirstMax(cs: seq<Intent>, rs: seq<Rule>): (b: Intent)
    requires cs != []
    ensures b in cs
    ensures forall i :: 0 <= i < |cs| ==> Total(rs, cs[i]) <= Total(rs, b)
    ensures exists k :: 0 <= k < |cs| && cs[k] == b && forall j :: 0 <= j < k ==> Total(rs, cs[j]) < Total(rs, b)
    decreases |cs|
  {
    if |cs| == 1 then cs[0]
    else
      var init := cs[..|cs| - 1];
      var m := FirstMax(init, rs);
      var last := cs[|cs| - 1];
      assert forall i :: 0 <= i < |init| ==> init[i] == cs[i];
      if Total(rs, last) > Total(rs, m) then last else m
  }

  /** What the reasoning step returns. */
  datatype Classification = Classification(intent: Intent, confidence: real, reasoning: string)

  /** `min(x, 1.0)`. */
  function CapAtOne(x: real): (r: real)
    ensures r <= 1.0 && r <= x && (r == x || r == 1.0)
  {
    if x < 1.0 then x else 1.0
  }

  /** The reasoning steps of the rules that fired, in order. */
  function Steps(rs: seq<Rule>): (r: seq<string>)
    ensures |r| == |rs|
    ensures forall i :: 0 <= i < |rs| ==> r[i] == rs[i].step
  {
    seq(|rs|, i requires 0 <= i < |rs| => rs[i].step)
  }

  /** `_reason_about_intent`. */
  function Classify(query: string, e: E.Entities): (c: Classification)
    ensures c.intent != Error
    ensures 0.0 < c.confidence <= 1.0
    ensures ContainsAny(Lower(query), ListAllPatterns) ==>
      c == Classification(GeneralInfo, 0.9, ListAllStep)
    ensures !ContainsAny(Lower(query), ListAllPatterns) && Rules(Lower(query), e) == [] ==>
      c == Classification(GeneralInfo, 0.3, DefaultStep)
    ensures !ContainsAny(Lower(query), ListAllPatterns) && Rules(Lower(query), e) != [] ==>
      var rs := Rules(Lower(query), e);
      && (forall x :: Total(rs, x) <= Total(rs, c.intent))
      && c.confidence == CapAtOne(Total(rs, c.intent))
      && c.reasoning == Join(Steps(rs), " | ")
  {
    var q := Lower(query);
    if ContainsAny(q, ListAllPatterns) then Classification(GeneralInfo, 0.9, ListAllStep)
    else
      var rs := Rules(q, e);
      if rs == [] then Classification(GeneralInfo, 0.3, DefaultStep) else Pick(rs)
  }

  /** The verdict once some rule fired: the intent with the top score, that
      score capped at one, and the steps joined with `" | "`. */
  function Pick(rs: seq<Rule>): (c: Classification)
    requires Valid(rs) && rs != []
    ensures c.intent != Error
    ensures 0.0 < c.confidence <= 1.0
    ensures forall x :: Total(rs, x) <= Total(rs, c.intent)
    ensures c.confidence == CapAtOne(Total(rs, c.intent))
    ensures c.reasoning == Join(Steps(rs), " | ")
  {
    var cs := FirstSeen(rs);
    var b := FirstMax(cs, rs);
    BestBeatsAll(rs, cs, b);
    Classification(b, CapAtOne(Total(rs, b)), Join(Steps(rs), " | "))
  }

  /** The first maximum among the intents that scored beats every intent,
      scored or not, and scores above zero. */
  lemma BestBeatsAll(rs: seq<Rule>, cs: seq<Intent>, b: Intent)
    requires Valid(rs)
    requires rs != [] && cs == FirstSeen(rs)
    requires b in cs && forall i :: 0 <= i < |cs| ==> Total(rs, cs[i]) <= Total(rs, b)
    ensures forall x :: Total(rs, x) <= Total(rs, b)
    ensures Total(rs, b) > 0.0 && b != Error
  {
    TotalPositive(rs, b);
    forall x
      ensures Total(rs, x) <= Total(rs, b)
    {
      TotalPositive(rs, x);
      if Total(rs, x) > 0.0 {
        var k :| 0 <= k < |cs| && cs[k] == x;
      }
    }
  }

  /** What one rule contributes to the score of `x`. */
  function Vote(c: bool, r: Rule, x: Intent): real {
    if c && r.intent == x then r.weight else 0.0
  }

  /** The score of an intent on the given signals is the sum of the votes of
      the seven rules. */
  lemma FireTotals(g: Signals, s1: string, s3: string, s4: string, x: Intent)
    ensures Total(Fire(g, s1, s3, s4), x) ==
      Vote(g.services, Rule(ServiceInquiry, 0.8, s1), x)
      + Vote(g.inquiry, Rule(ServiceInquiry, 0.6, "Found service inquiry " + "keywords"), x)
      + Vote(g.locations, Rule(LocationSearch, 0.5, s3), x)
      + Vote(g.times, Rule(ServiceInquiry, 0.3, s4), x)
      + Vote(g.placeWords && !g.services, Rule(LocationSearch, 0.5, "Found location search " + "keywords"), x)
      + Vote(g.directions, Rule(Navigation, 0.7, "Found navigation keywords"), x)
      + Vote(g.general && !g.services, Rule(GeneralInfo, 0.4, "Found general " + "information keywords"), x)
  {
    var r1 := Rule(ServiceInquiry, 0.8, s1);
    var r2 := Rule(ServiceInquiry, 0.6, "Found service inquiry " + "keywords");
    var r3 := Rule(LocationSearch, 0.5, s3);
    var r4 := Rule(ServiceInquiry, 0.3, s4);
    var r5 := Rule(LocationSearch, 0.5, "Found location search " + "keywords");
    var r6 := Rule(Navigation, 0.7, "Found navigation keywords");
    var r7 := Rule(GeneralInfo, 0.4, "Found general " + "information keywords");
    var t7 := When(g.general && !g.services, r7);
    var t6 := When(g.directions, r6) + t7;
    var t5 := When(g.placeWords && !g.services, r5) + t6;
    var t4 := When(g.times, r4) + t5;
    var t3 := When(g.locations, r3) + t4;
    var t2 := When(g.inquiry, r2) + t3;
    TotalWhen(g.services, r1, t2, x);
    TotalWhen(g.inquiry, r2, t3, x);
    TotalWhen(g.locations, r3, t4, x);
    TotalWhen(g.times, r4, t5, x);
    TotalWhen(g.placeWords && !g.services, r5, t6, x);
    TotalWhen(g.directions, r6, t7, x);
    TotalWhen(g.general && !g.services, r7, [], x);
    assert When(g.general && !g.services, r7) + [] == t7;
  }

  /** The score of each intent for a query, in closed form. */
  lemma Totals(q: string, e: E.Entities)
    ensures var rs := Rules(q, e); var svc := e.services != [];
      && Total(rs, ServiceInquiry) ==
        (if svc then 0.8 else 0.0) + (if ContainsAny(q, InquiryKeywords) then 0.6 else 0.0)
        + (if e.timeReferences != [] then 0.3 else 0.0)
      && Total(rs, LocationSearch) ==
        (if e.locations != [] then 0.5 else 0.0) + (if ContainsAny(q, LocationKeywords) && !svc then 0.5 else 0.0)
      && Total(rs, Navigation) == (if ContainsAny(q, NavigationKeywords) then 0.7 else 0.0)
      && Total(rs, GeneralInfo) == (if ContainsAny(q, GeneralKeywords) && !svc then 0.4 else 0.0)
      && Total(rs, Error) == 0.0
  {
    var g := SignalsOf(q, e);
    var s1 := "Detected service " + "keywords: " + ListRepr(e.services);
    var s3 := "Detected locations: " + ListRepr(e.locations);
    var s4 := "Detected time references: " + ListRepr(e.timeReferences);
    FireTotals(g, s1, s3, s4, ServiceInquiry);
    FireTotals(g, s1, s3, s4, LocationSearch);
    FireTotals(g, s1, s3, s4, Navigation);
    FireTotals(g, s1, s3, s4, GeneralInfo);
    FireTotals(g, s1, s3, s4, Error);
  }

  /** Two different intents that both scored never tie, so the order in
      which the source's dictionary lists them never decides the winner. */
  lemma NoTies(q: string, e: E.Entities, x: Intent, y: Intent)
    requires x != y
    requires Total(Rules(q, e), x) > 0.0 && Total(Rules(q, e), y) > 0.0
    ensures Total(Rules(q, e), x) != Total(Rules(q, e), y)
  {
    Totals(q, e);
  }

  /** The chosen intent is the only one with the top score. */
  lemma ClassifyUnique(query: string, e: E.Entities, x: Intent)
    requires !ContainsAny(Lower(query), ListAllPatterns) && Rules(Lower(query), e) != []
    requires x != Classify(query, e).intent && Total(Rules(Lower(query), e), x) > 0.0
    ensures Total(Rules(Lower(query), e), x) < Total(Rules(Lower(query), e), Classify(query, e).intent)
  {
    var rs := Rules(Lower(query), e);
    var b := Classify(query, e).intent;
    NoTies(Lower(query), e, x, b);
  }

  /** A query in which a service was detected, and that does not ask for a
      full list, is a service inquiry. */
  lemma ServicesMeanInquiry(query: string, e: E.Entities)
    requires e.services != [] && !ContainsAny(Lower(query), ListAllPatterns)
    ensures Classify(query, e).intent == ServiceInquiry
  {
    var q := Lower(query);
    var rs := Rules(q, e);
    var b := Classify(query, e).intent;
    Totals(q, e);
    assert rs != [] by {
      TotalPositive(rs, ServiceInquiry);
    }
    assert Total(rs, ServiceInquiry) <= Total(rs, b);
  }

  /** Directions win over a place search when no service, time or place was
      detected and no service question was asked. */
  lemma NavigationWins(query: string, e: E.Entities)
    requires !ContainsAny(Lower(query), ListAllPatterns) && ContainsAny(Lower(query), NavigationKeywords)
    requires e.services == [] && e.locations == [] && e.timeReferences == []
    requires !ContainsAny(Lower(query), InquiryKeywords)
    ensures Classify(query, e).intent == Navigation
    ensures Classify(query, e).confidence == 0.7
  {
    var q := Lower(query);
    var rs := Rules(q, e);
    var b := Classify(query, e).intent;
    Totals(q, e);
    assert rs != [] by {
      TotalPositive(rs, Navigation);
    }
    assert Total(rs, Navigation) <= Total(rs, b);
  }
}
