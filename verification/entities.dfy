/** Entity extraction: the places, services, times of day and numbers a
    query mentions, found with the left-to-right, non-overlapping matching
    of `re.findall`. */
module Entities {
  import opened Results
  import opened Text
  import opened Digits
  import opened KnowledgeBase

  // ---------------------------------------------------------------------------
  // Matching primitives
  // ---------------------------------------------------------------------------

  /** `\b`: a word character on exactly one side of position `p`. */
  predicate IsBoundary(s: string, p: nat)
    requires p <= |s|
  {
    (p > 0 && IsWordChar(s[p - 1])) != (p < |s| && IsWordChar(s[p]))
  }

  /** `w` occurs in `s` at position `p`. */
  predicate StartsAt(s: string, p: nat, w: string) {
    p + |w| <= |s| && s[p..p + |w|] == w
  }

  /** `w` occurs at `p` and ends at a word boundary. */
  predicate WordAt(s: string, p: nat, w: string) {
    StartsAt(s, p, w) && IsBoundary(s, p + |w|)
  }

  /** The first alternative, in list order, that occurs at `p` and ends at a
      word boundary: `(a|b|...)\b` tried from `p`. */
  function FirstAlternative(s: string, p: nat, alts: seq<string>): (r: Option<string>)
    ensures r.Some? ==> r.value in alts && WordAt(s, p, r.value)
    ensures r.Some? ==>
      exists k :: 0 <= k < |alts| && alts[k] == r.value && forall i :: 0 <= i < k ==> !WordAt(s, p, alts[i])
    ensures r.None? ==> forall i :: 0 <= i < |alts| ==> !WordAt(s, p, alts[i])
    decreases |alts|
  {
    if alts == [] then None
    else if WordAt(s, p, alts[0]) then Some(alts[0])
    else
      var r := FirstAlternative(s, p, alts[1..]);
      assert forall i :: 1 <= i < |alts| ==> alts[i] == alts[1..][i - 1];
      r
  }

  /** The prepositions that introduce a free-form place name. */
  const Prepositions: seq<string> := ["in", "at", "near", "around"]

  /** The first preposition occurring at `p`, with no boundary required after it. */
  function PrepositionAt(s: string, p: nat, preps: seq<string>): (r: Option<string>)
    ensures r.Some? ==> r.value in preps && StartsAt(s, p, r.value)
    ensures r.None? ==> forall i :: 0 <= i < |preps| ==> !StartsAt(s, p, preps[i])
    decreases |preps|
  {
    if preps == [] then None
    else if StartsAt(s, p, preps[0]) then Some(preps[0])
    else
      var r := PrepositionAt(s, p, preps[1..]);
      assert forall i :: 1 <= i < |preps| ==> preps[i] == preps[1..][i - 1];
      r
  }

  /** The end of the run of lower-case ASCII letters starting at `i`. */
  function LowerEnd(s: string, i: nat): (j: nat)
    requires i <= |s|
    ensures i <= j <= |s|
    ensures j == |s| || !IsLower(s[j])
    ensures forall k :: i <= k < j ==> IsLower(s[k])
    decreases |s| - i
  {
    if i < |s| && IsLower(s[i]) then LowerEnd(s, i + 1) else i
  }

  /** The end of the run of ASCII digits starting at `i`. */
  function DigitEnd(s: string, i: nat): (j: nat)
    requires i <= |s|
    ensures i <= j <= |s|
    ensures j == |s| || !IsDigit(s[j])
    ensures forall k :: i <= k < j ==> IsDigit(s[k])
    decreases |s| - i
  {
    if i < |s| && IsDigit(s[i]) then DigitEnd(s, i + 1) else i
  }

  /** A character that may end a free-form place name: `\s`, `,`, `?` or `!`. */
  predicate Terminator(c: char) {
    IsSpace(c) || c == ',' || c == '?' || c == '!'
  }

  // ---------------------------------------------------------------------------
  // Patterns
  // ---------------------------------------------------------------------------

  /** The regular expressions of the extractor:
      - `NearPlace`: `\b(?:in|at|near|around)\s+([a-z\s]+?)(?:\s|$|,|\?|!)`;
      - `Phrases(alts)`: `\b(alt1|alt2|...)\b`;
      - `ClockTime`: `\b(\d{1,2})\s*(?:am|pm)\b`;
      - `Integer`: `\b(\d+)\b`. */
  datatype Pattern = NearPlace | Phrases(alts: seq<string>) | ClockTime | Integer

  /** One match: the text of the capture group and where matching resumes. */
  datatype Match = Match(capture: string, end: nat)

  /** Matching `NearPlace` at `p`. After the preposition the greedy `\s+`
      takes every whitespace character; the lazy group then takes the letter
      run up to the first terminator. When no letter run fits, the engine
      gives back one whitespace character to the group, which then needs
      the end of the text, `,`, `?` or `!` right after it; failing that, it
      gives back a second one, which always succeeds when a third whitespace
      character is left to `\s+`: the group takes the first one given back
      and the second is the terminator. */
  function NearPlaceAt(s: string, p: nat): (r: Option<Match>)
    requires p <= |s|
    ensures r.Some? ==> p < r.value.end <= |s|
  {
    if !IsBoundary(s, p) then None
    else match PrepositionAt(s, p, Prepositions)
      case None => None
      case Some(w) => PlaceAfter(s, p + |w|)
  }

  /** The part of `NearPlace` after the preposition, which ends at `q`. */
  function PlaceAfter(s: string, q: nat): (r: Option<Match>)
    requires q <= |s|
    ensures r.Some? ==> q < r.value.end <= |s|
  {
    var a := SkipSpaces(s, q);
    var e := LowerEnd(s, a);
    if a == q then None
    else if a < e && (e == |s| || Terminator(s[e])) then
      Some(Match(s[a..e], if e == |s| then e else e + 1))
    else if a - q >= 2 && (a == |s| || s[a] == ',' || s[a] == '?' || s[a] == '!') then
      Some(Match(s[a - 1..a], if a == |s| then a else a + 1))
    else if a - q >= 3 then
      Some(Match(s[a - 2..a - 1], a))
    else None
  }

  /** Matching `ClockTime` at `p`: one or, when available, two digits
      (the engine gives back the second digit only to fail again), any
      whitespace, then `am` or `pm` followed by a boundary. */
  function ClockTimeAt(s: string, p: nat): (r: Option<Match>)
    requires p <= |s|
    ensures r.Some? ==> p < r.value.end <= |s|
  {
    if !(IsBoundary(s, p) && p < |s| && IsDigit(s[p])) then None
    else
      var n := if p + 1 < |s| && IsDigit(s[p + 1]) then 2 else 1;
      var q := SkipSpaces(s, p + n);
      if (StartsAt(s, q, "am") || StartsAt(s, q, "pm")) && IsBoundary(s, q + 2) then
        Some(Match(s[p..p + n], q + 2))
      else None
  }

  /** Matching `Integer` at `p`: a maximal digit run with a boundary at both ends. */
  function IntegerAt(s: string, p: nat): (r: Option<Match>)
    requires p <= |s|
    ensures r.Some? ==> p < r.value.end <= |s|
  {
    if !(IsBoundary(s, p) && p < |s| && IsDigit(s[p])) then None
    else
      var e := DigitEnd(s, p);
      if IsBoundary(s, e) then Some(Match(s[p..e], e)) else None
  }

  /** Matching `Phrases(alts)` at `p`. */
  function PhraseAt(s: string, p: nat, alts: seq<string>): (r: Option<Match>)
    requires p <= |s|
    requires forall w :: w in alts ==> w != []
    ensures r.Some? ==> p < r.value.end <= |s|
  {
    if !IsBoundary(s, p) then None
    else match FirstAlternative(s, p, alts)
      case None => None
      case Some(w) => Some(Match(w, p + |w|))
  }

  /** Every alternative of a phrase pattern is non-empty. */
  predicate WellFormed(pat: Pattern) {
    pat.Phrases? ==> forall w :: w in pat.alts ==> w != []
  }

  /** Trying one pattern at one position. */
  function MatchAt(s: string, pat: Pattern, p: nat): (r: Option<Match>)
    requires p <= |s| && WellFormed(pat)
    ensures r.Some? ==> p < r.value.end <= |s|
  {
    match pat
    case NearPlace => NearPlaceAt(s, p)
    case Phrases(alts) => PhraseAt(s, p, alts)
    case ClockTime => ClockTimeAt(s, p)
    case Integer => IntegerAt(s, p)
  }

  /** `re.findall(pattern, s[p..])` with one group: scan left to right,
      take the capture of each match and resume after it. */
  function FindAllFrom(s: string, pat: Pattern, p: nat): seq<string>
    requires p <= |s| && WellFormed(pat)
    decreases |s| - p
  {
    if p == |s| then []
    else match MatchAt(s, pat, p)
      case Some(m) => [m.capture] + FindAllFrom(s, pat, m.end)
      case None => FindAllFrom(s, pat, p + 1)
  }

  function FindAll(s: string, pat: Pattern): seq<string>
    requires WellFormed(pat)
  {
    FindAllFrom(s, pat, 0)
  }

  /** A property of the head and of every element of the tail holds of
      every element of the list. */
  lemma ConsAll(x: string, rest: seq<string>, P: string -> bool)
    requires P(x) && forall n :: 0 <= n < |rest| ==> P(rest[n])
    ensures forall n :: 0 <= n < |[x] + rest| ==> P(([x] + rest)[n])
  {
    forall n | 0 <= n < |[x] + rest|
      ensures P(([x] + rest)[n])
    {
      if n > 0 {
        assert ([x] + rest)[n] == rest[n - 1];
      }
    }
  }

  /** Every capture of a scan is the capture of a match at some position, so
      it shares any property all such captures have. */
  lemma {:induction false} FindAllFromCaptures(s: string, pat: Pattern, p: nat, P: string -> bool)
    requires p <= |s| && WellFormed(pat)
    requires forall q :: p <= q <= |s| && MatchAt(s, pat, q).Some? ==> P(MatchAt(s, pat, q).value.capture)
    ensures forall n :: 0 <= n < |FindAllFrom(s, pat, p)| ==> P(FindAllFrom(s, pat, p)[n])
    decreases |s| - p
  {
    if p < |s| {
      var mm := MatchAt(s, pat, p);
      if mm.Some? {
        var m := mm.value;
        FindAllFromCaptures(s, pat, m.end, P);
        ConsAll(m.capture, FindAllFrom(s, pat, m.end), P);
        assert FindAllFrom(s, pat, p) == [m.capture] + FindAllFrom(s, pat, m.end);
      } else {
        FindAllFromCaptures(s, pat, p + 1, P);
        assert FindAllFrom(s, pat, p) == FindAllFrom(s, pat, p + 1);
      }
    }
  }

  /** A scan of the empty string finds nothing. */
  lemma FindAllEmpty(pat: Pattern)
    requires WellFormed(pat)
    ensures FindAll("", pat) == []
  {
  }

  // ---------------------------------------------------------------------------
  // The extractor
  // ---------------------------------------------------------------------------

  const CityPlaces: seq<string> :=
    ["kuala lumpur", "kl", "klcc", "bukit bintang", "pavilion", "mid valley", "bangsar", "mont kiara"]

  const SuburbPlaces: seq<string> :=
    ["petaling jaya", "pj", "subang", "shah alam", "damansara", "cheras", "ampang"]

  const DayParts: seq<string> := ["morning", "afternoon", "evening", "night"]

  /** `[m.strip() for m in ms if m.strip()]`. */
  function Clean(ms: seq<string>): (r: seq<string>)
    ensures forall i :: 0 <= i < |r| ==> r[i] != []
    ensures |r| <= |ms|
    decreases |ms|
  {
    if ms == [] then []
    else if Strip(ms[0]) == [] then Clean(ms[1..])
    else [Strip(ms[0])] + Clean(ms[1..])
  }

  /** Whether a service is mentioned: one of its keywords is a substring. */
  predicate Mentions(t: string, svc: Service) {
    exists w :: w in svc.keywords && Contains(t, w)
  }

  /** The keys of the mentioned services, each once, in table order. */
  function DetectServices(t: string, svcs: seq<Service>): (r: seq<string>)
    ensures forall n :: n in r <==> exists s :: s in svcs && s.name == n && Mentions(t, s)
    ensures IsSubsequence(r, Names(svcs))
    decreases |svcs|
  {
    if svcs == [] then []
    else
      var rest := DetectServices(t, svcs[1..]);
      assert forall s :: s in svcs <==> s == svcs[0] || s in svcs[1..];
      assert Names(svcs)[1..] == Names(svcs[1..]);
      if Mentions(t, svcs[0]) then
        assert Names(svcs)[0] == svcs[0].name;
        [svcs[0].name] + rest
      else rest
  }

  /** The numbers the digit captures denote. */
  function Values(ms: seq<string>): (r: seq<nat>)
    requires forall i :: 0 <= i < |ms| ==> AllDigits(ms[i])
    ensures |r| == |ms|
    ensures forall i :: 0 <= i < |ms| ==> r[i] == Value(ms[i])
  {
    seq(|ms|, i requires 0 <= i < |ms| => Value(ms[i]))
  }

  /** The most digits `int()` converts from a string: Python's default limit
      on integer string conversion. */
  const IntDigitsLimit: nat := 4300

  /** Why `int()` refuses a digit string of `n` digits. */
  function LimitMessage(n: nat): (r: string)
    ensures StartsWith(r, LimitOpening)
  {
    var r := LimitOpening + NatToString(n) + LimitClosing;
    assert r[..|LimitOpening|] == LimitOpening;
    r
  }

  // The message is written as short literals joined, to keep the verifier's
  // work on literals small.
  const LimitOpening := "Exceeds the limit " + "(4300 digits) for " + "integer string " + "conversion: value has "
  const LimitClosing := " digits; use " + "sys.set_int_max_str_" + "digits() to increase " + "the limit"

  /** `ms[i]` is the first digit string longer than the limit. */
  predicate FirstTooLong(ms: seq<string>, i: int) {
    0 <= i < |ms| && |ms[i]| > IntDigitsLimit && forall j :: 0 <= j < i ==> |ms[j]| <= IntDigitsLimit
  }

  /** `[int(n) for n in ...]`: the values of the digit captures, in order,
      or the error of the first capture longer than the limit. */
  function Numbers(ms: seq<string>): (r: Result<seq<nat>, string>)
    requires forall i :: 0 <= i < |ms| ==> AllDigits(ms[i])
    ensures r.Ok? <==> forall i :: 0 <= i < |ms| ==> |ms[i]| <= IntDigitsLimit
    ensures r.Ok? ==> |r.value| == |ms| && forall i :: 0 <= i < |ms| ==> r.value[i] == Value(ms[i])
    ensures r.Err? ==> exists i :: FirstTooLong(ms, i) && r.error == LimitMessage(|ms[i]|)
    decreases |ms|
  {
    if ms == [] then Ok([])
    else if |ms[0]| > IntDigitsLimit then Err(LimitMessage(|ms[0]|))
    else
      var rest := Numbers(ms[1..]);
      assert forall i :: 1 <= i < |ms| ==> ms[i] == ms[1..][i - 1];
      match rest
      case Err(m) =>
        var i :| FirstTooLong(ms[1..], i) && m == LimitMessage(|ms[1..][i]|);
        assert FirstTooLong(ms, i + 1);
        Err(m)
      case Ok(vs) => Ok([Value(ms[0])] + vs)
  }

  /** The phrase patterns of the extractor have no empty alternative. */
  lemma PatternsWellFormed()
    ensures WellFormed(Phrases(CityPlaces))
    ensures WellFormed(Phrases(SuburbPlaces))
    ensures WellFormed(Phrases(DayParts))
  {
  }

  /** What `_extract_entities` returns. */
  datatype Entities = Entities(
    locations: seq<string>,
    services: seq<string>,
    timeReferences: seq<string>,
    numbers: seq<nat>)

  /** The captures of `Integer` are digit strings. */
  lemma IntegerCaptures(s: string)
    ensures forall n :: 0 <= n < |FindAll(s, Integer)| ==> AllDigits(FindAll(s, Integer)[n])
  {
    forall q | 0 <= q <= |s| && MatchAt(s, Integer, q).Some?
      ensures AllDigits(MatchAt(s, Integer, q).value.capture)
    {
      var e := DigitEnd(s, q);
      var c := MatchAt(s, Integer, q).value.capture;
      assert c == s[q..e];
      forall i | 0 <= i < |c|
        ensures IsDigit(c[i])
      {
        assert c[i] == s[q + i];
      }
    }
    FindAllFromCaptures(s, Integer, 0, AllDigits);
  }

  /** What `_extract_entities` finds in a text. Places and times are matched
      on the lower-cased text, numbers on the text as given, services by
      substring. */
  function Recognised(text: string): (e: Entities)
    ensures forall n :: n in e.services <==> exists s :: s in Services && s.name == n && Mentions(Lower(text), s)
    ensures IsSubsequence(e.services, Names(Services))
    ensures forall i :: 0 <= i < |e.locations| ==> e.locations[i] != []
  {
    var t := Lower(text);
    IntegerCaptures(text);
    PatternsWellFormed();
    Entities(
      Clean(FindAll(t, NearPlace)) + Clean(FindAll(t, Phrases(CityPlaces))) + Clean(FindAll(t, Phrases(SuburbPlaces))),
      DetectServices(t, Services),
      FindAll(t, ClockTime) + FindAll(t, Phrases(DayParts)),
      Values(FindAll(text, Integer)))
  }

  /** `_extract_entities`: what `Recognised` finds, or the error `int()`
      raises when a number in the text has more digits than the limit. */
  function ExtractEntities(text: string): (r: Result<Entities, string>)
    ensures r.Ok? <==> forall n :: 0 <= n < |FindAll(text, Integer)| ==> |FindAll(text, Integer)[n]| <= IntDigitsLimit
    ensures r.Ok? ==> r.value == Recognised(text)
    ensures r.Err? ==> exists n :: FirstTooLong(FindAll(text, Integer), n) && r.error == LimitMessage(|FindAll(text, Integer)[n]|)
  {
    IntegerCaptures(text);
    match Numbers(FindAll(text, Integer))
    case Err(m) => Err(m)
    case Ok(_) => Ok(Recognised(text))
  }

  // ---------------------------------------------------------------------------
  // What the extractor can return
  // ---------------------------------------------------------------------------

  /** A non-empty run of lower-case ASCII letters. */
  predicate LowerWord(w: string) {
    w != [] && forall i :: 0 <= i < |w| ==> IsLower(w[i])
  }

  /** What a `NearPlace` capture can be: a letter run, or the single
      whitespace character the engine gives back to the group. */
  predicate NearPlaceCapture(c: string) {
    LowerWord(c) || (|c| == 1 && IsSpace(c[0]))
  }

  /** A `NearPlace` match captures a letter run or one whitespace character. */
  lemma PlaceAfterCapture(s: string, q: nat)
    requires q <= |s| && PlaceAfter(s, q).Some?
    ensures NearPlaceCapture(PlaceAfter(s, q).value.capture)
  {
    var a := SkipSpaces(s, q);
    var e := LowerEnd(s, a);
    var c := PlaceAfter(s, q).value.capture;
    if a < e && (e == |s| || Terminator(s[e])) {
      assert c == s[a..e];
      forall i | 0 <= i < |c|
        ensures IsLower(c[i])
      {
        assert c[i] == s[a + i];
      }
    } else if a - q >= 2 && (a == |s| || s[a] == ',' || s[a] == '?' || s[a] == '!') {
      SkipSpacesPassed(s, q);
      assert c == s[a - 1..a] && c[0] == s[a - 1];
    } else {
      SkipSpacesPassed(s, q);
      assert c == s[a - 2..a - 1] && c[0] == s[a - 2];
    }
  }

  /** Every `NearPlace` capture is a letter run or one whitespace character. */
  lemma NearPlaceCaptures(s: string)
    ensures forall n :: 0 <= n < |FindAll(s, NearPlace)| ==> NearPlaceCapture(FindAll(s, NearPlace)[n])
  {
    forall q | 0 <= q <= |s| && MatchAt(s, NearPlace, q).Some?
      ensures NearPlaceCapture(MatchAt(s, NearPlace, q).value.capture)
    {
      var w := PrepositionAt(s, q, Prepositions).value;
      PlaceAfterCapture(s, q + |w|);
    }
    FindAllFromCaptures(s, NearPlace, 0, NearPlaceCapture);
  }

  /** Every capture of a phrase pattern is one of its alternatives. */
  lemma PhraseCaptures(s: string, alts: seq<string>)
    requires WellFormed(Phrases(alts))
    ensures forall n :: 0 <= n < |FindAll(s, Phrases(alts))| ==> FindAll(s, Phrases(alts))[n] in alts
  {
    FindAllFromCaptures(s, Phrases(alts), 0, (c: string) => c in alts);
  }

  /** A clock-time capture: one or two ASCII digits. */
  predicate HourDigits(c: string) {
    (|c| == 1 || |c| == 2) && AllDigits(c)
  }

  /** Every `ClockTime` capture is one or two digits. */
  lemma ClockTimeCaptures(s: string)
    ensures forall n :: 0 <= n < |FindAll(s, ClockTime)| ==> HourDigits(FindAll(s, ClockTime)[n])
  {
    forall q | 0 <= q <= |s| && MatchAt(s, ClockTime, q).Some?
      ensures HourDigits(MatchAt(s, ClockTime, q).value.capture)
    {
      var c := MatchAt(s, ClockTime, q).value.capture;
      if q + 1 < |s| && IsDigit(s[q + 1]) {
        assert c == s[q..q + 2] && c[0] == s[q] && c[1] == s[q + 1];
      } else {
        assert c == s[q..q + 1] && c[0] == s[q];
      }
    }
    FindAllFromCaptures(s, ClockTime, 0, HourDigits);
  }

  /** `Strip` keeps a lower-case letter run and empties a lone whitespace
      character, so cleaning `NearPlace` captures leaves letter runs. */
  lemma {:induction false} CleanNearPlace(ms: seq<string>)
    requires forall n :: 0 <= n < |ms| ==> NearPlaceCapture(ms[n])
    ensures forall x :: x in Clean(ms) ==> LowerWord(x)
    decreases |ms|
  {
    if ms != [] {
      CleanNearPlace(ms[1..]);
      var m := ms[0];
      assert ms[1..] == ms[1..] && forall n :: 0 <= n < |ms[1..]| ==> ms[1..][n] == ms[n + 1];
      if LowerWord(m) {
        StripNoop(m);
      } else {
        assert SkipSpaces(m, 0) == 1;
      }
    }
  }

  /** Cleaning captures that are alternatives starting and ending with a
      letter keeps them as they are. */
  lemma {:induction false} CleanPhrases(ms: seq<string>, alts: seq<string>)
    requires forall i :: 0 <= i < |alts| ==> alts[i] != [] && IsLower(alts[i][0]) && IsLower(alts[i][|alts[i]| - 1])
    requires forall n :: 0 <= n < |ms| ==> ms[n] in alts
    ensures forall x :: x in Clean(ms) ==> x in alts
    decreases |ms|
  {
    if ms != [] {
      assert forall n :: 0 <= n < |ms[1..]| ==> ms[1..][n] == ms[n + 1];
      CleanPhrases(ms[1..], alts);
      var i :| 0 <= i < |alts| && alts[i] == ms[0];
      StripNoop(ms[0]);
    }
  }

  /** Every place name in the phrase tables starts and ends with a letter. */
  lemma PlacesTrimmed()
    ensures forall i :: 0 <= i < |CityPlaces| ==>
      CityPlaces[i] != [] && IsLower(CityPlaces[i][0]) && IsLower(CityPlaces[i][|CityPlaces[i]| - 1])
    ensures forall i :: 0 <= i < |SuburbPlaces| ==>
      SuburbPlaces[i] != [] && IsLower(SuburbPlaces[i][0]) && IsLower(SuburbPlaces[i][|SuburbPlaces[i]| - 1])
  {
  }

  /** The locations found after a preposition are letter runs. */
  lemma NearPlaceLocations(t: string)
    ensures forall x :: x in Clean(FindAll(t, NearPlace)) ==> LowerWord(x)
  {
    NearPlaceCaptures(t);
    CleanNearPlace(FindAll(t, NearPlace));
  }

  /** The locations found by a phrase pattern are its alternatives. */
  lemma PhraseLocations(t: string, alts: seq<string>)
    requires WellFormed(Phrases(alts))
    requires forall i :: 0 <= i < |alts| ==> alts[i] != [] && IsLower(alts[i][0]) && IsLower(alts[i][|alts[i]| - 1])
    ensures forall x :: x in Clean(FindAll(t, Phrases(alts))) ==> x in alts
  {
    PhraseCaptures(t, alts);
    CleanPhrases(FindAll(t, Phrases(alts)), alts);
  }

  /** Every extracted location is a lower-case letter run found after a
      preposition, or one of the listed place names. */
  lemma LocationsShape(text: string)
    ensures forall loc :: loc in Recognised(text).locations ==>
      LowerWord(loc) || loc in CityPlaces || loc in SuburbPlaces
  {
    var t := Lower(text);
    PatternsWellFormed();
    PlacesTrimmed();
    NearPlaceLocations(t);
    PhraseLocations(t, CityPlaces);
    PhraseLocations(t, SuburbPlaces);
  }

  /** Every time reference is the one or two digits before `am`/`pm`, or a
      part of the day; clock times come first. */
  lemma TimesShape(text: string)
    ensures forall x :: x in Recognised(text).timeReferences ==> HourDigits(x) || x in DayParts
  {
    var t := Lower(text);
    PatternsWellFormed();
    ClockTimeCaptures(t);
    PhraseCaptures(t, DayParts);
  }

  /** A subsequence of a list without repetitions has none either. */
  lemma {:induction false} SubsequenceDistinct<T>(a: seq<T>, b: seq<T>)
    requires IsSubsequence(a, b)
    requires forall i, j :: 0 <= i < j < |b| ==> b[i] != b[j]
    ensures forall i, j :: 0 <= i < j < |a| ==> a[i] != a[j]
    ensures forall x :: x in a ==> x in b
    decreases |b|
  {
    if a != [] {
      assert forall i, j :: 0 <= i < j < |b[1..]| ==> b[1..][i] != b[1..][j] by {
        forall i, j | 0 <= i < j < |b[1..]|
          ensures b[1..][i] != b[1..][j]
        {
          assert b[1..][i] == b[i + 1] && b[1..][j] == b[j + 1];
        }
      }
      if a[0] == b[0] && IsSubsequence(a[1..], b[1..]) {
        SubsequenceDistinct(a[1..], b[1..]);
        forall i, j | 0 <= i < j < |a|
          ensures a[i] != a[j]
        {
          if i == 0 {
            assert a[j] == a[1..][j - 1];
            assert a[j] in b[1..];
            var k :| 0 <= k < |b[1..]| && b[1..][k] == a[j];
            assert b[k + 1] == a[j];
          } else {
            assert a[i] == a[1..][i - 1] && a[j] == a[1..][j - 1];
          }
        }
        forall x | x in a
          ensures x in b
        {
          if x != a[0] {
            assert x in a[1..];
          }
        }
      } else {
        SubsequenceDistinct(a, b[1..]);
      }
    }
  }

  /** The service keys, in table order, have no repetitions. */
  lemma ServiceNamesDistinct()
    ensures forall i, j :: 0 <= i < j < |Names(Services)| ==> Names(Services)[i] != Names(Services)[j]
  {
  }

  /** Each service is reported at most once. */
  lemma ServicesOnce(text: string)
    ensures forall i, j :: 0 <= i < j < |Recognised(text).services| ==>
      Recognised(text).services[i] != Recognised(text).services[j]
  {
    ServiceNamesDistinct();
    SubsequenceDistinct(Recognised(text).services, Names(Services));
  }

  /** Every table keyword is non-empty. */
  lemma KeywordsNonEmpty()
    ensures forall i, j :: 0 <= i < |Services| && 0 <= j < |Services[i].keywords| ==> Services[i].keywords[j] != []
  {
  }

  /** The empty text mentions no service whose keywords are all non-empty. */
  lemma {:induction false} DetectServicesEmpty(svcs: seq<Service>)
    requires forall i, j :: 0 <= i < |svcs| && 0 <= j < |svcs[i].keywords| ==> svcs[i].keywords[j] != []
    ensures DetectServices("", svcs) == []
    decreases |svcs|
  {
    if svcs != [] {
      assert forall i :: 1 <= i < |svcs| ==> svcs[1..][i - 1] == svcs[i];
      DetectServicesEmpty(svcs[1..]);
    }
  }

  /** Empty text yields four empty lists. */
  lemma EmptyTextNoEntities()
    ensures ExtractEntities("") == Ok(Entities([], [], [], []))
  {
    PatternsWellFormed();
    KeywordsNonEmpty();
    DetectServicesEmpty(Services);
    assert Lower("") == "";
    assert FindAll("", Integer) == [];
    assert Recognised("") == Entities([], [], [], []);
    assert ExtractEntities("").Ok?;
  }
}
