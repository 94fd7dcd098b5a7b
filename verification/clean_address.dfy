/** `clean_address`: the geocoder's query text for an outlet. The name goes
    in front, one unit segment (`Lot ...,`, `Unit ...,` or `Level ...,`) is
    cut, whitespace runs become one space, and the text is made to end with
    `Malaysia`. */
module CleanAddress {
  import opened Results
  import opened Text

  // ---------------------------------------------------------------------------
  // The unit segment
  // ---------------------------------------------------------------------------

  /** `s` holds `w` at `q`, ignoring the case of letters (`w` is lower-case). */
  predicate WordAt(s: string, q: nat, w: string) {
    q + |w| <= |s| && forall k :: 0 <= k < |w| ==> ToLower(s[q + k]) == w[k]
  }

  /** The length of the unit keyword that starts at `q`, or 0 when none does.
      The keyword need not end a word: `Lotus` starts with `Lot`. */
  function KeywordAt(s: string, q: nat): (n: nat)
    ensures n == 0 || n == 3 || n == 4 || n == 5
    ensures n == 3 <==> WordAt(s, q, "lot")
    ensures n == 4 <==> WordAt(s, q, "unit")
    ensures n == 5 <==> WordAt(s, q, "level")
  {
    KeywordsExclusive(s, q);
    if WordAt(s, q, "lot") then 3
    else if WordAt(s, q, "unit") then 4
    else if WordAt(s, q, "level") then 5
    else 0
  }

  /** At most one keyword starts at any position. */
  lemma KeywordsExclusive(s: string, q: nat)
    ensures !(WordAt(s, q, "lot") && WordAt(s, q, "unit"))
    ensures !(WordAt(s, q, "lot") && WordAt(s, q, "level"))
    ensures !(WordAt(s, q, "unit") && WordAt(s, q, "level"))
  {
    if q + 1 < |s| {
      assert WordAt(s, q, "lot") ==> ToLower(s[q + 0]) == "lot"[0] && ToLower(s[q + 1]) == "lot"[1];
      assert WordAt(s, q, "unit") ==> ToLower(s[q + 0]) == "unit"[0];
      assert WordAt(s, q, "level") ==> ToLower(s[q + 0]) == "level"[0] && ToLower(s[q + 1]) == "level"[1];
    }
  }

  /** The first comma at or after `i`, or `|s|`. */
  function CommaFrom(s: string, i: nat): (c: nat)
    requires i <= |s|
    ensures i <= c <= |s|
    ensures c < |s| ==> s[c] == ','
    ensures forall k :: i <= k < c ==> s[k] != ','
    decreases |s| - i
  {
    if i == |s| || s[i] == ',' then i else CommaFrom(s, i + 1)
  }

  /** Where a segment `<keyword>[^,]+,\s*` that starts at `q` ends, if one does. */
  function SegmentAt(s: string, q: nat): (e: Option<nat>)
    requires q <= |s|
    ensures e.Some? ==> q < e.value <= |s|
    ensures e.Some? <==>
      KeywordAt(s, q) > 0 && CommaFrom(s, q + KeywordAt(s, q)) < |s| && CommaFrom(s, q + KeywordAt(s, q)) > q + KeywordAt(s, q)
    ensures e.Some? ==> forall k :: CommaFrom(s, q + KeywordAt(s, q)) < k < e.value ==> IsSpace(s[k])
    ensures e.Some? ==> e.value == |s| || !IsSpace(s[e.value])
  {
    var n := KeywordAt(s, q);
    if n == 0 then None
    else
      var c := CommaFrom(s, q + n);
      if c == |s| || c == q + n then None
      else
        SpacesSkipped(s, c + 1);
        Some(SkipSpaces(s, c + 1))
  }

  /** `SkipSpaces` passes only whitespace. */
  lemma SpacesSkipped(s: string, i: nat)
    requires i <= |s|
    ensures forall k :: i <= k < SkipSpaces(s, i) ==> IsSpace(s[k])
  {
    SkipSpacesPassed(s, i);
  }

  /** A cut: the kept prefix ends at `start`, the dropped segment runs to `end`. */
  datatype Cut = Cut(comma: nat, start: nat, end: nat)

  /** A comma at `p` after which (past any whitespace) a segment starts. */
  predicate CutsAt(s: string, p: nat) {
    p < |s| && s[p] == ',' && SegmentAt(s, SkipSpaces(s, p + 1)).Some?
  }

  /** `CutsAt` for one text, as a test on positions. */
  function CutAt(s: string): nat -> bool {
    (k: nat) => CutsAt(s, k)
  }

  /** No line break occurs from `p` up to `k`. */
  predicate SameLine(s: string, p: nat, k: nat)
    requires p <= k <= |s|
  {
    forall j :: p <= j < k ==> s[j] != '\n'
  }

  /** The lazy `^.*?` scan from `p`: the first position where `at` holds,
      looking no further than the first line break, which `.` does not
      match. */
  function LazyScan(s: string, p: nat, at: nat -> bool): (r: Option<nat>)
    requires p <= |s|
    ensures r.Some? ==> p <= r.value < |s| && at(r.value)
    decreases |s| - p
  {
    if p == |s| then None
    else if at(p) then Some(p)
    else if s[p] == '\n' then None
    else LazyScan(s, p + 1, at)
  }

  /** The position found is the earliest, and no line break precedes it. */
  lemma {:induction false} LazyScanEarliest(s: string, p: nat, at: nat -> bool)
    requires p <= |s| && LazyScan(s, p, at).Some?
    ensures SameLine(s, p, LazyScan(s, p, at).value)
    ensures forall k :: p <= k < LazyScan(s, p, at).value ==> !at(k)
    decreases |s| - p
  {
    if !at(p) {
      LazyScanEarliest(s, p + 1, at);
    }
  }

  /** A scan that finds nothing passed every position of the first line. */
  lemma {:induction false} LazyScanNone(s: string, p: nat, at: nat -> bool, k: nat)
    requires p <= k < |s| && SameLine(s, p, k) && LazyScan(s, p, at).None?
    ensures !at(k)
    decreases k - p
  {
    if p < k {
      assert s[p] != '\n';
      LazyScanNone(s, p + 1, at, k);
    }
  }

  /** The `^(.*?,\s*)` part of the match: the first comma that is followed
      by a segment, the start of that segment and its end. */
  function FindCut(s: string): (r: Option<Cut>)
    ensures r.Some? ==> r.value.comma < |s| && CutsAt(s, r.value.comma)
    ensures r.Some? ==> r.value.start == SkipSpaces(s, r.value.comma + 1)
    ensures r.Some? ==> Some(r.value.end) == SegmentAt(s, r.value.start)
    ensures r.Some? <==> LazyScan(s, 0, CutAt(s)).Some?
  {
    match LazyScan(s, 0, CutAt(s))
    case None => None
    case Some(c) =>
      var q := SkipSpaces(s, c + 1);
      Some(Cut(c, q, SegmentAt(s, q).value))
  }

  /** The cut found is the earliest: no comma before it, on its line, has a
      segment after it. */
  lemma FindCutEarliest(s: string)
    requires FindCut(s).Some?
    ensures SameLine(s, 0, FindCut(s).value.comma)
    ensures forall k :: 0 <= k < FindCut(s).value.comma ==> !CutsAt(s, k)
  {
    var c := LazyScan(s, 0, CutAt(s)).value;
    LazyScanEarliest(s, 0, CutAt(s));
    assert FindCut(s).value.comma == c;
    forall k | 0 <= k < c
      ensures !CutsAt(s, k)
    {
      assert !CutAt(s)(k);
    }
  }

  /** When no cut is found, no comma on the first line has a segment after
      it. */
  lemma FindCutNone(s: string, k: nat)
    requires k < |s| && SameLine(s, 0, k) && FindCut(s).None?
    ensures !CutsAt(s, k)
  {
    LazyScanNone(s, 0, CutAt(s), k);
  }

  /** The first `re.sub`: drop the earliest segment, keeping the text before
      it, whitespace after its comma included. */
  function DropSegment(s: string): (r: string)
    ensures FindCut(s).None? ==> r == s
    ensures FindCut(s).Some? ==>
      var c := FindCut(s).value;
      c.start < c.end <= |s| && r == s[..c.start] + s[c.end..] && |r| < |s|
  {
    match FindCut(s)
    case None => s
    case Some(c) => s[..c.start] + s[c.end..]
  }

  // ---------------------------------------------------------------------------
  // The suffix
  // ---------------------------------------------------------------------------

  /** Where `rstrip('.,')` stops keeping characters. */
  function DotCommaEnd(s: string, j: nat): (e: nat)
    requires j <= |s|
    ensures e <= j
    ensures e == 0 || (s[e - 1] != '.' && s[e - 1] != ',')
    ensures forall k :: e <= k < j ==> s[k] == '.' || s[k] == ','
    decreases j
  {
    if j > 0 && (s[j - 1] == '.' || s[j - 1] == ',') then DotCommaEnd(s, j - 1) else j
  }

  /** `s.rstrip('.,')`. */
  function TrimDotsCommas(s: string): (r: string)
    ensures |r| <= |s| && r == s[..|r|]
    ensures r == [] || (r[|r| - 1] != '.' && r[|r| - 1] != ',')
    ensures forall k :: |r| <= k < |s| ==> s[k] == '.' || s[k] == ','
  {
    s[..DotCommaEnd(s, |s|)]
  }

  /** The country every cleaned address ends with. */
  const Country: string := ", Malaysia"

  /** `s` ends with `malaysia`, ignoring the case of letters. */
  predicate EndsWithCountry(s: string) {
    |s| >= 8 && WordAt(s, |s| - 8, "malaysia")
  }

  /** The last step: keep a text that already ends with the country, otherwise
      drop trailing dots and commas and append `, Malaysia`. */
  function WithCountry(a: string): (r: string)
    ensures EndsWithCountry(r)
    ensures EndsWithCountry(a) ==> r == a
    ensures !EndsWithCountry(a) ==> r == TrimDotsCommas(a) + Country
  {
    if EndsWithCountry(a) then a
    else
      var r := TrimDotsCommas(a) + Country;
      assert r[|r| - 8..] == "Malaysia";
      r
  }

  // ---------------------------------------------------------------------------
  // The whole cleaning
  // ---------------------------------------------------------------------------

  /** `clean_address(name, raw)`. */
  function Clean(name: string, raw: string): (r: string)
    ensures EndsWithCountry(r)
    ensures NoAdjacent(r, Whitespace)
  {
    var a := Strip(name + ", " + raw);
    var b := ReplaceRuns(DropSegment(a), Whitespace, ' ');
    CountryKeepsSingleSpaces(b);
    WithCountry(b)
  }

  /** Appending the country to text without neighbouring whitespace keeps
      it so. */
  lemma CountryKeepsSingleSpaces(a: string)
    requires NoAdjacent(a, Whitespace)
    ensures NoAdjacent(WithCountry(a), Whitespace)
  {
    if !EndsWithCountry(a) {
      var t := TrimDotsCommas(a);
      forall i, j | 0 <= i && j == i + 1 && j < |t|
        ensures !(InClass(Whitespace, t[i]) && InClass(Whitespace, t[j]))
      {
        assert t[i] == a[i] && t[j] == a[j];
      }
      NoAdjacentConcat(t, Country);
    }
  }

  /** Joining two texts without neighbouring whitespace, where the second
      does not start with whitespace. */
  lemma NoAdjacentConcat(a: string, b: string)
    requires NoAdjacent(a, Whitespace) && NoAdjacent(b, Whitespace)
    requires b == [] || !IsSpace(b[0])
    ensures NoAdjacent(a + b, Whitespace)
  {
    var u := a + b;
    forall i, j | 0 <= i && j == i + 1 && j < |u|
      ensures !(InClass(Whitespace, u[i]) && InClass(Whitespace, u[j]))
    {
      if j < |a| {
        assert u[i] == a[i] && u[j] == a[j];
      } else if i >= |a| {
        assert u[i] == b[i - |a|] && u[j] == b[j - |a|];
      } else {
        assert u[j] == b[0];
      }
    }
  }

  /** No segment is cut from a text without a comma. */
  lemma NoCommaNoCut(s: string)
    requires forall k :: 0 <= k < |s| ==> s[k] != ','
    ensures DropSegment(s) == s
  {
  }

  /** At most one segment goes: what is dropped is the segment at the
      earliest comma that has one, and everything before it stays. */
  lemma OneSegmentDropped(s: string)
    requires FindCut(s).Some?
    ensures var c := FindCut(s).value;
      && StartsWith(DropSegment(s), s[..c.start])
      && EndsWith(DropSegment(s), s[c.end..])
      && KeywordAt(s, c.start) > 0
      && forall k :: 0 <= k < c.comma ==> !CutsAt(s, k)
  {
    var c := FindCut(s).value;
    FindCutEarliest(s);
    AppendEnds(s[..c.start], s[c.end..]);
  }
}
