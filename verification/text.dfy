/** Character classes and the string primitives the pipeline is built from:
    case mapping, substring tests, whitespace trimming, run replacement
    (the `re.sub(r'<class>+', c, s)` idiom), splitting and joining.

    Whitespace is exactly the set Python's `str.isspace()` accepts, which is
    also what `\s`, `str.split()` and `str.strip()` use. Letters, digits and
    case mapping are ASCII only. */
module Text {

  // ---------------------------------------------------------------------------
  // Character classes
  // ---------------------------------------------------------------------------

  predicate IsSpace(c: char) {
    || c == ' '
    || ('\t' <= c <= '\r')
    || ('\U{1C}' <= c <= '\U{1F}')
    || c == '\U{85}' || c == '\U{A0}' || c == '\U{1680}'
    || ('\U{2000}' <= c <= '\U{200A}')
    || c == '\U{2028}' || c == '\U{2029}' || c == '\U{202F}'
    || c == '\U{205F}' || c == '\U{3000}'
  }

  predicate IsUpper(c: char) { 'A' <= c <= 'Z' }
  predicate IsLower(c: char) { 'a' <= c <= 'z' }
  predicate IsDigit(c: char) { '0' <= c <= '9' }
  predicate IsAlpha(c: char) { IsUpper(c) || IsLower(c) }
  predicate IsAlnum(c: char) { IsAlpha(c) || IsDigit(c) }

  /** The `\w` class: letters, digits and the underscore. */
  predicate IsWordChar(c: char) { IsAlnum(c) || c == '_' }

  function ToLower(c: char): (d: char)
    ensures !IsUpper(d)
    ensures IsAlpha(c) <==> IsAlpha(d)
    ensures IsWordChar(c) <==> IsWordChar(d)
    ensures !IsUpper(c) ==> d == c
  {
    if IsUpper(c) then (c as int + 32) as char else c
  }

  function ToUpper(c: char): (d: char)
    ensures !IsLower(d)
    ensures IsAlpha(c) <==> IsAlpha(d)
    ensures IsAlnum(c) <==> IsAlnum(d)
    ensures !IsLower(c) ==> d == c
    ensures ToLower(d) == ToLower(c)
  {
    if IsLower(c) then (c as int - 32) as char else c
  }

  /** `str.lower()` on the ASCII letters. */
  function Lower(s: string): (r: string)
    ensures |r| == |s|
    ensures forall i :: 0 <= i < |s| ==> r[i] == ToLower(s[i])
  {
    seq(|s|, i requires 0 <= i < |s| => ToLower(s[i]))
  }

  /** `str.upper()` on the ASCII letters. */
  function Upper(s: string): (r: string)
    ensures |r| == |s|
    ensures forall i :: 0 <= i < |s| ==> r[i] == ToUpper(s[i])
  {
    seq(|s|, i requires 0 <= i < |s| => ToUpper(s[i]))
  }

  // ---------------------------------------------------------------------------
  // Prefixes, suffixes and substrings
  // ---------------------------------------------------------------------------

  predicate StartsWith(s: string, p: string) {
    |p| <= |s| && s[..|p|] == p
  }

  predicate EndsWith(s: string, p: string) {
    |p| <= |s| && s[|s| - |p|..] == p
  }

  /** A concatenation starts with its first part and ends with its second. */
  lemma AppendEnds(a: string, b: string)
    ensures StartsWith(a + b, a) && EndsWith(a + b, b)
  {
    assert (a + b)[..|a|] == a;
    assert (a + b)[|a + b| - |b|..] == b;
  }

  /** A prefix of a prefix is a prefix. */
  lemma PrefixOfPrefix(s: string, m: string, p: string)
    requires StartsWith(s, m) && StartsWith(m, p)
    ensures StartsWith(s, p)
  {
    assert s[..|p|] == s[..|m|][..|p|];
  }

  /** Putting the same text in front keeps a prefix a prefix. */
  lemma PrefixBoth(a: string, s: string, p: string)
    requires StartsWith(s, p)
    ensures StartsWith(a + s, a + p)
  {
    assert (a + s)[..|a + p|] == a + s[..|p|];
  }

  /** A joined list starts with whatever its first item starts with. */
  lemma JoinStart(ws: seq<string>, sep: string, p: string)
    requires ws != [] && StartsWith(ws[0], p)
    ensures StartsWith(Join(ws, sep), p)
  {
    if |ws| > 1 {
      JoinCons(ws[0], ws[1..], sep);
      assert ws == [ws[0]] + ws[1..];
      AppendEnds(ws[0], sep + Join(ws[1..], sep));
      assert Join(ws, sep) == ws[0] + (sep + Join(ws[1..], sep));
      PrefixOfPrefix(Join(ws, sep), ws[0], p);
    }
  }

  /** Python's `p in s` for strings. */
  predicate Contains(s: string, p: string)
    decreases |s|
  {
    StartsWith(s, p) || (s != [] && Contains(s[1..], p))
  }

  /** `p` occurs in `s` starting at index `i`. */
  predicate OccursAt(s: string, p: string, i: nat) {
    i + |p| <= |s| && s[i..i + |p|] == p
  }

  /** `Contains` holds exactly when `p` occurs at some position of `s`. */
  lemma {:induction false} ContainsIff(s: string, p: string)
    ensures Contains(s, p) <==> exists i: nat :: OccursAt(s, p, i)
    decreases |s|
  {
    if s != [] {
      ContainsIff(s[1..], p);
      if Contains(s[1..], p) {
        var i: nat :| OccursAt(s[1..], p, i);
        assert s[i + 1..i + 1 + |p|] == s[1..][i..i + |p|];
        assert OccursAt(s, p, i + 1);
      }
      forall i: nat | OccursAt(s, p, i) && i >= 1
        ensures Contains(s[1..], p)
      {
        assert s[1..][i - 1..i - 1 + |p|] == s[i..i + |p|];
        assert OccursAt(s[1..], p, i - 1);
      }
      if StartsWith(s, p) {
        assert OccursAt(s, p, 0);
      }
    } else {
      if StartsWith(s, p) {
        assert OccursAt(s, p, 0);
      }
    }
  }

  /** An occurrence at a known position. */
  lemma ContainsAt(s: string, p: string, i: nat)
    requires OccursAt(s, p, i)
    ensures Contains(s, p)
  {
    ContainsIff(s, p);
  }

  /** An occurrence inside a part is an occurrence inside the whole. */
  lemma ContainsInConcat(a: string, b: string, c: string, p: string)
    requires Contains(b, p)
    ensures Contains(a + b + c, p)
  {
    ContainsIff(b, p);
    var i: nat :| OccursAt(b, p, i);
    assert (a + b + c)[|a| + i..|a| + i + |p|] == b[i..i + |p|];
    ContainsAt(a + b + c, p, |a| + i);
  }

  /** A short needle cannot occur in a shorter haystack, nor a needle longer than it. */
  lemma {:induction false} ContainsLength(s: string, p: string)
    requires Contains(s, p)
    ensures |p| <= |s|
    decreases |s|
  {
    if !StartsWith(s, p) {
      ContainsLength(s[1..], p);
    }
  }

  /** Cutting a string around one of its characters. */
  lemma Splice(s: string, k: nat)
    requires k < |s|
    ensures s == s[..k] + [s[k]] + s[k + 1..]
  {
  }

  /** The head and tail of a concatenation with a non-empty left part. */
  lemma ConcatTail(a: string, b: string)
    requires a != []
    ensures (a + b)[0] == a[0] && (a + b)[1..] == a[1..] + b
  {
  }

  // ---------------------------------------------------------------------------
  // Runs of a character class
  // ---------------------------------------------------------------------------

  /** The two character classes whose runs the system rewrites: `\s` and `[^A-Za-z0-9]`. */
  datatype CharClass = Whitespace | NotAlnum

  predicate InClass(k: CharClass, c: char) {
    match k
    case Whitespace => IsSpace(c)
    case NotAlnum => !IsAlnum(c)
  }

  /** No two neighbouring characters both belong to the class. */
  ghost predicate NoAdjacent(s: string, k: CharClass) {
    forall i, j :: 0 <= i && j == i + 1 && j < |s| ==> !(InClass(k, s[i]) && InClass(k, s[j]))
  }

  /** The suffix left after dropping the leading run of class characters. */
  function SkipRun(s: string, k: CharClass): (r: string)
    ensures |r| <= |s| && r == s[|s| - |r|..]
    ensures r == [] || !InClass(k, r[0])
    ensures r == [] && s != [] ==> InClass(k, s[|s| - 1])
    decreases |s|
  {
    if s != [] && InClass(k, s[0]) then
      var r := SkipRun(s[1..], k);
      assert r == [] && s[1..] != [] ==> s[|s| - 1] == s[1..][|s[1..]| - 1];
      r
    else s
  }

  /** Putting one character in front keeps `NoAdjacent` when the seam is fine. */
  lemma NoAdjacentCons(x: char, t: string, k: CharClass)
    requires NoAdjacent(t, k)
    requires t == [] || !(InClass(k, x) && InClass(k, t[0]))
    ensures NoAdjacent([x] + t, k)
  {
    var u := [x] + t;
    forall i, j | 0 <= i && j == i + 1 && j < |u|
      ensures !(InClass(k, u[i]) && InClass(k, u[j]))
    {
      if i > 0 {
        assert u[i] == t[i - 1] && u[j] == t[j - 1];
      }
    }
  }

  /** A character outside the class is kept and the rest is replaced on. */
  lemma ReplaceRunsKeep(s: string, k: CharClass, rep: char)
    requires s != [] && !InClass(k, s[0])
    ensures ReplaceRuns(s, k, rep) == [s[0]] + ReplaceRuns(s[1..], k, rep)
  {
  }

  /** Python's `re.sub(r'<class>+', rep, s)`: every maximal run of class
      characters becomes the single character `rep`. */
  function ReplaceRuns(s: string, k: CharClass, rep: char): (r: string)
    ensures (r == []) <==> (s == [])
    ensures s != [] ==> r[0] == (if InClass(k, s[0]) then rep else s[0])
    ensures s != [] ==> r[|r| - 1] == (if InClass(k, s[|s| - 1]) then rep else s[|s| - 1])
    ensures InClass(k, rep) ==> NoAdjacent(r, k)
    decreases |s|
  {
    if s == [] then []
    else if InClass(k, s[0]) then
      var rest := SkipRun(s[1..], k);
      var tail := ReplaceRuns(rest, k, rep);
      assert rest != [] ==> rest[|rest| - 1] == s[|s| - 1];
      assert rest == [] ==> InClass(k, s[|s| - 1]);
      assert InClass(k, rep) ==> NoAdjacent([rep] + tail, k) by {
        if InClass(k, rep) {
          NoAdjacentCons(rep, tail, k);
        }
      }
      [rep] + tail
    else
      var tail := ReplaceRuns(s[1..], k, rep);
      assert s[1..] != [] ==> s[1..][|s[1..]| - 1] == s[|s| - 1];
      assert InClass(k, rep) ==> NoAdjacent([s[0]] + tail, k) by {
        if InClass(k, rep) {
          NoAdjacentCons(s[0], tail, k);
        }
      }
      [s[0]] + tail
  }

  /** Every character of the result is `rep` or a character of the input outside the class. */
  lemma {:induction false} ReplaceRunsChars(s: string, k: CharClass, rep: char, keep: char -> bool)
    requires keep(rep)
    requires forall i :: 0 <= i < |s| && !InClass(k, s[i]) ==> keep(s[i])
    ensures forall i :: 0 <= i < |ReplaceRuns(s, k, rep)| ==> keep(ReplaceRuns(s, k, rep)[i])
    decreases |s|
  {
    if s != [] {
      var r := ReplaceRuns(s, k, rep);
      if InClass(k, s[0]) {
        var rest := SkipRun(s[1..], k);
        forall i | 0 <= i < |rest| && !InClass(k, rest[i])
          ensures keep(rest[i])
        {
          assert rest[i] == s[|s| - |rest| + i];
        }
        ReplaceRunsChars(rest, k, rep, keep);
        assert r == [rep] + ReplaceRuns(rest, k, rep);
      } else {
        forall i | 0 <= i < |s[1..]| && !InClass(k, s[1..][i])
          ensures keep(s[1..][i])
        {
          assert s[1..][i] == s[i + 1];
        }
        ReplaceRunsChars(s[1..], k, rep, keep);
        assert r == [s[0]] + ReplaceRuns(s[1..], k, rep);
      }
      forall i | 0 <= i < |r|
        ensures keep(r[i])
      {
        if i > 0 {
          assert r[i] == r[1..][i - 1];
        }
      }
    }
  }

  /** The hypotheses of `ReplaceRunsIdentity` carry over to the tail. */
  lemma IdentityTail(s: string, k: CharClass, rep: char)
    requires s != []
    requires forall i :: 0 <= i < |s| && InClass(k, s[i]) ==> s[i] == rep
    requires NoAdjacent(s, k)
    ensures forall i :: 0 <= i < |s[1..]| && InClass(k, s[1..][i]) ==> s[1..][i] == rep
    ensures NoAdjacent(s[1..], k)
    ensures InClass(k, s[0]) ==> SkipRun(s[1..], k) == s[1..]
  {
    var t := s[1..];
    forall i | 0 <= i < |t| && InClass(k, t[i])
      ensures t[i] == rep
    {
      assert t[i] == s[i + 1];
    }
    forall i, j | 0 <= i && j == i + 1 && j < |t|
      ensures !(InClass(k, t[i]) && InClass(k, t[j]))
    {
      assert t[i] == s[i + 1] && t[j] == s[j + 1];
    }
    if InClass(k, s[0]) && t != [] {
      assert t[0] == s[1];
    }
  }

  /** A string whose class characters are already single `rep`s is left alone. */
  lemma {:induction false} ReplaceRunsIdentity(s: string, k: CharClass, rep: char)
    requires forall i :: 0 <= i < |s| && InClass(k, s[i]) ==> s[i] == rep
    requires NoAdjacent(s, k)
    ensures ReplaceRuns(s, k, rep) == s
    decreases |s|
  {
    if s != [] {
      IdentityTail(s, k, rep);
      ReplaceRunsIdentity(s[1..], k, rep);
      assert s == [s[0]] + s[1..];
    }
  }

  // ---------------------------------------------------------------------------
  // Whitespace: collapsing, trimming, splitting
  // ---------------------------------------------------------------------------

  /** `re.sub(r'\s+', ' ', s)`. */
  function Collapse(s: string): string {
    ReplaceRuns(s, Whitespace, ' ')
  }

  /** The end of `s[..j]` once its trailing whitespace is dropped. */
  function TrimEnd(s: string, j: nat): (e: nat)
    requires j <= |s|
    ensures e <= j
    ensures e == 0 || !IsSpace(s[e - 1])
    decreases j
  {
    if j > 0 && IsSpace(s[j - 1]) then TrimEnd(s, j - 1) else j
  }

  /** Where `str.strip()` starts keeping characters. */
  function StripStart(s: string): nat {
    SkipSpaces(s, 0)
  }

  /** Where `str.strip()` stops keeping characters. */
  function StripEnd(s: string): (e: nat)
    ensures StripStart(s) <= e <= |s|
    ensures StripStart(s) < e ==> !IsSpace(s[e - 1])
  {
    var a := SkipSpaces(s, 0);
    if a == |s| then a
    else
      TrimEndKeeps(s, |s|, a);
      TrimEnd(s, |s|)
  }

  /** `TrimEnd` never drops a non-space character. */
  lemma {:induction false} TrimEndKeeps(s: string, j: nat, a: nat)
    requires a < j <= |s| && !IsSpace(s[a])
    ensures a < TrimEnd(s, j)
    decreases j
  {
    if IsSpace(s[j - 1]) {
      TrimEndKeeps(s, j - 1, a);
    }
  }

  /** `str.strip()`: `s` without leading and trailing whitespace. */
  function Strip(s: string): (r: string)
    ensures r == s[StripStart(s)..StripEnd(s)]
    ensures r == [] || (!IsSpace(r[0]) && !IsSpace(r[|r| - 1]))
  {
    s[StripStart(s)..StripEnd(s)]
  }

  /** Everything `SkipSpaces` passes over is whitespace. */
  lemma {:induction false} SkipSpacesPassed(s: string, i: nat)
    requires i <= |s|
    ensures forall k :: i <= k < SkipSpaces(s, i) ==> IsSpace(s[k])
    decreases |s| - i
  {
    if i < |s| && IsSpace(s[i]) {
      SkipSpacesPassed(s, i + 1);
    }
  }

  /** Everything `TrimEnd` drops is whitespace. */
  lemma {:induction false} TrimEndDropped(s: string, j: nat)
    requires j <= |s|
    ensures forall k :: TrimEnd(s, j) <= k < j ==> IsSpace(s[k])
    decreases j
  {
    if j > 0 && IsSpace(s[j - 1]) {
      TrimEndDropped(s, j - 1);
    }
  }

  /** `Strip` removes only whitespace: the characters before and after the
      kept part are all whitespace. */
  lemma StripDropsSpace(s: string)
    ensures forall k :: 0 <= k < StripStart(s) ==> IsSpace(s[k])
    ensures forall k :: StripEnd(s) <= k < |s| ==> IsSpace(s[k])
  {
    SkipSpacesPassed(s, 0);
    TrimEndDropped(s, |s|);
  }

  /** A string with no whitespace at either end is its own `Strip`. */
  lemma StripNoop(s: string)
    requires s == [] || (!IsSpace(s[0]) && !IsSpace(s[|s| - 1]))
    ensures Strip(s) == s
  {
    if s != [] {
      assert SkipSpaces(s, 0) == 0;
      assert TrimEnd(s, |s|) == |s|;
    }
  }

  /** Whitespace is only single `' '` characters between non-space characters:
      the shape `' '.join(s.split())` produces. */
  ghost predicate SingleSpaced(s: string) {
    && (forall i :: 0 <= i < |s| && IsSpace(s[i]) ==> s[i] == ' ')
    && NoAdjacent(s, Whitespace)
    && (s == [] || (!IsSpace(s[0]) && !IsSpace(s[|s| - 1])))
  }

  /** The first index at or after `i` that is not whitespace, or `|s|`. */
  function SkipSpaces(s: string, i: nat): (j: nat)
    requires i <= |s|
    ensures i <= j <= |s|
    ensures j == |s| || !IsSpace(s[j])
    decreases |s| - i
  {
    if i < |s| && IsSpace(s[i]) then SkipSpaces(s, i + 1) else i
  }

  /** The first index at or after `i` that is whitespace, or `|s|`. */
  function WordEnd(s: string, i: nat): (j: nat)
    requires i <= |s|
    ensures i <= j <= |s|
    ensures j == |s| || IsSpace(s[j])
    decreases |s| - i
  {
    if i < |s| && !IsSpace(s[i]) then WordEnd(s, i + 1) else i
  }

  /** The whitespace-separated words of `s[i..]`. */
  function SplitFrom(s: string, i: nat): seq<string>
    requires i <= |s|
    decreases |s| - i
  {
    var a := SkipSpaces(s, i);
    if a == |s| then []
    else
      var b := WordEnd(s, a);
      assert a < b by { assert !IsSpace(s[a]); }
      [s[a..b]] + SplitFrom(s, b)
  }

  /** `str.split()` with no separator: the maximal runs of non-space characters. */
  function Split(s: string): seq<string> {
    SplitFrom(s, 0)
  }

  /** A non-empty string without whitespace. */
  ghost predicate IsWord(w: string) {
    w != [] && forall j :: 0 <= j < |w| ==> !IsSpace(w[j])
  }

  /** The characters between `i` and `WordEnd(s, i)` are not whitespace. */
  lemma {:induction false} WordEndNoSpace(s: string, i: nat)
    requires i <= |s|
    ensures forall k :: i <= k < WordEnd(s, i) ==> !IsSpace(s[k])
    decreases |s| - i
  {
    if i < |s| && !IsSpace(s[i]) {
      WordEndNoSpace(s, i + 1);
    }
  }

  /** Every piece `SplitFrom` returns is a word. */
  lemma {:induction false} SplitFromWords(s: string, i: nat)
    requires i <= |s|
    ensures forall n :: 0 <= n < |SplitFrom(s, i)| ==> IsWord(SplitFrom(s, i)[n])
    decreases |s| - i
  {
    var a := SkipSpaces(s, i);
    if a < |s| {
      var b := WordEnd(s, a);
      var w := s[a..b];
      WordEndNoSpace(s, a);
      forall j | 0 <= j < |w|
        ensures !IsSpace(w[j])
      {
        assert w[j] == s[a + j];
      }
      SplitFromWords(s, b);
      var r := SplitFrom(s, i);
      assert r == [w] + SplitFrom(s, b);
      forall n | 0 <= n < |r|
        ensures IsWord(r[n])
      {
        if n > 0 {
          assert r[n] == SplitFrom(s, b)[n - 1];
        }
      }
    }
  }

  /** Every piece `Split` returns is a word. */
  lemma SplitWords(s: string)
    ensures forall n :: 0 <= n < |Split(s)| ==> IsWord(Split(s)[n])
  {
    SplitFromWords(s, 0);
  }

  /** Characters of the words of `SplitFrom(s, i)` come from `s[i..]`'s
      non-space characters, so they share any property those have. */
  lemma {:induction false} SplitFromChars(s: string, i: nat, keep: char -> bool)
    requires i <= |s|
    requires forall k :: i <= k < |s| && !IsSpace(s[k]) ==> keep(s[k])
    ensures forall n, j :: 0 <= n < |SplitFrom(s, i)| && 0 <= j < |SplitFrom(s, i)[n]| ==>
      keep(SplitFrom(s, i)[n][j])
    decreases |s| - i
  {
    var a := SkipSpaces(s, i);
    if a < |s| {
      var b := WordEnd(s, a);
      var w := s[a..b];
      WordEndNoSpace(s, a);
      SplitFromChars(s, b, keep);
      var r := SplitFrom(s, i);
      assert r == [w] + SplitFrom(s, b);
      forall n, j | 0 <= n < |r| && 0 <= j < |r[n]|
        ensures keep(r[n][j])
      {
        if n > 0 {
          assert r[n] == SplitFrom(s, b)[n - 1];
        } else {
          assert r[n][j] == s[a + j];
        }
      }
    }
  }

  /** Characters of the words of `Split(s)` share any property of the
      non-space characters of `s`. */
  lemma SplitChars(s: string, keep: char -> bool)
    requires forall k :: 0 <= k < |s| && !IsSpace(s[k]) ==> keep(s[k])
    ensures forall n, j :: 0 <= n < |Split(s)| && 0 <= j < |Split(s)[n]| ==> keep(Split(s)[n][j])
  {
    SplitFromChars(s, 0, keep);
  }

  /** `sep.join(ws)`. */
  function Join(ws: seq<string>, sep: string): string
    decreases |ws|
  {
    if ws == [] then ""
    else if |ws| == 1 then ws[0]
    else ws[0] + sep + Join(ws[1..], sep)
  }

  /** Joining a list with at least two elements. */
  lemma JoinCons(w: string, rest: seq<string>, sep: string)
    requires rest != []
    ensures Join([w] + rest, sep) == w + sep + Join(rest, sep)
  {
    assert ([w] + rest)[1..] == rest;
  }

  /** In a single-spaced string, a whitespace character is a lone `' '` with
      a non-space character on each side. */
  lemma SingleSpacedAt(s: string, n: nat)
    requires SingleSpaced(s)
    requires n < |s| && IsSpace(s[n])
    ensures s[n] == ' ' && 0 < n && n + 1 < |s| && !IsSpace(s[n + 1])
  {
  }

  /** A string cut at a position is the part before, the character there and
      the part after. */
  lemma Reassemble(s: string, i: nat, b: nat)
    requires i <= b < |s|
    ensures s[i..] == s[i..b] + [s[b]] + s[b + 1..]
  {
  }

  /** Splitting a single-spaced string from a word start and joining the
      words with one space gives the rest of the string back. */
  lemma {:induction false} JoinSplitFrom(s: string, i: nat)
    requires SingleSpaced(s)
    requires i <= |s| && (i == |s| || !IsSpace(s[i]))
    ensures Join(SplitFrom(s, i), " ") == s[i..]
    decreases |s| - i
  {
    if i < |s| {
      assert SkipSpaces(s, i) == i;
      var b := WordEnd(s, i);
      if b == |s| {
        assert SkipSpaces(s, b) == b;
        assert SplitFrom(s, i) == [s[i..b]];
      } else {
        SingleSpacedAt(s, b);
        assert SkipSpaces(s, b + 1) == b + 1;
        assert SkipSpaces(s, b) == b + 1;
        assert SplitFrom(s, b) == SplitFrom(s, b + 1);
        assert SplitFrom(s, b + 1) != [];
        JoinSplitFrom(s, b + 1);
        JoinCons(s[i..b], SplitFrom(s, b + 1), " ");
        Reassemble(s, i, b);
      }
    }
  }

  /** Splitting a single-spaced string and joining the words with one space
      gives the string back. */
  lemma JoinSplit(s: string)
    requires SingleSpaced(s)
    ensures Join(Split(s), " ") == s
  {
    JoinSplitFrom(s, 0);
  }

  // ---------------------------------------------------------------------------
  // Splitting on a separator character
  // ---------------------------------------------------------------------------

  /** Index of the first `c` in `s`, or `|s|` when there is none. */
  function IndexOf(s: string, c: char): (i: nat)
    ensures i <= |s|
    ensures i < |s| ==> s[i] == c
    ensures forall k :: 0 <= k < i ==> s[k] != c
    decreases |s|
  {
    if s == [] then 0
    else if s[0] == c then 0
    else 1 + IndexOf(s[1..], c)
  }

  /** `s.split(c)`: the pieces between separators, empty pieces included. */
  function SplitOn(s: string, c: char): (r: seq<string>)
    ensures |r| >= 1
    ensures forall k :: 0 <= k < |r| ==> c !in r[k]
    decreases |s|
  {
    var i := IndexOf(s, c);
    if i == |s| then [s] else [s[..i]] + SplitOn(s[i + 1..], c)
  }

  /** Joining the pieces with the separator restores the string. */
  lemma {:induction false} JoinSplitOn(s: string, c: char)
    ensures Join(SplitOn(s, c), [c]) == s
    decreases |s|
  {
    var i := IndexOf(s, c);
    if i < |s| {
      var rest := SplitOn(s[i + 1..], c);
      JoinSplitOn(s[i + 1..], c);
      JoinCons(s[..i], rest, [c]);
      Splice(s, i);
    }
  }

  // ---------------------------------------------------------------------------
  // Filtering sequences
  // ---------------------------------------------------------------------------

  /** `a` is `b` with some elements left out, order kept. */
  ghost predicate IsSubsequence<T>(a: seq<T>, b: seq<T>)
    decreases |b|
  {
    a == [] || (b != [] && ((a[0] == b[0] && IsSubsequence(a[1..], b[1..])) || IsSubsequence(a, b[1..])))
  }

  /** A list comprehension `[x for x in s if keep(x)]`. */
  function Filter<T(==,!new)>(s: seq<T>, keep: T -> bool): (r: seq<T>)
    ensures forall x :: multiset(r)[x] == if keep(x) then multiset(s)[x] else 0
    ensures IsSubsequence(r, s)
    decreases |s|
  {
    if s == [] then []
    else
      var rest := Filter(s[1..], keep);
      assert s == [s[0]] + s[1..];
      if keep(s[0]) then [s[0]] + rest else rest
  }
}
