/** The three text utilities every later stage relies on: normalising a
    query, pulling out its keywords, and comparing two texts by the Jaccard
    index of their keyword sets. */
module TextProcessor {
  import opened Text

  // ---------------------------------------------------------------------------
  // Normalisation
  // ---------------------------------------------------------------------------

  /** `re.sub(r'[^\w\s]', ' ', s)`: every character that is neither a word
      character nor whitespace becomes a space. */
  function Punct(s: string): (r: string)
    ensures |r| == |s|
    ensures forall i :: 0 <= i < |s| ==> r[i] == (if IsWordChar(s[i]) || IsSpace(s[i]) then s[i] else ' ')
  {
    seq(|s|, i requires 0 <= i < |s| => if IsWordChar(s[i]) || IsSpace(s[i]) then s[i] else ' ')
  }

  /** A character normalised text may hold: a lower-case word character or a space. */
  predicate NormalChar(c: char) {
    (IsWordChar(c) && !IsUpper(c)) || c == ' '
  }

  /** The shape of normalised text: only lower-case word characters and
      single spaces, no whitespace at either end. */
  ghost predicate Normal(s: string) {
    && (forall i :: 0 <= i < |s| ==> NormalChar(s[i]))
    && SingleSpaced(s)
  }

  /** Word characters are never whitespace. */
  lemma WordCharNotSpace(c: char)
    requires IsWordChar(c)
    ensures !IsSpace(c)
  {
  }

  /** `normalize_text`: lower-case, punctuation to spaces, whitespace runs to
      one space, then strip. */
  function Normalize(text: string): (r: string)
    ensures Normal(r)
  {
    var p := Punct(Lower(text));
    var c := Collapse(p);
    NormalizeShape(p, c);
    Strip(c)
  }

  /** A string whose characters are those of `c` from offset `k` on keeps
      `c`'s lack of adjacent whitespace. */
  lemma NoAdjacentShift(c: string, s: string, k: nat)
    requires k + |s| <= |c|
    requires forall i :: 0 <= i < |s| ==> s[i] == c[k + i]
    requires NoAdjacent(c, Whitespace)
    ensures NoAdjacent(s, Whitespace)
  {
    forall i, j | 0 <= i && j == i + 1 && j < |s|
      ensures !(InClass(Whitespace, s[i]) && InClass(Whitespace, s[j]))
    {
      assert s[i] == c[k + i] && s[j] == c[k + j];
    }
  }

  /** Stripping a string of normal characters without adjacent whitespace
      gives normal text. */
  lemma StripShape(c: string)
    requires forall i :: 0 <= i < |c| ==> NormalChar(c[i])
    requires NoAdjacent(c, Whitespace)
    ensures Normal(Strip(c))
  {
    var s := Strip(c);
    var k := StripStart(c);
    NoAdjacentShift(c, s, k);
    forall i | 0 <= i < |s|
      ensures NormalChar(s[i]) && (IsSpace(s[i]) ==> s[i] == ' ')
    {
      assert s[i] == c[k + i];
      if IsWordChar(s[i]) {
        WordCharNotSpace(s[i]);
      }
    }
  }

  /** The proof behind `Normalize`'s postcondition: collapsing a string of
      normal characters and whitespace, then stripping it, gives normal text. */
  lemma NormalizeShape(p: string, c: string)
    requires forall i :: 0 <= i < |p| ==> NormalChar(p[i]) || IsSpace(p[i])
    requires c == Collapse(p)
    ensures Normal(Strip(c))
  {
    ReplaceRunsChars(p, Whitespace, ' ', NormalChar);
    StripShape(c);
  }

  /** Normal text is a fixed point of `Normalize`. */
  lemma NormalFixed(s: string)
    requires Normal(s)
    ensures Normalize(s) == s
  {
    assert Lower(s) == s;
    assert Punct(s) == s;
    ReplaceRunsIdentity(s, Whitespace, ' ');
    StripNoop(s);
  }

  /** Normalising twice is normalising once. */
  lemma NormalizeIdempotent(text: string)
    ensures Normalize(Normalize(text)) == Normalize(text)
  {
    NormalFixed(Normalize(text));
  }

  // ---------------------------------------------------------------------------
  // Keywords
  // ---------------------------------------------------------------------------

  /** The stop-word list of `extract_keywords`. */
  const StopWords: set<string> := {
    "the", "a", "an", "and", "or", "but", "in", "on", "at", "to", "for",
    "of", "with", "by", "from", "up", "about", "into", "through", "during",
    "before", "after", "above", "below", "is", "are", "was", "were", "be",
    "been", "being", "have", "has", "had", "do", "does", "did", "will",
    "would", "should", "could", "can", "may", "might", "must", "i", "me",
    "my", "myself", "we", "our", "ours", "ourselves", "you", "your", "yours"
  }

  /** A token survives the keyword filter: not a stop word, longer than two. */
  predicate IsKeyword(w: string) {
    w !in StopWords && |w| > 2
  }

  /** The whitespace-separated tokens of the normalised text. */
  function Tokens(text: string): seq<string> {
    Split(Normalize(text))
  }

  /** Every token is a non-empty run of lower-case word characters. */
  lemma TokensShape(text: string)
    ensures forall n :: 0 <= n < |Tokens(text)| ==> IsWord(Tokens(text)[n])
    ensures forall n, j :: 0 <= n < |Tokens(text)| && 0 <= j < |Tokens(text)[n]| ==>
      IsWordChar(Tokens(text)[n][j]) && !IsUpper(Tokens(text)[n][j])
  {
    var s := Normalize(text);
    SplitWords(s);
    SplitChars(s, NormalChar);
    forall n, j | 0 <= n < |Tokens(text)| && 0 <= j < |Tokens(text)[n]|
      ensures IsWordChar(Tokens(text)[n][j]) && !IsUpper(Tokens(text)[n][j])
    {
      assert !IsSpace(Tokens(text)[n][j]);
    }
  }

  /** Joining the tokens with single spaces gives the normalised text back. */
  lemma TokensRejoin(text: string)
    ensures Join(Tokens(text), " ") == Normalize(text)
  {
    JoinSplit(Normalize(text));
  }

  /** `extract_keywords`: the tokens that are not stop words and are longer
      than two characters, in order, duplicates kept. */
  function ExtractKeywords(text: string): (r: seq<string>)
    ensures forall x :: multiset(r)[x] == if IsKeyword(x) then multiset(Tokens(text))[x] else 0
    ensures IsSubsequence(r, Tokens(text))
  {
    Filter(Tokens(text), IsKeyword)
  }

  /** No keyword is a stop word or shorter than three characters, and each
      is made of lower-case word characters only. */
  lemma KeywordsShape(text: string)
    ensures forall n :: 0 <= n < |ExtractKeywords(text)| ==>
      && ExtractKeywords(text)[n] !in StopWords
      && |ExtractKeywords(text)[n]| > 2
      && forall j :: 0 <= j < |ExtractKeywords(text)[n]| ==>
        IsWordChar(ExtractKeywords(text)[n][j]) && !IsUpper(ExtractKeywords(text)[n][j])
  {
    var r := ExtractKeywords(text);
    var ts := Tokens(text);
    TokensShape(text);
    forall n | 0 <= n < |r|
      ensures r[n] !in StopWords && |r[n]| > 2
      ensures forall j :: 0 <= j < |r[n]| ==> IsWordChar(r[n][j]) && !IsUpper(r[n][j])
    {
      var w := r[n];
      assert w in multiset(r);
      assert IsKeyword(w) && w in multiset(ts);
      var m :| 0 <= m < |ts| && ts[m] == w;
    }
  }

  // ---------------------------------------------------------------------------
  // Similarity
  // ---------------------------------------------------------------------------

  /** The set of keywords of a text. */
  function KeywordSet(text: string): (ks: set<string>)
    ensures forall w :: w in ks <==> w in ExtractKeywords(text)
  {
    set w | w in ExtractKeywords(text)
  }

  /** The Jaccard index `|a ∩ b| / |a ∪ b|`, taken as 0 when either set is empty. */
  function Jaccard(a: set<string>, b: set<string>): (r: real)
    ensures 0.0 <= r <= 1.0
    ensures a == {} || b == {} ==> r == 0.0
    ensures a != {} && b != {} ==> (r == 1.0 <==> a == b)
  {
    if a == {} || b == {} then 0.0
    else
      CardUnion(a, b);
      (|a * b| as real) / (|a + b| as real)
  }

  /** The union is at least as large as the intersection, and no larger
      exactly when the two sets agree. */
  lemma CardUnion(a: set<string>, b: set<string>)
    requires a != {}
    ensures 0 < |a + b|
    ensures |a * b| <= |a + b|
    ensures |a * b| == |a + b| <==> a == b
  {
    assert |a + b| == |a - b| + |b - a| + |a * b|;
    if a != b {
      if x :| x in a && x !in b {
        assert x in a - b;
      } else {
        var y :| y in b && y !in a;
        assert y in b - a;
      }
    }
    var x :| x in a;
    assert x in a + b;
  }

  /** `calculate_similarity`: the Jaccard index of the two keyword sets. */
  function Similarity(text1: string, text2: string): (r: real)
    ensures 0.0 <= r <= 1.0
    ensures KeywordSet(text1) == {} || KeywordSet(text2) == {} ==> r == 0.0
    ensures KeywordSet(text1) != {} && KeywordSet(text2) != {} ==>
      (r == 1.0 <==> KeywordSet(text1) == KeywordSet(text2))
  {
    Jaccard(KeywordSet(text1), KeywordSet(text2))
  }

  /** The Jaccard index does not depend on argument order. */
  lemma JaccardSymmetric(a: set<string>, b: set<string>)
    ensures Jaccard(a, b) == Jaccard(b, a)
  {
    assert a * b == b * a && a + b == b + a;
  }

  /** Similarity does not depend on argument order. */
  lemma SimilaritySymmetric(text1: string, text2: string)
    ensures Similarity(text1, text2) == Similarity(text2, text1)
  {
    JaccardSymmetric(KeywordSet(text1), KeywordSet(text2));
  }
}
