/** Python's `repr` of a string and of a list of strings, as it shows up
    when a list is formatted into a message (`f"... {entities['services']}"`). */
module Repr {
  import opened Text

  /** The lower-case hexadecimal digit for a value below sixteen. */
  function HexDigit(v: nat): (c: char)
    requires v < 16
    ensures (v < 10 ==> c == ('0' as int + v) as char) && (v >= 10 ==> c == ('a' as int + v - 10) as char)
  {
    if v < 10 then ('0' as int + v) as char else ('a' as int + v - 10) as char
  }

  /** The `n` low hexadecimal digits of `v`, most significant first, zero-padded. */
  function Hex(v: nat, n: nat): (r: string)
    ensures |r| == n
    ensures forall i :: 0 <= i < n ==> '0' <= r[i] <= '9' || 'a' <= r[i] <= 'f'
    decreases n
  {
    if n == 0 then [] else Hex(v / 16, n - 1) + [HexDigit(v % 16)]
  }

  /** The value of a lower-case hexadecimal digit. */
  function HexValue(c: char): (v: nat)
    requires '0' <= c <= '9' || 'a' <= c <= 'f'
    ensures v < 16 && HexDigit(v) == c
  {
    if c <= '9' then c as int - '0' as int else c as int - 'a' as int + 10
  }

  /** Reading `n` hexadecimal digits back. */
  function HexRead(s: string): nat
    requires forall i :: 0 <= i < |s| ==> '0' <= s[i] <= '9' || 'a' <= s[i] <= 'f'
    decreases |s|
  {
    if s == [] then 0 else HexRead(s[..|s| - 1]) * 16 + HexValue(s[|s| - 1])
  }

  /** Reading back `n` padded hexadecimal digits of a value that fits gives the value. */
  lemma {:induction false} HexRoundTrip(v: nat, n: nat, bound: nat)
    requires bound == Pow16(n) && v < bound
    ensures HexRead(Hex(v, n)) == v
    decreases n
  {
    if n > 0 {
      var r := Hex(v, n);
      assert r[..|r| - 1] == Hex(v / 16, n - 1);
      HexRoundTrip(v / 16, n - 1, Pow16(n - 1));
    }
  }

  /** Sixteen to the power `n`. */
  function Pow16(n: nat): (p: nat)
    ensures p > 0
  {
    if n == 0 then 1 else 16 * Pow16(n - 1)
  }

  /** The format characters (general category Cf) of Unicode 15.0. */
  predicate FormatChar(c: char) {
    || c == '\U{AD}'
    || ('\U{600}' <= c <= '\U{605}') || c == '\U{61C}' || c == '\U{6DD}' || c == '\U{70F}'
    || ('\U{890}' <= c <= '\U{891}') || c == '\U{8E2}' || c == '\U{180E}'
    || ('\U{200B}' <= c <= '\U{200F}') || ('\U{202A}' <= c <= '\U{202E}')
    || ('\U{2060}' <= c <= '\U{2064}') || ('\U{2066}' <= c <= '\U{206F}')
    || c == '\U{FEFF}' || ('\U{FFF9}' <= c <= '\U{FFFB}')
    || c == '\U{110BD}' || c == '\U{110CD}' || ('\U{13430}' <= c <= '\U{1343F}')
    || ('\U{1BCA0}' <= c <= '\U{1BCA3}') || ('\U{1D173}' <= c <= '\U{1D17A}')
    || c == '\U{E0001}' || ('\U{E0020}' <= c <= '\U{E007F}')
  }

  /** The private-use characters (general category Co). */
  predicate PrivateUse(c: char) {
    || ('\U{E000}' <= c <= '\U{F8FF}')
    || ('\U{F0000}' <= c <= '\U{FFFFD}')
    || ('\U{100000}' <= c <= '\U{10FFFD}')
  }

  /** The noncharacters: U+FDD0 to U+FDEF and the last two code points of
      every plane. They are permanently unassigned. */
  predicate Noncharacter(c: char) {
    ('\U{FDD0}' <= c <= '\U{FDEF}') || c as int % 0x10000 >= 0xFFFE
  }

  /** The characters `repr` writes as an escape, those `str.isprintable`
      rejects: control characters (Cc), every whitespace character but the
      plain space (Zs, Zl, Zp and the whitespace controls), format and
      private-use characters, and the noncharacters. */
  predicate Unprintable(c: char) {
    || c < ' '
    || ('\U{7F}' <= c <= '\U{A0}')
    || (IsSpace(c) && c != ' ')
    || FormatChar(c)
    || PrivateUse(c)
    || Noncharacter(c)
  }

  /** How `repr` writes one character inside a literal quoted with `q`. */
  function ReprChar(c: char, q: char): (r: string)
    ensures |r| >= 1
    ensures r == [c] <==> c != '\\' && c != q && !Unprintable(c)
  {
    if c == '\\' || c == q then ['\\', c]
    else if c == '\t' then "\\t"
    else if c == '\n' then "\\n"
    else if c == '\r' then "\\r"
    else if Unprintable(c) then
      if c as int <= 0xFF then "\\x" + Hex(c as int, 2)
      else if c as int <= 0xFFFF then "\\u" + Hex(c as int, 4)
      else "\\U" + Hex(c as int, 8)
    else [c]
  }

  /** The escaped characters of a literal quoted with `q`. */
  function ReprBody(s: string, q: char): (r: string)
    ensures |r| >= |s|
    decreases |s|
  {
    if s == [] then [] else ReprChar(s[0], q) + ReprBody(s[1..], q)
  }

  /** The quote `repr` picks: double quotes only when the string holds a
      single quote and no double quote. */
  function QuoteFor(s: string): (q: char)
    ensures q == '"' <==> ('\'' in s && '"' !in s)
    ensures q == '"' || q == '\''
  {
    if '\'' in s && '"' !in s then '"' else '\''
  }

  /** `repr(s)` for a string. */
  function StrRepr(s: string): (r: string)
    ensures |r| >= |s| + 2
    ensures r[0] == r[|r| - 1] == QuoteFor(s)
  {
    var q := QuoteFor(s);
    [q] + ReprBody(s, q) + [q]
  }

  /** A character that `repr` copies unchanged into a single-quoted literal. */
  predicate Plain(c: char) {
    c != '\\' && c != '\'' && !Unprintable(c)
  }

  /** A string of plain characters is copied unchanged between single quotes. */
  lemma {:induction false} PlainBody(s: string, q: char)
    requires q == '\''
    requires forall i :: 0 <= i < |s| ==> Plain(s[i])
    ensures ReprBody(s, q) == s
    decreases |s|
  {
    if s != [] {
      PlainBody(s[1..], q);
      assert s == [s[0]] + s[1..];
    }
  }

  /** `repr` of a string of plain characters is the string in single quotes. */
  lemma PlainRepr(s: string)
    requires forall i :: 0 <= i < |s| ==> Plain(s[i])
    ensures StrRepr(s) == "'" + s + "'"
  {
    assert forall i :: 0 <= i < |s| ==> s[i] != '\'';
    PlainBody(s, '\'');
  }

  /** Letters, digits and underscores are plain. */
  lemma WordCharsPlain(s: string)
    requires forall i :: 0 <= i < |s| ==> IsWordChar(s[i])
    ensures forall i :: 0 <= i < |s| ==> Plain(s[i])
  {
  }

  /** `repr` of a list of strings: the items' reprs, comma-separated, in brackets. */
  function ListRepr(xs: seq<string>): (r: string)
    ensures |r| >= 2 && (xs == [] <==> r == "[]")
    ensures r[0] == '[' && r[|r| - 1] == ']'
  {
    if xs == [] then "[]"
    else
      JoinLength(ReprAll(xs), ", ");
      "[" + Join(ReprAll(xs), ", ") + "]"
  }

  /** The reprs of a list of strings, in order. */
  function ReprAll(xs: seq<string>): (r: seq<string>)
    ensures |r| == |xs|
    ensures forall i :: 0 <= i < |xs| ==> r[i] == StrRepr(xs[i])
  {
    seq(|xs|, i requires 0 <= i < |xs| => StrRepr(xs[i]))
  }

  /** `repr` of a pair of strings of plain characters. */
  lemma PairRepr(a: string, b: string)
    requires forall i :: 0 <= i < |a| ==> Plain(a[i])
    requires forall i :: 0 <= i < |b| ==> Plain(b[i])
    ensures ListRepr([a, b]) == "['" + a + "', '" + b + "']"
  {
    ListReprPair(a, b);
    PlainRepr(a);
    PlainRepr(b);
    QuotedPair(a, b);
  }

  /** `repr` of a pair is the two reprs, comma-separated, in brackets. */
  lemma ListReprPair(a: string, b: string)
    ensures ListRepr([a, b]) == "[" + StrRepr(a) + ", " + StrRepr(b) + "]"
  {
    assert ReprAll([a, b]) == [StrRepr(a), StrRepr(b)];
    JoinCons(StrRepr(a), [StrRepr(b)], ", ");
  }

  /** Two single-quoted strings in a bracketed pair. */
  lemma QuotedPair(a: string, b: string)
    ensures "[" + ("'" + a + "'") + ", " + ("'" + b + "'") + "]" == "['" + a + "', '" + b + "']"
  {
  }

  /** Joining a non-empty list of strings of length at least two gives at
      least two characters. */
  lemma JoinLength(ws: seq<string>, sep: string)
    requires ws != [] && forall i :: 0 <= i < |ws| ==> |ws[i]| >= 2
    ensures |Join(ws, sep)| >= 2
  {
    if |ws| > 1 {
      JoinCons(ws[0], ws[1..], sep);
    }
  }
}
