/** The perk bookkeeping of the outlet scraper: deriving a perk's code from
    its display name, the get-or-create of a perk row, linking an outlet to
    its perks, and the choice of which tooltip texts are perks. Storage is a
    value passed in and returned. */
module Perks {
  import opened Text

  // ---------------------------------------------------------------------------
  // Perk codes
  // ---------------------------------------------------------------------------

  /** The characters a perk code is made of. */
  predicate CodeChar(c: char) {
    'A' <= c <= 'Z' || '0' <= c <= '9' || c == '_'
  }

  /** No two underscores stand next to each other. */
  predicate NoDoubleUnderscore(s: string) {
    forall i :: 0 <= i < |s| - 1 ==> !(s[i] == '_' && s[i + 1] == '_')
  }

  /** `re.sub(r'[^A-Za-z0-9]+', '_', name.strip()).upper()`: the stripped
      name with every run of other characters turned into one `_`, then
      upper-cased. */
  function DeriveCode(name: string): (code: string)
    ensures forall i :: 0 <= i < |code| ==> CodeChar(code[i])
    ensures NoDoubleUnderscore(code)
    ensures code == [] <==> Strip(name) == []
  {
    var s := Strip(name);
    var r := ReplaceRuns(s, NotAlnum, '_');
    ReplaceRunsChars(s, NotAlnum, '_', c => IsAlnum(c) || c == '_');
    UpperKeepsCode(r);
    Upper(r)
  }

  /** Upper-casing letters, digits and single underscores gives a code. */
  lemma UpperKeepsCode(r: string)
    requires forall i :: 0 <= i < |r| ==> IsAlnum(r[i]) || r[i] == '_'
    requires NoAdjacent(r, NotAlnum)
    ensures forall i :: 0 <= i < |r| ==> CodeChar(Upper(r)[i])
    ensures NoDoubleUnderscore(Upper(r))
  {
    var u := Upper(r);
    forall i | 0 <= i < |u| - 1
      ensures !(u[i] == '_' && u[i + 1] == '_')
    {
      assert !(InClass(NotAlnum, r[i]) && InClass(NotAlnum, r[i + 1]));
    }
  }

  /** Whitespace around the name does not change its code. */
  lemma CodeIgnoresOuterSpace(name: string)
    ensures DeriveCode(Strip(name)) == DeriveCode(name)
  {
    StripNoop(Strip(name));
  }

  /** Deriving a code from a code gives the code back. */
  lemma CodeIdempotent(name: string)
    ensures DeriveCode(DeriveCode(name)) == DeriveCode(name)
  {
    var code := DeriveCode(name);
    StripNoop(code);
    forall i, j | 0 <= i && j == i + 1 && j < |code|
      ensures !(InClass(NotAlnum, code[i]) && InClass(NotAlnum, code[j]))
    {
    }
    ReplaceRunsIdentity(code, NotAlnum, '_');
    assert Upper(code) == code;
  }

  /** A run of letters and digits is left alone by the run replacement. */
  lemma {:induction false} AlnumPrefixKept(a: string, t: string)
    requires forall i :: 0 <= i < |a| ==> IsAlnum(a[i])
    ensures ReplaceRuns(a + t, NotAlnum, '_') == a + ReplaceRuns(t, NotAlnum, '_')
    decreases |a|
  {
    if a != [] {
      var s := a + t;
      var rest := ReplaceRuns(t, NotAlnum, '_');
      assert ReplaceRuns(s, NotAlnum, '_') == [a[0]] + ReplaceRuns(a[1..] + t, NotAlnum, '_') by {
        assert s[0] == a[0] && s[1..] == a[1..] + t;
        ReplaceRunsKeep(s, NotAlnum, '_');
      }
      AlnumPrefixKept(a[1..], t);
      assert [a[0]] + (a[1..] + rest) == a + rest by {
        assert a == [a[0]] + a[1..];
      }
    } else {
      assert a + t == t;
    }
  }

  /** One separator before a word of letters and digits becomes `_`. */
  lemma SeparatorBeforeWord(c: char, b: string)
    requires !IsAlnum(c) && b != []
    requires forall i :: 0 <= i < |b| ==> IsAlnum(b[i])
    ensures ReplaceRuns([c] + b, NotAlnum, '_') == "_" + b
  {
    var x := [c] + b;
    assert x[0] == c && x[1..] == b;
    assert SkipRun(b, NotAlnum) == b by {
      assert !InClass(NotAlnum, b[0]);
    }
    assert ReplaceRuns(b, NotAlnum, '_') == b by {
      forall i, j | 0 <= i && j == i + 1 && j < |b|
        ensures !(InClass(NotAlnum, b[i]) && InClass(NotAlnum, b[j]))
      {
      }
      ReplaceRunsIdentity(b, NotAlnum, '_');
    }
    assert ReplaceRuns(x, NotAlnum, '_') == "_" + ReplaceRuns(SkipRun(x[1..], NotAlnum), NotAlnum, '_');
  }

  /** Upper-casing works piece by piece. */
  lemma UpperAppend(x: string, y: string)
    ensures Upper(x + y) == Upper(x) + Upper(y)
  {
  }

  /** Two words of letters and digits around one other non-space
      character: the code is the two words upper-cased around a `_`. */
  lemma CodeOfTwoWords(a: string, c: char, b: string)
    requires a != [] && b != []
    requires forall i :: 0 <= i < |a| ==> IsAlnum(a[i])
    requires forall i :: 0 <= i < |b| ==> IsAlnum(b[i])
    requires !IsAlnum(c)
    ensures DeriveCode(a + [c] + b) == Upper(a) + (Upper("_") + Upper(b))
  {
    var s := a + ([c] + b);
    assert a + [c] + b == s;
    assert Strip(s) == s by {
      StripNoop(s);
    }
    assert ReplaceRuns(s, NotAlnum, '_') == a + ("_" + b) by {
      AlnumPrefixKept(a, [c] + b);
      SeparatorBeforeWord(c, b);
    }
    UpperAppend(a, "_" + b);
    UpperAppend("_", b);
  }

  /** Two of the codes the assistant's service table relies on. */
  lemma CodeExamples()
    ensures DeriveCode("Drive-Thru") == "DRIVE_THRU"
    ensures DeriveCode("24 Hours") == "24_HOURS"
  {
    assert "Drive-Thru" == "Drive" + ['-'] + "Thru";
    DriveThruParts();
    DriveThruUpper();
    assert "24 Hours" == "24" + [' '] + "Hours";
    AllDayParts();
    AllDayUpper();
  }

  /** `Drive-Thru` is two words around a hyphen. */
  lemma DriveThruParts()
    ensures DeriveCode("Drive" + ['-'] + "Thru") == Upper("Drive") + (Upper("_") + Upper("Thru"))
  {
    CodeOfTwoWords("Drive", '-', "Thru");
  }

  /** The upper-cased pieces of `Drive-Thru`. */
  lemma DriveThruUpper()
    ensures Upper("Drive") + (Upper("_") + Upper("Thru")) == "DRIVE_THRU"
  {
    assert Upper("Drive") == "DRIVE";
    assert Upper("_") == "_";
    assert Upper("Thru") == "THRU";
  }

  /** `24 Hours` is two words around a space. */
  lemma AllDayParts()
    ensures DeriveCode("24" + [' '] + "Hours") == Upper("24") + (Upper("_") + Upper("Hours"))
  {
    CodeOfTwoWords("24", ' ', "Hours");
  }

  /** The upper-cased pieces of `24 Hours`. */
  lemma AllDayUpper()
    ensures Upper("24") + (Upper("_") + Upper("Hours")) == "24_HOURS"
  {
    assert Upper("24") == "24";
    assert Upper("_") == "_";
    assert Upper("Hours") == "HOURS";
  }

  // ---------------------------------------------------------------------------
  // The perk table
  // ---------------------------------------------------------------------------

  /** One row of the perks table. */
  datatype Perk = Perk(id: nat, code: string, name: string)

  /** The perks table, keyed by its unique code, and the id the database
      hands to the next inserted row. */
  datatype PerkTable = PerkTable(rows: map<string, Perk>, nextId: nat)

  /** Each row sits under its own code, and ids are distinct and below the
      next id. */
  predicate Consistent(t: PerkTable) {
    && (forall c :: c in t.rows ==> t.rows[c].code == c && t.rows[c].id < t.nextId)
    && (forall c, d :: c in t.rows && d in t.rows && c != d ==> t.rows[c].id != t.rows[d].id)
  }

  /** What `get_or_create_perk` returns: the table afterwards and the id. */
  datatype Lookup = Lookup(table: PerkTable, id: nat)

  /** `get_or_create_perk`: the id of the row with the name's code, adding
      the row (code, stripped name) under a fresh id when there is none. */
  function GetOrCreatePerk(t: PerkTable, name: string): (r: Lookup)
    ensures DeriveCode(name) in r.table.rows && r.table.rows[DeriveCode(name)].id == r.id
    ensures DeriveCode(name) in t.rows ==> r.table == t
    ensures DeriveCode(name) !in t.rows ==>
      r.table.rows.Keys == t.rows.Keys + {DeriveCode(name)} &&
      (forall c :: c in t.rows ==> r.table.rows[c] == t.rows[c]) &&
      r.table.rows[DeriveCode(name)].name == Strip(name)
    ensures Consistent(t) ==> Consistent(r.table)
    ensures Consistent(t) && DeriveCode(name) !in t.rows ==>
      forall c :: c in t.rows ==> t.rows[c].id != r.id
  {
    var code := DeriveCode(name);
    if code in t.rows then Lookup(t, t.rows[code].id)
    else
      var rows := t.rows[code := Perk(t.nextId, code, Strip(name))];
      Lookup(PerkTable(rows, t.nextId + 1), t.nextId)
  }

  /** Asking twice for the same perk gives the same id and adds nothing the
      second time. */
  lemma GetOrCreateTwice(t: PerkTable, name: string)
    ensures var first := GetOrCreatePerk(t, name);
      GetOrCreatePerk(first.table, name) == first
  {
  }

  /** Names with the same code share one row. */
  lemma SameCodeSameRow(t: PerkTable, a: string, b: string)
    requires DeriveCode(a) == DeriveCode(b)
    ensures var first := GetOrCreatePerk(t, a);
      GetOrCreatePerk(first.table, b) == first
  {
  }

  // ---------------------------------------------------------------------------
  // Outlet-perk links
  // ---------------------------------------------------------------------------

  /** `link_outlet_perks`: one `INSERT IGNORE` of (outlet, perk) per perk id,
      in order; a pair already present is left as it is. */
  function LinkOutletPerks(links: set<(int, int)>, outletId: int, perkIds: seq<int>): (r: set<(int, int)>)
    ensures links <= r
    ensures forall p :: p in perkIds ==> (outletId, p) in r
    ensures forall l :: l in r ==> l in links || (l.0 == outletId && l.1 in perkIds)
    decreases |perkIds|
  {
    if perkIds == [] then links
    else
      var r := LinkOutletPerks(links + {(outletId, perkIds[0])}, outletId, perkIds[1..]);
      assert forall p :: p in perkIds ==> p == perkIds[0] || p in perkIds[1..];
      r
  }

  /** Linking the same perks again changes nothing. */
  lemma {:induction false} LinkTwice(links: set<(int, int)>, outletId: int, perkIds: seq<int>)
    ensures LinkOutletPerks(LinkOutletPerks(links, outletId, perkIds), outletId, perkIds)
      == LinkOutletPerks(links, outletId, perkIds)
  {
    var once := LinkOutletPerks(links, outletId, perkIds);
    var twice := LinkOutletPerks(once, outletId, perkIds);
    assert forall l :: l in twice ==> l in once;
  }

  // ---------------------------------------------------------------------------
  // Perk texts of an outlet card
  // ---------------------------------------------------------------------------

  /** A tooltip text names a perk when it is not empty and does not mention
      `caret`, in any letter case. */
  predicate IsPerkText(text: string) {
    text != [] && !Contains(Lower(text), "caret")
  }

  /** The perk texts of a card, in document order. */
  function PerkTexts(texts: seq<string>): (r: seq<string>)
    ensures forall t :: t in r <==> t in texts && IsPerkText(t)
    ensures forall t :: multiset(r)[t] == if IsPerkText(t) then multiset(texts)[t] else 0
    ensures IsSubsequence(r, texts)
  {
    var r := Filter(texts, IsPerkText);
    assert forall t :: t in r <==> multiset(r)[t] > 0;
    assert forall t :: t in texts <==> multiset(texts)[t] > 0;
    r
  }
}
