/** `_format_outlet_perks` and `_generate_response`: the text shown to the
    user and the follow-up actions offered. */
module Responses {
  import opened Text
  import opened Digits
  import opened KnowledgeBase
  import opened Intents
  import opened Ranking
  import E = Entities

  // ---------------------------------------------------------------------------
  // Perk labels
  // ---------------------------------------------------------------------------

  /** `str.title()`: a letter is upper-cased when it starts a run of letters
      and lower-cased otherwise; other characters are kept. */
  function Title(s: string): (r: string)
    ensures |r| == |s|
    ensures forall i :: 0 <= i < |s| ==> IsAlpha(r[i]) == IsAlpha(s[i])
    ensures forall i :: 0 <= i < |s| && !IsAlpha(s[i]) ==> r[i] == s[i]
    ensures forall i :: 0 <= i < |s| ==> ToLower(r[i]) == ToLower(s[i])
    ensures |s| > 0 && IsAlpha(s[0]) ==> !IsLower(r[0])
    ensures forall i, j {:trigger s[i], r[j]} :: 0 <= i < |s| && j == i + 1 < |s| && IsAlpha(s[j]) ==>
      (if IsAlpha(s[i]) then !IsUpper(r[j]) else !IsLower(r[j]))
  {
    seq(|s|, i requires 0 <= i < |s| =>
      if i > 0 && IsAlpha(s[i - 1]) then ToLower(s[i]) else ToUpper(s[i]))
  }

  /** Title-casing twice is title-casing once. */
  lemma TitleIdempotent(s: string)
    ensures Title(Title(s)) == Title(s)
  {
    var t := Title(s);
    forall i | 0 <= i < |s|
      ensures Title(t)[i] == t[i]
    {
      if i > 0 && IsAlpha(s[i - 1]) {
        assert IsAlpha(t[i - 1]);
      } else if i > 0 {
        assert !IsAlpha(t[i - 1]);
      }
    }
  }

  /** Every `_` becomes a space. */
  function Unscore(s: string): (r: string)
    ensures |r| == |s|
    ensures forall i :: 0 <= i < |s| ==> r[i] == (if s[i] == '_' then ' ' else s[i])
  {
    seq(|s|, i requires 0 <= i < |s| => if s[i] == '_' then ' ' else s[i])
  }

  /** The perk codes that have a fixed display label. */
  const KnownCodes: seq<string> := [
    "24_HOURS", "DRIVE_THRU", "WIFI", "MCCAFE", "MCDELIVERY", "BIRTHDAY_PARTY",
    "BREAKFAST", "CASHLESS_FACILITY", "SURAU", "DESSERT_CENTER", "DIGITAL_ORDER_KIOSK"]

  /** The display labels of the known codes, position by position. */
  const KnownLabels: seq<string> := [
    "24 Hours", "Drive-Thru", "Free WiFi", "McCaf\U{E9}", "McDelivery", "Birthday Parties",
    "Breakfast", "Cashless Payment", "Prayer Facilities", "Dessert Center", "Digital Ordering"]

  /** The position of a code among the known codes, if it is one. */
  function KnownIndex(code: string, codes: seq<string>): (r: nat)
    ensures r <= |codes|
    ensures r < |codes| ==> codes[r] == code
    ensures forall j :: 0 <= j < r ==> codes[j] != code
    decreases |codes|
  {
    if codes == [] then 0
    else if codes[0] == code then 0
    else 1 + KnownIndex(code, codes[1..])
  }

  /** The label of one stripped, non-empty perk code. */
  function PerkLabel(code: string): string {
    var k := KnownIndex(code, KnownCodes);
    if k < |KnownCodes| then KnownLabels[k] else Title(Unscore(code))
  }

  /** A known code shows the label at its position in the table; any other
      code shows with spaces for underscores, in title case.  Kept apart from
      `PerkLabel` so that lists of labels do not unfold the table. */
  lemma PerkLabelCases(code: string)
    ensures code in KnownCodes ==> PerkLabel(code) == KnownLabels[KnownIndex(code, KnownCodes)]
    ensures code !in KnownCodes ==> PerkLabel(code) == Title(Unscore(code))
  {
  }

  /** The pieces, each stripped. */
  function Stripped(pieces: seq<string>): (r: seq<string>)
    ensures |r| == |pieces|
    ensures forall i :: 0 <= i < |pieces| ==> r[i] == Strip(pieces[i])
  {
    seq(|pieces|, i requires 0 <= i < |pieces| => Strip(pieces[i]))
  }

  predicate NonBlank(code: string) { code != [] }

  /** The codes that are shown: the stripped pieces that are not empty, in
      their order in the list. */
  function ShownCodes(pieces: seq<string>): (r: seq<string>)
    ensures forall c :: multiset(r)[c] == if c != [] then multiset(Stripped(pieces))[c] else 0
    ensures IsSubsequence(r, Stripped(pieces))
  {
    Filter(Stripped(pieces), NonBlank)
  }

  /** The shown codes of a list are those of its first piece, then those of the rest. */
  lemma ShownCodesCons(pieces: seq<string>)
    requires pieces != []
    ensures ShownCodes(pieces) ==
      (if Strip(pieces[0]) != [] then [Strip(pieces[0])] else []) + ShownCodes(pieces[1..])
  {
    var ss := Stripped(pieces);
    assert ss[1..] == Stripped(pieces[1..]);
    assert ss != [] && ss[0] == Strip(pieces[0]);
  }

  /** The labels of the non-blank pieces, each piece stripped, in order. */
  function PerkLabels(pieces: seq<string>): (r: seq<string>)
    ensures |r| == |ShownCodes(pieces)| <= |pieces|
    ensures forall k :: 0 <= k < |r| ==> r[k] == PerkLabel(ShownCodes(pieces)[k])
    decreases |pieces|
  {
    if pieces == [] then []
    else
      var p := Strip(pieces[0]);
      var rest := PerkLabels(pieces[1..]);
      var shown := ShownCodes(pieces[1..]);
      ShownCodesCons(pieces);
      if p != [] then
        assert ShownCodes(pieces) == [p] + shown;
        ImagesCons(PerkLabel, p, rest, shown);
        [PerkLabel(p)] + rest
      else
        rest
  }

  /** Putting `f(c)` in front of a list of `f`-images puts `c` in front of
      their arguments. */
  lemma ImagesCons<A>(f: A -> string, c: A, rest: seq<string>, args: seq<A>)
    requires |rest| == |args| && forall k :: 0 <= k < |rest| ==> rest[k] == f(args[k])
    ensures forall k :: 0 <= k < |rest| + 1 ==> ([f(c)] + rest)[k] == f(([c] + args)[k])
  {
    forall k | 0 <= k < |rest| + 1
      ensures ([f(c)] + rest)[k] == f(([c] + args)[k])
    {
      if k > 0 {
        assert ([f(c)] + rest)[k] == rest[k - 1];
        assert ([c] + args)[k] == args[k - 1];
      }
    }
  }

  /** A non-empty list is its head in front of its tail. */
  lemma HeadTail<A>(s: seq<A>)
    requires s != []
    ensures s == [s[0]] + s[1..]
  {
  }

  /** No code is shown exactly when every piece is blank. */
  lemma {:induction false} ShownCodesEmpty(pieces: seq<string>)
    ensures ShownCodes(pieces) == [] <==> forall i :: 0 <= i < |pieces| ==> Strip(pieces[i]) == []
    decreases |pieces|
  {
    if pieces != [] {
      ShownCodesCons(pieces);
      ShownCodesEmpty(pieces[1..]);
      assert forall i :: 1 <= i < |pieces| ==> pieces[i] == pieces[1..][i - 1];
    }
  }

  /** A code is shown exactly when it is a non-blank piece, stripped. */
  lemma ShownCodesMembers(pieces: seq<string>, c: string)
    ensures c in ShownCodes(pieces) <==> c != [] && exists i :: 0 <= i < |pieces| && Strip(pieces[i]) == c
  {
    var ss := Stripped(pieces);
    assert multiset(ShownCodes(pieces))[c] > 0 <==> c != [] && multiset(ss)[c] > 0;
    if c in ss {
      var i :| 0 <= i < |ss| && ss[i] == c;
      assert Strip(pieces[i]) == c;
    }
  }

  /** Every non-blank piece has its label shown, and every label shown is
      that of a non-blank piece. */
  lemma PerkLabelsMembers(pieces: seq<string>)
    ensures forall i :: 0 <= i < |pieces| && Strip(pieces[i]) != [] ==> PerkLabel(Strip(pieces[i])) in PerkLabels(pieces)
    ensures forall l :: l in PerkLabels(pieces) ==>
      exists i :: 0 <= i < |pieces| && Strip(pieces[i]) != [] && l == PerkLabel(Strip(pieces[i]))
  {
    var r := PerkLabels(pieces);
    var shown := ShownCodes(pieces);
    forall i | 0 <= i < |pieces| && Strip(pieces[i]) != []
      ensures PerkLabel(Strip(pieces[i])) in r
    {
      var c := Strip(pieces[i]);
      ShownCodesMembers(pieces, c);
      var k :| 0 <= k < |shown| && shown[k] == c;
      assert r[k] == PerkLabel(c);
    }
    forall l | l in r
      ensures exists i :: 0 <= i < |pieces| && Strip(pieces[i]) != [] && l == PerkLabel(Strip(pieces[i]))
    {
      var k :| 0 <= k < |r| && r[k] == l;
      var c := shown[k];
      ShownCodesMembers(pieces, c);
      var i :| 0 <= i < |pieces| && Strip(pieces[i]) == c;
      assert l == PerkLabel(Strip(pieces[i]));
    }
  }

  /** `_format_outlet_perks`: the labels of the comma-separated codes in
      parentheses after a space, or nothing when there is no label. */
  function FormatPerks(codes: string): (r: string)
    ensures codes == [] ==> r == ""
    ensures r != "" <==> PerkLabels(SplitOn(codes, ',')) != []
    ensures r != "" <==> exists i :: 0 <= i < |SplitOn(codes, ',')| && Strip(SplitOn(codes, ',')[i]) != []
    ensures r != "" ==> StartsWith(r, " (") && EndsWith(r, ")")
    ensures r != "" ==> |r| >= 3 && r[2..|r| - 1] == Join(PerkLabels(SplitOn(codes, ',')), ", ")
  {
    ShownCodesEmpty(SplitOn(codes, ','));
    if codes == [] then ""
    else
      var labels := PerkLabels(SplitOn(codes, ','));
      if labels == [] then ""
      else
        var inner := Join(labels, ", ");
        var r := " (" + inner + ")";
        assert |r| == |inner| + 3;
        assert r[..2] == " (" && r[|r| - 1..] == ")" && r[2..|r| - 1] == inner;
        r
  }

  /** A single code, with no comma, shows its one label in parentheses. */
  lemma OneCodeShown(code: string)
    requires ',' !in code && Strip(code) != []
    ensures FormatPerks(code) == " (" + PerkLabel(Strip(code)) + ")"
  {
    assert IndexOf(code, ',') == |code|;
    assert SplitOn(code, ',') == [code];
    assert PerkLabels([code]) == [PerkLabel(Strip(code))] + PerkLabels([]);
  }

  /** A code list made only of commas and whitespace shows no perks. */
  lemma {:induction false} BlankPiecesNoLabels(pieces: seq<string>)
    requires forall i :: 0 <= i < |pieces| ==> forall j :: 0 <= j < |pieces[i]| ==> IsSpace(pieces[i][j])
    ensures PerkLabels(pieces) == []
    decreases |pieces|
  {
    if pieces != [] {
      var p := pieces[0];
      StripAllSpace(p);
      BlankPiecesNoLabels(pieces[1..]);
    }
  }

  /** Stripping a string of whitespace leaves nothing. */
  lemma StripAllSpace(p: string)
    requires forall j :: 0 <= j < |p| ==> IsSpace(p[j])
    ensures Strip(p) == []
  {
    if Strip(p) != [] {
      StripDropsNothing(p);
    }
  }

  /** A non-empty strip result starts with a non-space character of the input. */
  lemma StripDropsNothing(p: string)
    requires Strip(p) != []
    ensures exists j :: 0 <= j < |p| && !IsSpace(p[j])
  {
    var k := StripStart(p);
    assert Strip(p)[0] == p[k];
  }

  /** A known code shows its fixed label. */
  lemma KnownCodeLabel(i: nat)
    requires i < |KnownCodes|
    ensures PerkLabel(KnownCodes[i]) == KnownLabels[i]
  {
    forall j, k | 0 <= j < k < |KnownCodes|
      ensures KnownCodes[j] != KnownCodes[k]
    {
      KnownCodesDistinct(j, k);
    }
    IndexOfDistinct(KnownCodes, i);
  }

  /** In a list without repetitions, the item at `i` is found at `i`. */
  lemma IndexOfDistinct(codes: seq<string>, i: nat)
    requires i < |codes|
    requires forall j, k :: 0 <= j < k < |codes| ==> codes[j] != codes[k]
    ensures KnownIndex(codes[i], codes) == i
  {
  }

  /** The known codes are pairwise different. */
  lemma KnownCodesDistinct(i: nat, j: nat)
    requires i < j < |KnownCodes|
    ensures KnownCodes[i] != KnownCodes[j]
  {
  }

  // ---------------------------------------------------------------------------
  // Response templates
  // ---------------------------------------------------------------------------

  /** `'s' if n != 1 else ''`. */
  function Plural(n: nat): (r: string)
    ensures r == "s" <==> n != 1
    ensures r == "" <==> n == 1
  {
    if n != 1 then "s" else ""
  }

  /** A count followed by a noun, plural unless the count is one. */
  function Counted(n: nat, noun: string): (r: string)
    ensures StartsWith(r, NatToString(n) + " " + noun)
    ensures n == 1 ==> r == "1 " + noun
    ensures n != 1 ==> r == NatToString(n) + " " + noun + "s"
  {
    var r := NatToString(n) + " " + noun + Plural(n);
    assert r[..|NatToString(n) + " " + noun|] == NatToString(n) + " " + noun;
    r
  }

  /** A text that puts a count right after `pre` starts with `pre`, the
      count and the noun; the plural `s` follows exactly when the count is
      not one. */
  lemma CountedAfter(pre: string, n: nat, noun: string, post: string)
    ensures StartsWith(pre + Counted(n, noun) + post, pre + NatToString(n) + " " + noun)
    ensures StartsWith(pre + Counted(n, noun) + post, pre + Counted(n, noun))
  {
    var key := pre + NatToString(n) + " " + noun;
    assert pre + Counted(n, noun) + post == key + (Plural(n) + post);
    AppendEnds(key, Plural(n) + post);
    AppendEnds(pre + Counted(n, noun), post);
  }

  /** The reply opens with `pre` and the count `n` of the noun, plural
      unless the count is one. */
  predicate Opens(r: Reply, pre: string, n: nat, noun: string) {
    StartsWith(r.text, pre + Counted(n, noun))
  }

  // Longer texts in this module are written as concatenations of short
  // literals; the pieces join into the one text of the source, and are
  // split only to keep the verifier's work on literals small.

  /** The openings of the answers that count outlets, and the nouns counted. */
  const PartyOpening := "\U{1F389} Great news! " + "I found "
  const AllDayOpening := "Great news! I found "
  const DriveThruOpening := "Perfect! I found "
  const OfferingOpening := "I found "
  const LocatedOpening := "I located "
  const NavigateOpening := "I can help you " + "navigate to "
  const GeneralOpening := "Here's what I found: "
  const OutletNoun := "McDonald's outlet"
  const NearbyNoun := "nearby McDonald's outlet"
  const PlainNoun := "outlet"

  /** An answer that opens with a count of outlets and ends with their list. */
  function CountedReply(pre: string, noun: string, rest: string, os: seq<Outlet>, actions: seq<string>): (r: Reply)
    requires |actions| >= 2
    ensures Complete(r, os)
    ensures Opens(r, pre, |os|, noun)
    ensures r.actions == actions
  {
    var head := pre + Counted(|os|, noun) + rest;
    CountedAfter(pre, |os|, noun, rest);
    var text := WithList(head, os);
    PrefixOfPrefix(text, head, pre + Counted(|os|, noun));
    Reply(text, actions)
  }

  /** One outlet as listed: bullet and name, its perks, then the address
      under a pin on the next line. */
  function OutletEntry(o: Outlet): (r: string)
    ensures StartsWith(r, Bullet + o.name)
  {
    var head := Bullet + o.name;
    AppendEnds(head, FormatPerks(o.perkCodes) + Pin + o.address);
    head + (FormatPerks(o.perkCodes) + Pin + o.address)
  }

  /** An entry is the bullet and name, then the perks text, then the pin and
      address; the perks are what lies between the two. */
  lemma OutletEntryParts(o: Outlet)
    ensures EndsWith(OutletEntry(o), Pin + o.address)
    ensures |OutletEntry(o)| == |Bullet + o.name| + |FormatPerks(o.perkCodes)| + |Pin + o.address|
    ensures OutletEntry(o)[|Bullet + o.name|..|OutletEntry(o)| - |Pin + o.address|] == FormatPerks(o.perkCodes)
  {
    var head := Bullet + o.name;
    var perks := FormatPerks(o.perkCodes);
    var tail := Pin + o.address;
    var r := OutletEntry(o);
    assert r == head + perks + tail;
    assert r[|r| - |tail|..] == tail;
    assert r[|head|..|r| - |tail|] == perks;
  }

  /** The bullet before an outlet's name, and the pin on the line below it
      before the address. */
  const Bullet := "\U{2022} "
  const Pin := "\n  \U{1F4CD} "

  /** The entries of a list of outlets, in order. */
  function OutletEntries(os: seq<Outlet>): (r: seq<string>)
    ensures |r| == |os|
    ensures forall i :: 0 <= i < |os| ==> r[i] == OutletEntry(os[i])
    decreases |os|
  {
    if os == [] then []
    else
      var rest := OutletEntries(os[1..]);
      ImagesCons(OutletEntry, os[0], rest, os[1..]);
      HeadTail(os);
      [OutletEntry(os[0])] + rest
  }

  /** `format_outlet_list`: nothing for no outlets, otherwise a blank line
      and the entries separated by blank lines. */
  function OutletList(os: seq<Outlet>): (r: string)
    ensures os == [] <==> r == ""
  {
    if os == [] then "" else "\n\n" + Join(OutletEntries(os), "\n\n")
  }

  /** One outlet is listed as a blank line and its entry. */
  lemma OutletListOne(o: Outlet)
    ensures OutletList([o]) == "\n\n" + OutletEntry(o)
  {
    assert OutletEntries([o]) == [OutletEntry(o)];
  }

  /** The first outlet's entry, then the list of the others: every outlet is
      listed, in ranked order, each after a blank line. */
  lemma OutletListCons(os: seq<Outlet>)
    requires |os| >= 2
    ensures OutletList(os) == "\n\n" + OutletEntry(os[0]) + OutletList(os[1..])
  {
    var e := OutletEntry(os[0]);
    var rest := OutletEntries(os[1..]);
    JoinCons(e, rest, "\n\n");
    var j := Join(rest, "\n\n");
    assert OutletList(os[1..]) == "\n\n" + j;
    assert OutletList(os) == "\n\n" + (e + "\n\n" + j);
    Regroup("\n\n", e, "\n\n", j);
  }

  /** Moving the brackets of a four-part concatenation. */
  lemma Regroup(a: string, b: string, c: string, d: string)
    ensures a + (b + c + d) == a + b + (c + d)
  {
  }

  /** Listing two runs of outlets one after the other lists them together. */
  lemma {:induction false} OutletListAppend(os: seq<Outlet>, ps: seq<Outlet>)
    ensures OutletList(os + ps) == OutletList(os) + OutletList(ps)
    decreases |os|
  {
    if os == [] {
      assert os + ps == ps;
    } else if |os| == 1 {
      OutletListOne(os[0]);
      if ps != [] {
        OutletListCons(os + ps);
        TailOfAppend(os, ps);
      }
    } else {
      var head := "\n\n" + OutletEntry(os[0]);
      OutletListCons(os);
      OutletListCons(os + ps);
      TailOfAppend(os, ps);
      OutletListAppend(os[1..], ps);
      Regroup3(head, OutletList(os[1..]), OutletList(ps));
    }
  }

  /** The first element and the tail of a concatenation with a non-empty
      left part. */
  lemma TailOfAppend<T>(a: seq<T>, b: seq<T>)
    requires a != []
    ensures (a + b)[0] == a[0] && (a + b)[1..] == a[1..] + b
  {
  }

  /** Moving the brackets of a three-part concatenation. */
  lemma Regroup3(a: string, b: string, c: string)
    ensures a + (b + c) == a + b + c
  {
  }

  /** Every outlet's entry appears in the list, after a blank line. */
  lemma {:induction false} EveryOutletListed(os: seq<Outlet>, i: nat)
    requires i < |os|
    ensures Contains(OutletList(os), "\n\n" + OutletEntry(os[i]))
  {
    var before := os[..i];
    var after := os[i + 1..];
    assert os == before + [os[i]] + after;
    OutletListAppend(before + [os[i]], after);
    OutletListAppend(before, [os[i]]);
    OutletListOne(os[i]);
    ContainsIff("\n\n" + OutletEntry(os[i]), "\n\n" + OutletEntry(os[i]));
    assert OccursAt("\n\n" + OutletEntry(os[i]), "\n\n" + OutletEntry(os[i]), 0);
    ContainsInConcat(OutletList(before), "\n\n" + OutletEntry(os[i]), OutletList(after), "\n\n" + OutletEntry(os[i]));
  }

  /** The list opens with a blank line and the first outlet's bullet and name. */
  lemma OutletListStart(os: seq<Outlet>)
    requires os != []
    ensures StartsWith(OutletList(os), "\n\n" + (Bullet + os[0].name))
  {
    var entries := OutletEntries(os);
    var head := Bullet + os[0].name;
    JoinStart(entries, "\n\n", head);
    PrefixBoth("\n\n", Join(entries, "\n\n"), head);
  }

  /** An answer's text followed by the outlet list. */
  function WithList(head: string, os: seq<Outlet>): (r: string)
    ensures EndsWith(r, OutletList(os))
    ensures StartsWith(r, head)
  {
    AppendEnds(head, OutletList(os));
    head + OutletList(os)
  }

  /** What `_generate_response` returns: the answer and the suggested actions. */
  datatype Reply = Reply(text: string, actions: seq<string>)

  /** The descriptions of the named services that are in the table, in order. */
  function Descriptions(names: seq<string>, svcs: seq<Service>): (r: seq<string>)
    ensures |r| <= |names|
    ensures r == [] <==> forall i :: 0 <= i < |names| ==> FindService(names[i], svcs).None?
    ensures forall i :: 0 <= i < |names| && FindService(names[i], svcs).Some? ==>
      FindService(names[i], svcs).value.description in r
    ensures forall d :: d in r ==>
      exists i :: 0 <= i < |names| && FindService(names[i], svcs).Some? && FindService(names[i], svcs).value.description == d
    decreases |names|
  {
    if names == [] then []
    else
      var rest := Descriptions(names[1..], svcs);
      assert forall i :: 1 <= i < |names| ==> names[i] == names[1..][i - 1];
      (match FindService(names[0], svcs)
        case Some(s) => [s.description]
        case None => []) + rest
  }


  /** What every answer promises: at least two suggested actions, and the
      outlet list at the end whenever there are outlets. */
  predicate Complete(r: Reply, os: seq<Outlet>) {
    |r.actions| >= 2 && (os != [] ==> EndsWith(r.text, OutletList(os)))
  }

  /** Birthday parties, some outlets found. */
  function BirthdayFound(os: seq<Outlet>): (r: Reply)
    ensures Complete(r, os)
    ensures Opens(r, PartyOpening, |os|, OutletNoun)
  {
    CountedReply(PartyOpening, OutletNoun,
      " that offer birthday " + "party services."
      + " These locations can " + "host your special " + "celebration with " + "party packages, Happy "
      + "Meals, decorations, " + "and fun activities " + "for kids!",
      os, ["Book a party", "View party packages", "Get contact details", "Get directions"])
  }

  /** Birthday parties, no outlet found. */
  function BirthdayNone(): (r: Reply)
    ensures |r.actions| >= 2
  {
    Reply(
      "I couldn't find any " + "outlets specifically " + "offering birthday " + "party services in our "
      + "database. However, " + "many McDonald's " + "outlets can " + "accommodate "
      + "celebrations - I'd " + "recommend contacting " + "them directly!",
      ["Find nearby outlets", "Contact customer service"])
  }

  /** Round-the-clock outlets, some found; the places are named when there are any. */
  function AllDayFound(os: seq<Outlet>, locs: seq<string>): (r: Reply)
    ensures Complete(r, os)
    ensures Opens(r, AllDayOpening, |os|, OutletNoun)
  {
    CountedReply(AllDayOpening, OutletNoun,
      " that operate 24 hours."
      + (if locs != [] then " These are located " + "around " + Join(locs, ", ") + "." else "")
      + " Perfect for those " + "late-night cravings " + "or early morning " + "breakfast!",
      os, ["Get directions", "View menu", "Check other services"])
  }

  /** Round-the-clock outlets, none found. */
  function AllDayNone(): (r: Reply)
    ensures |r.actions| >= 2
  {
    Reply(
      "I couldn't find any " + "24-hour McDonald's " + "outlets in the " + "specified area. Would "
      + "you like me to show " + "you outlets with " + "extended hours " + "instead?",
      ["Search nearby areas", "Find outlets with " + "other services"])
  }

  /** Drive-thru outlets, some found. */
  function DriveThruFound(os: seq<Outlet>): (r: Reply)
    ensures Complete(r, os)
    ensures Opens(r, DriveThruOpening, |os|, OutletNoun)
  {
    CountedReply(DriveThruOpening, OutletNoun,
      " with Drive-Thru " + "service."
      + " Great for quick and " + "convenient ordering " + "from your car!",
      os, ["Get directions", "View Drive-Thru menu", "Check operating hours"])
  }

  /** Drive-thru outlets, none found. */
  function DriveThruNone(): (r: Reply)
    ensures |r.actions| >= 2
  {
    Reply(
      "I couldn't find any " + "Drive-Thru McDonald's " + "outlets in the " + "specified area.",
      ["Search nearby areas", "Find all outlets"])
  }

  /** Any other service, found or not: the count and the service
      descriptions, or a generic phrase when no name is in the table. */
  function ServicesFound(os: seq<Outlet>, descriptions: seq<string>): (r: Reply)
    ensures Complete(r, os)
    ensures Opens(r, OfferingOpening, |os|, PlainNoun)
  {
    CountedReply(OfferingOpening, PlainNoun,
      " offering " + (if descriptions != [] then Join(descriptions, ", ") else "the requested " + "services") + ".",
      os, ["Get directions", "View details", "Check other services"])
  }

  /** The answer to a service inquiry: the birthday, round-the-clock and
      drive-thru services have their own wording, checked in that order. */
  function ServiceReply(os: seq<Outlet>, e: E.Entities): (r: Reply)
    ensures Complete(r, os)
    ensures os != [] && "birthday_party" in e.services ==>
      Opens(r, PartyOpening, |os|, OutletNoun)
    ensures os != [] && "birthday_party" !in e.services && "24_hours" in e.services ==>
      Opens(r, AllDayOpening, |os|, OutletNoun)
    ensures os != [] && "birthday_party" !in e.services && "24_hours" !in e.services && "drive_thru" in e.services ==>
      Opens(r, DriveThruOpening, |os|, OutletNoun)
    ensures "birthday_party" !in e.services && "24_hours" !in e.services && "drive_thru" !in e.services ==>
      Opens(r, OfferingOpening, |os|, PlainNoun)
  {
    if "birthday_party" in e.services then
      if os != [] then BirthdayFound(os) else BirthdayNone()
    else if "24_hours" in e.services then
      if os != [] then AllDayFound(os, e.locations) else AllDayNone()
    else if "drive_thru" in e.services then
      if os != [] then DriveThruFound(os) else DriveThruNone()
    else ServicesFound(os, Descriptions(e.services, Services))
  }

  /** A place search, some outlets found; the places are named when there are any. */
  function LocatedFound(os: seq<Outlet>, locs: seq<string>): (r: Reply)
    ensures Complete(r, os)
    ensures Opens(r, LocatedOpening, |os|, OutletNoun)
  {
    CountedReply(LocatedOpening, OutletNoun,
      (if locs != [] then " near " + Join(locs, ", ") else "") + ". Here are your " + "options:",
      os, ["Get directions", "View details", "Check services"])
  }

  /** A place search, none found. */
  function LocatedNone(): (r: Reply)
    ensures |r.actions| >= 2
  {
    Reply(
      "I couldn't find any " + "McDonald's outlets in " + "that specific area. "
      + "Let me show you the " + "nearest alternatives.",
      ["Expand search area", "Show all outlets"])
  }

  /** The answer to a place search. */
  function LocationReply(os: seq<Outlet>, e: E.Entities): (r: Reply)
    ensures Complete(r, os)
    ensures os != [] ==> Opens(r, LocatedOpening, |os|, OutletNoun)
  {
    if os != [] then LocatedFound(os, e.locations) else LocatedNone()
  }

  /** Directions, some outlets found. */
  function NavigateFound(os: seq<Outlet>): (r: Reply)
    ensures Complete(r, os)
    ensures Opens(r, NavigateOpening, |os|, NearbyNoun)
  {
    CountedReply(NavigateOpening, NearbyNoun,
      ". " + "Each location " + "includes Waze links " + "for easy navigation.",
      os, ["Open in Waze", "Get walking directions", "View on map"])
  }

  /** Directions, none found. */
  function NavigateNone(): (r: Reply)
    ensures |r.actions| >= 2
  {
    Reply(
      "I need more location " + "information to " + "provide navigation " + "assistance.",
      ["Provide current location", "Search by address"])
  }

  /** The answer to a request for directions. */
  function NavigationReply(os: seq<Outlet>): (r: Reply)
    ensures Complete(r, os)
    ensures os != [] ==>
      Opens(r, NavigateOpening, |os|, NearbyNoun)
  {
    if os != [] then NavigateFound(os) else NavigateNone()
  }

  /** Anything else, some outlets found. */
  function GeneralFound(os: seq<Outlet>): (r: Reply)
    ensures Complete(r, os)
    ensures Opens(r, GeneralOpening, |os|, OutletNoun)
  {
    CountedReply(GeneralOpening, OutletNoun,
      " in our database. " + "Each location offers " + "various services and " + "amenities.",
      os, ["View all details", "Filter by services", "Find nearest"])
  }

  /** Anything else, none found: the welcome text. */
  function GeneralNone(): (r: Reply)
    ensures |r.actions| >= 2
  {
    Reply(
      "Welcome to the " + "McDonald's Outlet " + "Finder! I can help " + "you find outlets, "
      + "check services like " + "24-hour operation, " + "Drive-Thru, and " + "provide directions.",
      ["Find nearby outlets", "Check 24-hour locations", "Search by area"])
  }

  /** The answer to anything else. */
  function GeneralReply(os: seq<Outlet>): (r: Reply)
    ensures Complete(r, os)
    ensures os != [] ==> Opens(r, GeneralOpening, |os|, OutletNoun)
  {
    if os != [] then GeneralFound(os) else GeneralNone()
  }

  /** `_generate_response`. The query text is not consulted, and the error
      intent gets the general answer. */
  function Respond(intent: Intent, os: seq<Outlet>, e: E.Entities): (r: Reply)
    ensures Complete(r, os)
    ensures intent == ServiceInquiry ==> r == ServiceReply(os, e)
    ensures os != [] && intent == LocationSearch ==>
      Opens(r, LocatedOpening, |os|, OutletNoun)
    ensures os != [] && intent == Navigation ==>
      Opens(r, NavigateOpening, |os|, NearbyNoun)
    ensures os != [] && (intent == GeneralInfo || intent == Error) ==>
      Opens(r, GeneralOpening, |os|, OutletNoun)
  {
    if intent == ServiceInquiry then ServiceReply(os, e)
    else if intent == LocationSearch then LocationReply(os, e)
    else if intent == Navigation then NavigationReply(os)
    else GeneralReply(os)
  }
}
