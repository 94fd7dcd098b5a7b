/** The fixed tables the assistant reasons with (location aliases and the
    service table) and the keyword-overlap search over the service table. */
module KnowledgeBase {
  import opened Results
  import opened Text
  import opened TextProcessor
  import opened Sorting

  /** One row of the service table: its key, the words that suggest it, a
      human description and the perk codes that identify it in storage. */
  datatype Service = Service(name: string, keywords: seq<string>, description: string, perkCodes: seq<string>)

  // Longer texts in this module are written as concatenations of short
  // literals; the pieces join into the one text of the source, and are
  // split only to keep the verifier's work on literals small.

  /** The service table, in declaration order. */
  const Services: seq<Service> := [
    Service("24_hours",
      ["24", "hour", "hours", "all", "day", "night", "late", "early", "always", "anytime"],
      "Outlets operating 24 " + "hours a day", ["24_HOURS"]),
    Service("drive_thru",
      ["drive", "thru", "through", "car", "vehicle", "takeaway", "pickup", "dt"],
      "Outlets with " + "drive-thru service", ["DRIVE_THRU"]),
    Service("birthday_party",
      ["birthday", "party", "parties", "celebration", "event", "kids", "children", "happy", "meal", "celebrate"],
      "Outlets supporting " + "birthday party " + "bookings", ["BIRTHDAY_PARTY"]),
    Service("wifi",
      ["wifi", "internet", "online", "connection", "work", "study"],
      "Outlets with free " + "WiFi access", ["WIFI"]),
    Service("mccafe",
      ["mccafe", "coffee", "cafe", "espresso", "latte", "cappuccino"],
      "Outlets with McCafé " + "service", ["MCCAFE"]),
    Service("delivery",
      ["delivery", "mcdelivery", "grab", "foodpanda", "deliver"],
      "Outlets with delivery " + "service", ["MCDELIVERY"]),
    Service("breakfast",
      ["breakfast", "morning", "early"],
      "Outlets serving breakfast", ["BREAKFAST"]),
    Service("cashless",
      ["cashless", "card", "payment", "digital"],
      "Outlets with cashless " + "payment facilities", ["CASHLESS_FACILITY"]),
    Service("surau",
      ["surau", "prayer", "muslim", "worship"],
      "Outlets with prayer " + "facilities", ["SURAU"])
  ]

  /** Short forms of place names and the names they stand for. */
  const LocationAliases: map<string, string> := map[
    "kl" := "kuala lumpur",
    "klcc" := "kuala lumpur city centre",
    "bb" := "bukit bintang",
    "pj" := "petaling jaya",
    "mv" := "mid valley",
    "pavilion" := "pavilion kuala lumpur",
    "times square" := "berjaya times square",
    "lot 10" := "lot 10 shopping centre"
  ]

  /** `location_aliases.get(loc, loc)`. */
  function Alias(loc: string): (r: string)
    ensures loc in LocationAliases ==> r == LocationAliases[loc]
    ensures loc !in LocationAliases ==> r == loc
  {
    if loc in LocationAliases then LocationAliases[loc] else loc
  }

  /** The keys of a list of services, in order. */
  function Names(svcs: seq<Service>): (r: seq<string>)
    ensures |r| == |svcs|
    ensures forall i :: 0 <= i < |svcs| ==> r[i] == svcs[i].name
  {
    seq(|svcs|, i requires 0 <= i < |svcs| => svcs[i].name)
  }

  /** The table row with the given key, if any (`service_knowledge.get(name)`). */
  function FindService(name: string, svcs: seq<Service>): (r: Option<Service>)
    ensures r.Some? ==> r.value in svcs && r.value.name == name
    ensures r.None? ==> forall s :: s in svcs ==> s.name != name
    decreases |svcs|
  {
    if svcs == [] then None
    else if svcs[0].name == name then Some(svcs[0])
    else FindService(name, svcs[1..])
  }

  // ---------------------------------------------------------------------------
  // search_knowledge
  // ---------------------------------------------------------------------------

  /** How many query keywords, counted with repetition, are keywords of the
      service. */
  function Hits(qk: seq<string>, kws: seq<string>): (n: nat)
    ensures n <= |qk|
    ensures n > 0 <==> exists i :: 0 <= i < |qk| && qk[i] in kws
    decreases |qk|
  {
    if qk == [] then 0
    else
      var rest := Hits(qk[1..], kws);
      assert rest > 0 <==> exists i :: 0 <= i < |qk| - 1 && qk[1..][i] in kws;
      assert (exists i :: 0 <= i < |qk| && qk[i] in kws) <==>
        (qk[0] in kws || exists i :: 0 <= i < |qk| - 1 && qk[1..][i] in kws) by {
        if exists i :: 0 <= i < |qk| && qk[i] in kws {
          var i :| 0 <= i < |qk| && qk[i] in kws;
          if i > 0 {
            assert qk[1..][i - 1] in kws;
          }
        }
        if exists i :: 0 <= i < |qk| - 1 && qk[1..][i] in kws {
          var i :| 0 <= i < |qk| - 1 && qk[1..][i] in kws;
          assert qk[i + 1] in kws;
        }
      }
      (if qk[0] in kws then 1 else 0) + rest
  }

  /** A service's score for a query: the matching query keywords over all
      query keywords; 0 when the query has no keywords. */
  function ServiceScore(qk: seq<string>, svc: Service): (r: real)
    ensures 0.0 <= r <= 1.0
    ensures r > 0.0 <==> exists i :: 0 <= i < |qk| && qk[i] in svc.keywords
  {
    var h := Hits(qk, svc.keywords);
    if |qk| > 0 then (h as real) / (|qk| as real) else h as real
  }

  /** The services with a positive score, each paired with it, in table order. */
  function Candidates(qk: seq<string>, svcs: seq<Service>): (r: seq<Scored<string>>)
    ensures forall i :: 0 <= i < |r| ==> 0.0 < r[i].score <= 1.0
    ensures forall x :: x in r <==>
      exists s :: s in svcs && ServiceScore(qk, s) > 0.0 && x == Scored(s.name, ServiceScore(qk, s))
    decreases |svcs|
  {
    if svcs == [] then []
    else
      var s := svcs[0];
      var rest := Candidates(qk, svcs[1..]);
      assert forall t :: t in svcs <==> t == s || t in svcs[1..];
      if ServiceScore(qk, s) > 0.0 then [Scored(s.name, ServiceScore(qk, s))] + rest else rest
  }

  /** The candidates appear in table order. */
  lemma {:induction false} CandidatesInOrder(qk: seq<string>, svcs: seq<Service>)
    ensures IsSubsequence(Items(Candidates(qk, svcs)), Names(svcs))
    decreases |svcs|
  {
    if svcs != [] {
      CandidatesInOrder(qk, svcs[1..]);
      var r := Candidates(qk, svcs);
      var rest := Candidates(qk, svcs[1..]);
      assert Names(svcs)[1..] == Names(svcs[1..]);
      if ServiceScore(qk, svcs[0]) > 0.0 {
        assert r == [Scored(svcs[0].name, ServiceScore(qk, svcs[0]))] + rest;
        assert Items(r)[1..] == Items(rest);
      }
    }
  }

  /** `search_knowledge`: the services the query's keywords point to, best
      score first, ties in table order. */
  function SearchKnowledge(query: string): (r: seq<Scored<string>>)
    ensures SortedDesc(r)
    ensures multiset(r) == multiset(Candidates(ExtractKeywords(query), Services))
    ensures forall i :: 0 <= i < |r| ==> 0.0 < r[i].score <= 1.0
  {
    var c := Candidates(ExtractKeywords(query), Services);
    var r := SortDesc(c);
    forall i | 0 <= i < |r|
      ensures 0.0 < r[i].score <= 1.0
    {
      assert r[i] in multiset(c);
    }
    r
  }

  /** Two rows of the table with the same key are the same row. */
  lemma NameDetermines(s: Service, t: Service)
    requires s in Services && t in Services && s.name == t.name
    ensures s == t
  {
  }

  /** A service whose key no other row shares is among the sorted
      candidates exactly when one of the keywords is among its keywords. */
  lemma SortedCandidatesMembership(qk: seq<string>, svcs: seq<Service>, s: Service)
    requires s in svcs
    requires forall t :: t in svcs && t.name == s.name ==> t == s
    ensures (exists x :: x in SortDesc(Candidates(qk, svcs)) && x.item == s.name) <==>
      (exists w :: w in qk && w in s.keywords)
  {
    var c := Candidates(qk, svcs);
    var r := SortDesc(c);
    if exists w :: w in qk && w in s.keywords {
      var w :| w in qk && w in s.keywords;
      var i :| 0 <= i < |qk| && qk[i] == w;
      var x := Scored(s.name, ServiceScore(qk, s));
      assert x in c;
      assert x in multiset(r);
    }
    if exists x :: x in r && x.item == s.name {
      var x :| x in r && x.item == s.name;
      assert x in multiset(c);
      assert x in c;
      var t :| t in svcs && ServiceScore(qk, t) > 0.0 && x == Scored(t.name, ServiceScore(qk, t));
      assert t == s;
      assert ServiceScore(qk, s) > 0.0;
      var i :| 0 <= i < |qk| && qk[i] in s.keywords;
      assert qk[i] in qk;
    }
  }

  /** A service is in the search result exactly when one of the query's
      keywords is among the service's keywords. */
  lemma SearchMembership(query: string, s: Service)
    requires s in Services
    ensures (exists x :: x in SearchKnowledge(query) && x.item == s.name) <==>
      (exists w :: w in ExtractKeywords(query) && w in s.keywords)
  {
    forall t | t in Services && t.name == s.name
      ensures t == s
    {
      NameDetermines(s, t);
    }
    SortedCandidatesMembership(ExtractKeywords(query), Services, s);
  }

  /** Services that tie keep their table order in the search result. */
  lemma SearchTiesInTableOrder(query: string, k: real)
    ensures WithScore(SearchKnowledge(query), k) == WithScore(Candidates(ExtractKeywords(query), Services), k)
  {
    SortStable(Candidates(ExtractKeywords(query), Services), k);
  }

  /** The table keywords "24" and "dt" are too short to survive keyword
      extraction, so they never contribute to a search score. */
  lemma ShortKeywordsNeverScore(query: string)
    ensures "24" in Services[0].keywords && "dt" in Services[1].keywords
    ensures "24" !in ExtractKeywords(query) && "dt" !in ExtractKeywords(query)
  {
    KeywordsShape(query);
    assert Services[0].keywords[0] == "24";
    assert Services[1].keywords[7] == "dt";
  }
}
