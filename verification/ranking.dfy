/** `_rank_outlets_by_relevance`: scoring the fetched outlets against the
    query and its entities, then a stable sort, best first. */
module Ranking {
  import opened Results
  import opened Text
  import opened TextProcessor
  import opened KnowledgeBase
  import opened Sorting
  import E = Entities

  /** One outlet row as storage returns it. `perkCodes` and `perkNames` are
      the comma-joined codes and names of its perks, empty when it has none. */
  datatype Outlet = Outlet(
    id: int,
    name: string,
    address: string,
    wazeLink: Option<string>,
    latitude: Option<real>,
    longitude: Option<real>,
    perkCodes: string,
    perkNames: string)

  /** How many of the places (with repetition) occur, case-insensitively,
      in the address. */
  function PlaceHits(address: string, locs: seq<string>): (n: nat)
    ensures n <= |locs|
    ensures n > 0 <==> exists i :: 0 <= i < |locs| && Contains(Lower(address), Lower(locs[i]))
    decreases |locs|
  {
    if locs == [] then 0
    else
      var rest := PlaceHits(address, locs[1..]);
      assert forall i :: 1 <= i < |locs| ==> locs[1..][i - 1] == locs[i];
      (if Contains(Lower(address), Lower(locs[0])) then 1 else 0) + rest
  }

  /** Some code of the list occurs in the comma-joined perk codes (a plain
      substring test, so `"WIFI"` is also found inside `"FREE_WIFI"`). */
  predicate HasSomeCode(perks: string, codes: seq<string>) {
    exists i :: 0 <= i < |codes| && Contains(perks, codes[i])
  }

  /** How many of the named services the outlet offers: a name counts once
      when it is in the table and one of its perk codes occurs in the perks. */
  function ServiceHits(perks: string, names: seq<string>, svcs: seq<Service>): (n: nat)
    ensures n <= |names|
    decreases |names|
  {
    if names == [] then 0
    else
      var hit := match FindService(names[0], svcs)
        case Some(s) => HasSomeCode(perks, s.perkCodes)
        case None => false;
      (if hit then 1 else 0) + ServiceHits(perks, names[1..], svcs)
  }

  /** The relevance of an outlet: 0.5 per place found in its address, 0.8
      per requested service it offers, and 0.3 times the similarity of the
      query to its name. */
  function Score(o: Outlet, query: string, e: E.Entities): (r: real)
    ensures 0.0 <= r <= 0.5 * (|e.locations| as real) + 0.8 * (|e.services| as real) + 0.3
    ensures r >= 0.5 * (PlaceHits(o.address, e.locations) as real) + 0.8 * (ServiceHits(o.perkCodes, e.services, Services) as real)
  {
    0.5 * (PlaceHits(o.address, e.locations) as real)
    + 0.8 * (ServiceHits(o.perkCodes, e.services, Services) as real)
    + 0.3 * Similarity(query, o.name)
  }

  /** An outlet that matches no place and no service scores at most 0.3,
      which its name alone can earn. */
  lemma NameAloneScoresLittle(o: Outlet, query: string, e: E.Entities)
    requires PlaceHits(o.address, e.locations) == 0 && ServiceHits(o.perkCodes, e.services, Services) == 0
    ensures Score(o, query, e) <= 0.3
    ensures Score(o, query, e) == 0.3 <==>
      KeywordSet(query) != {} && KeywordSet(query) == KeywordSet(o.name)
  {
  }

  /** Each outlet paired with its score, in the given order. */
  function ScoreAll(os: seq<Outlet>, query: string, e: E.Entities): (r: seq<Scored<Outlet>>)
    ensures |r| == |os|
    ensures forall i :: 0 <= i < |os| ==> r[i] == Scored(os[i], Score(os[i], query, e))
  {
    seq(|os|, i requires 0 <= i < |os| => Scored(os[i], Score(os[i], query, e)))
  }

  /** Every pair carries its outlet's score. */
  ghost predicate Keyed(s: seq<Scored<Outlet>>, query: string, e: E.Entities) {
    forall i :: 0 <= i < |s| ==> s[i].score == Score(s[i].item, query, e)
  }

  /** The outlets are in order of non-increasing relevance. */
  predicate ByScore(os: seq<Outlet>, query: string, e: E.Entities) {
    forall i, j :: 0 <= i < j < |os| ==> Score(os[i], query, e) >= Score(os[j], query, e)
  }

  /** `_rank_outlets_by_relevance`. */
  function Rank(os: seq<Outlet>, query: string, e: E.Entities): (r: seq<Outlet>)
    ensures multiset(r) == multiset(os)
    ensures forall i, j :: 0 <= i < j < |r| ==> Score(r[i], query, e) >= Score(r[j], query, e)
    ensures os == [] ==> r == []
  {
    if os == [] then os
    else
      var sc := ScoreAll(os, query, e);
      var sorted := SortDesc(sc);
      SortKeyed(sc, sorted, query, e);
      ItemsSortDesc(sc);
      ItemsAt(sc);
      assert Items(sc) == os;
      Items(sorted)
  }

  /** A permutation of keyed pairs is keyed, and when sorted its items are
      in non-increasing score order. */
  lemma SortKeyed(sc: seq<Scored<Outlet>>, sorted: seq<Scored<Outlet>>, query: string, e: E.Entities)
    requires Keyed(sc, query, e) && multiset(sorted) == multiset(sc) && SortedDesc(sorted)
    ensures Keyed(sorted, query, e)
    ensures forall i, j :: 0 <= i < j < |sorted| ==>
      Score(Items(sorted)[i], query, e) >= Score(Items(sorted)[j], query, e)
  {
    forall i | 0 <= i < |sorted|
      ensures sorted[i].score == Score(sorted[i].item, query, e)
    {
      assert sorted[i] in multiset(sc);
      var k :| 0 <= k < |sc| && sc[k] == sorted[i];
    }
    SortedItems(sorted, o => Score(o, query, e));
  }

  /** The outlets of `os` whose score is `k`, in order. */
  function OfScore(os: seq<Outlet>, query: string, e: E.Entities, k: real): seq<Outlet> {
    WithKey(os, o => Score(o, query, e), k)
  }

  /** The ranking is stable: outlets with equal scores keep the order
      storage returned them in. */
  lemma RankStable(os: seq<Outlet>, query: string, e: E.Entities, k: real)
    ensures OfScore(Rank(os, query, e), query, e, k) == OfScore(os, query, e, k)
  {
    if os != [] {
      var sc := ScoreAll(os, query, e);
      var sorted := SortDesc(sc);
      SortKeyed(sc, sorted, query, e);
      ItemsAt(sc);
      assert Items(sc) == os;
      WithKeyItems(sorted, o => Score(o, query, e), k);
      WithKeyItems(sc, o => Score(o, query, e), k);
      SortStable(sc, k);
    }
  }

  /** An outlet found under more of the places, with all else equal, ranks
      no lower: the place term is the only one that differs. */
  lemma MorePlacesScoreHigher(o: Outlet, p: Outlet, query: string, e: E.Entities)
    requires o.name == p.name && o.perkCodes == p.perkCodes
    requires PlaceHits(o.address, e.locations) >= PlaceHits(p.address, e.locations)
    ensures Score(o, query, e) >= Score(p, query, e)
  {
  }
}
