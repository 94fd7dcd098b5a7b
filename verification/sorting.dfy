/** Python's `sorted(..., key=score, reverse=True)` on scored items: a stable
    sort into non-increasing score order, modelled as an insertion sort. */
module Sorting {

  /** An item paired with its score, as the `(item, score)` tuples the
      ranking code builds before sorting. */
  datatype Scored<T> = Scored(item: T, score: real)

  /** Scores never increase from left to right. */
  predicate SortedDesc<T>(s: seq<Scored<T>>) {
    forall i, j :: 0 <= i < j < |s| ==> s[i].score >= s[j].score
  }

  /** Puts `x` in front of the first element whose score is not above `x`'s,
      so `x` precedes every element it ties with. */
  function Insert<T(==)>(x: Scored<T>, s: seq<Scored<T>>): (r: seq<Scored<T>>)
    requires SortedDesc(s)
    ensures SortedDesc(r)
    ensures multiset(r) == multiset(s) + multiset{x}
    decreases |s|
  {
    if s == [] || s[0].score <= x.score then [x] + s
    else
      var rest := Insert(x, s[1..]);
      assert s == [s[0]] + s[1..];
      InsertHead(s[0], x, s[1..], rest);
      [s[0]] + rest
  }

  /** Putting an element at least as high as everything else in front keeps
      a list sorted. */
  lemma InsertHead<T>(h: Scored<T>, x: Scored<T>, t: seq<Scored<T>>, rest: seq<Scored<T>>)
    requires SortedDesc([h] + t) && x.score < h.score
    requires SortedDesc(rest) && multiset(rest) == multiset(t) + multiset{x}
    ensures SortedDesc([h] + rest)
  {
    var r := [h] + rest;
    forall j | 0 < j < |r|
      ensures h.score >= r[j].score
    {
      var y := r[j];
      assert y == rest[j - 1];
      assert y in multiset(rest);
      if y != x {
        assert y in multiset(t);
        var m :| 0 <= m < |t| && t[m] == y;
        assert ([h] + t)[0] == h && ([h] + t)[m + 1] == y;
        assert ([h] + t)[0].score >= ([h] + t)[m + 1].score;
      }
    }
    forall i, j | 0 <= i < j < |r|
      ensures r[i].score >= r[j].score
    {
      if i > 0 {
        assert r[i] == rest[i - 1] && r[j] == rest[j - 1];
      }
    }
  }

  /** The stable descending sort of a list of scored items. */
  function SortDesc<T(==)>(xs: seq<Scored<T>>): (r: seq<Scored<T>>)
    ensures SortedDesc(r)
    ensures multiset(r) == multiset(xs)
    decreases |xs|
  {
    if xs == [] then []
    else
      assert xs == [xs[0]] + xs[1..];
      Insert(xs[0], SortDesc(xs[1..]))
  }

  /** The elements of `s` whose score is `k`, in order. */
  function WithScore<T>(s: seq<Scored<T>>, k: real): seq<Scored<T>>
    decreases |s|
  {
    if s == [] then []
    else if s[0].score == k then [s[0]] + WithScore(s[1..], k)
    else WithScore(s[1..], k)
  }

  /** Inserting `x` adds it at the front of its own score class and leaves
      every other class alone. */
  lemma {:induction false} InsertWithScore<T>(x: Scored<T>, s: seq<Scored<T>>, k: real)
    requires SortedDesc(s)
    ensures WithScore(Insert(x, s), k) == if x.score == k then [x] + WithScore(s, k) else WithScore(s, k)
    decreases |s|
  {
    if s == [] || s[0].score <= x.score {
      if s != [] && x.score == k {
        InsertTieFree(x, s);
      }
    } else {
      InsertWithScore(x, s[1..], k);
      if x.score == k {
        assert s[0].score != k;
      }
    }
  }

  /** When `x` goes in front of a sorted list, nothing in that list that
      comes before `x`'s ties is skipped: the list's own elements of `x`'s
      score are exactly its elements of that score. */
  lemma InsertTieFree<T>(x: Scored<T>, s: seq<Scored<T>>)
    requires SortedDesc(s) && s != [] && s[0].score <= x.score
    ensures WithScore([x] + s, x.score) == [x] + WithScore(s, x.score)
  {
    assert ([x] + s)[1..] == s;
  }

  /** Sorting is stable: for every score, the items with that score appear
      in the output in the order they had in the input. */
  lemma {:induction false} SortStable<T>(xs: seq<Scored<T>>, k: real)
    ensures WithScore(SortDesc(xs), k) == WithScore(xs, k)
    decreases |xs|
  {
    if xs != [] {
      SortStable(xs[1..], k);
      InsertWithScore(xs[0], SortDesc(xs[1..]), k);
    }
  }

  /** A list all of whose scores are `k` is its own class of score `k`. */
  lemma {:induction false} WithScoreAll<T>(xs: seq<Scored<T>>, k: real)
    requires forall i :: 0 <= i < |xs| ==> xs[i].score == k
    ensures WithScore(xs, k) == xs
    decreases |xs|
  {
    if xs != [] {
      WithScoreAll(xs[1..], k);
      assert xs == [xs[0]] + xs[1..];
    }
  }

  /** When every score is the same, sorting changes nothing. */
  lemma SortAllEqual<T>(xs: seq<Scored<T>>, k: real)
    requires forall i :: 0 <= i < |xs| ==> xs[i].score == k
    ensures SortDesc(xs) == xs
  {
    var r := SortDesc(xs);
    SortStable(xs, k);
    WithScoreAll(xs, k);
    forall i | 0 <= i < |r|
      ensures r[i].score == k
    {
      assert r[i] in multiset(xs);
    }
    WithScoreAll(r, k);
  }

  /** The items of a list of scored items, in order. */
  function Items<T>(s: seq<Scored<T>>): (r: seq<T>)
    ensures |r| == |s|
  {
    seq(|s|, i requires 0 <= i < |s| => s[i].item)
  }

  /** Each item sits where its pair does. */
  lemma ItemsAt<T>(s: seq<Scored<T>>)
    ensures forall i :: 0 <= i < |s| ==> Items(s)[i] == s[i].item
  {
  }

  /** The items of a non-empty list are its head's item and the items of
      its tail. */
  lemma ItemsHead<T>(s: seq<Scored<T>>)
    requires s != []
    ensures multiset(Items(s)) == multiset(Items(s[1..])) + multiset{s[0].item}
  {
    ItemsAt(s);
    ItemsAt(s[1..]);
    assert Items(s) == [s[0].item] + Items(s[1..]);
  }

  /** Inserting adds the item to the items. */
  lemma {:induction false} ItemsInsert<T>(x: Scored<T>, s: seq<Scored<T>>)
    requires SortedDesc(s)
    ensures multiset(Items(Insert(x, s))) == multiset(Items(s)) + multiset{x.item}
    decreases |s|
  {
    if s == [] || s[0].score <= x.score {
      var r := Insert(x, s);
      assert r == [x] + s;
      assert r[0] == x && r[1..] == s;
      ItemsHead(r);
    } else {
      InsertPasses(x, s);
      ItemsInsert(x, s[1..]);
      ItemsInsertStep(x, s);
    }
  }

  /** The inductive step: inserting into the tail adds the item there, so
      it adds it to the whole list. */
  lemma ItemsInsertStep<T>(x: Scored<T>, s: seq<Scored<T>>)
    requires SortedDesc(s) && s != [] && x.score < s[0].score
    requires SortedDesc(s[1..])
    requires multiset(Items(Insert(x, s[1..]))) == multiset(Items(s[1..])) + multiset{x.item}
    ensures multiset(Items(Insert(x, s))) == multiset(Items(s)) + multiset{x.item}
  {
    InsertPasses(x, s);
    var r := Insert(x, s);
    assert r[0] == s[0] && r[1..] == Insert(x, s[1..]);
    ItemsHead(r);
    ItemsHead(s);
  }

  /** An element scored below the head goes into the tail. */
  lemma InsertPasses<T>(x: Scored<T>, s: seq<Scored<T>>)
    requires SortedDesc(s) && s != [] && x.score < s[0].score
    ensures SortedDesc(s[1..])
    ensures Insert(x, s) == [s[0]] + Insert(x, s[1..])
  {
  }

  /** When every pair carries its item's key as score, the items of a
      sorted list are in non-increasing key order. */
  lemma SortedItems<T>(s: seq<Scored<T>>, key: T -> real)
    requires SortedDesc(s)
    requires forall i :: 0 <= i < |s| ==> s[i].score == key(s[i].item)
    ensures forall i, j :: 0 <= i < j < |s| ==> key(Items(s)[i]) >= key(Items(s)[j])
  {
    ItemsAt(s);
  }

  /** Sorting permutes the items. */
  lemma {:induction false} ItemsSortDesc<T>(xs: seq<Scored<T>>)
    ensures multiset(Items(SortDesc(xs))) == multiset(Items(xs))
    decreases |xs|
  {
    if xs != [] {
      ItemsSortDesc(xs[1..]);
      ItemsSortStep(xs);
    }
  }

  /** The inductive step of `ItemsSortDesc`. */
  lemma ItemsSortStep<T>(xs: seq<Scored<T>>)
    requires xs != [] && multiset(Items(SortDesc(xs[1..]))) == multiset(Items(xs[1..]))
    ensures multiset(Items(SortDesc(xs))) == multiset(Items(xs))
  {
    assert SortDesc(xs) == Insert(xs[0], SortDesc(xs[1..]));
    ItemsInsert(xs[0], SortDesc(xs[1..]));
    ItemsHead(xs);
  }

  /** The elements of `xs` whose key is `k`, in order. */
  function WithKey<T>(xs: seq<T>, key: T -> real, k: real): seq<T>
    decreases |xs|
  {
    if xs == [] then []
    else if key(xs[0]) == k then [xs[0]] + WithKey(xs[1..], key, k)
    else WithKey(xs[1..], key, k)
  }

  /** When every pair carries its item's key as score, taking one score
      class commutes with taking items. */
  lemma {:induction false} WithKeyItems<T>(s: seq<Scored<T>>, key: T -> real, k: real)
    requires forall i :: 0 <= i < |s| ==> s[i].score == key(s[i].item)
    ensures WithKey(Items(s), key, k) == Items(WithScore(s, k))
    decreases |s|
  {
    if s != [] {
      WithKeyItems(s[1..], key, k);
      assert Items(s)[1..] == Items(s[1..]);
      if s[0].score == k {
        assert Items([s[0]] + WithScore(s[1..], k)) == [s[0].item] + Items(WithScore(s[1..], k));
      }
    }
  }
}
