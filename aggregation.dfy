/** The document-store operators the reports are built from, given their
    meaning over a finite sequence of documents: `$match` (Filter),
    `countDocuments` (Count), `distinct` and `$addToSet` + `$size` (Distinct),
    `$group` (GroupKeys), `$sort` (SortDesc) and `$limit` (Take). */
module Aggregation {
  import opened JsValues

  /** `$match`: the documents satisfying `p`, in their original order. */
  function Filter<T(!new)>(s: seq<T>, p: T -> bool): (r: seq<T>)
    ensures |r| <= |s|
    ensures forall x :: x in r <==> x in s && p(x)
    ensures forall i :: 0 <= i < |r| ==> p(r[i])
  {
    if s == [] then [] else (if p(s[0]) then [s[0]] else []) + Filter(s[1..], p)
  }

  lemma {:induction false} FilterAppend<T(!new)>(a: seq<T>, b: seq<T>, p: T -> bool)
    ensures Filter(a + b, p) == Filter(a, p) + Filter(b, p)
  {
    if a == [] {
      assert a + b == b;
    } else {
      assert (a + b)[0] == a[0];
      assert (a + b)[1..] == a[1..] + b;
      FilterAppend(a[1..], b, p);
    }
  }

  /** Selecting from one more document at the end. */
  lemma FilterSnoc<T(!new)>(s: seq<T>, x: T, p: T -> bool)
    ensures Filter(s + [x], p) == Filter(s, p) + (if p(x) then [x] else [])
  {
    FilterAppend(s, [x], p);
    assert [x][1..] == [];
  }

  /** Nothing is selected when no document satisfies the predicate. */
  lemma {:induction false} FilterNone<T(!new)>(s: seq<T>, p: T -> bool)
    requires forall x :: x in s ==> !p(x)
    ensures Filter(s, p) == []
  {
    if s != [] {
      FilterNone(s[1..], p);
    }
  }

  /** Filtering by a stronger predicate after a weaker one is filtering by the stronger one. */
  lemma {:induction false} FilterStronger<T(!new)>(s: seq<T>, p: T -> bool, q: T -> bool)
    requires forall x :: p(x) ==> q(x)
    ensures Filter(Filter(s, q), p) == Filter(s, p)
  {
    if s != [] {
      var t := Filter(s[1..], q);
      FilterStronger(s[1..], p, q);
      if q(s[0]) {
        var u := [s[0]] + t;
        assert Filter(s, q) == u;
        assert u[0] == s[0] && u[1..] == t;
        assert Filter(u, p) == (if p(s[0]) then [s[0]] else []) + Filter(t, p);
      } else {
        assert Filter(s, q) == t;
        assert !p(s[0]);
      }
    }
  }

  /** Two predicates that agree on every element of `s` select the same documents. */
  lemma {:induction false} FilterAgree<T(!new)>(s: seq<T>, p: T -> bool, q: T -> bool)
    requires forall x :: x in s ==> (p(x) <==> q(x))
    ensures Filter(s, p) == Filter(s, q)
  {
    if s != [] {
      FilterAgree(s[1..], p, q);
    }
  }

  /** `countDocuments`. */
  function Count<T(!new)>(s: seq<T>, p: T -> bool): nat {
    |Filter(s, p)|
  }

  /** A weaker predicate never counts fewer documents. */
  lemma {:induction false} CountMonotone<T(!new)>(s: seq<T>, p: T -> bool, q: T -> bool)
    requires forall x :: p(x) ==> q(x)
    ensures Count(s, p) <= Count(s, q)
  {
    if s != [] {
      CountMonotone(s[1..], p, q);
    }
  }

  /** `distinct(field)`, or `$addToSet` followed by `$size`: the set of values
      `f` yields, documents for which it yields nothing being skipped. */
  function Distinct<T(!new), K(!new)>(s: seq<T>, f: T -> Option<K>): (d: set<K>)
    ensures forall k :: k in d <==> exists x :: x in s && f(x) == Some(k)
    ensures |d| <= |s|
  {
    if s == [] then {}
    else
      var rest := Distinct(s[1..], f);
      var here: set<K> := match f(s[0]) case Some(k) => {k} case None => {};
      assert forall x :: x in s ==> x == s[0] || x in s[1..];
      assert |here + rest| <= |here| + |rest|;
      here + rest
  }

  lemma SubsetCardinality<K>(a: set<K>, b: set<K>)
    requires a <= b
    ensures |a| <= |b|
  {
    assert b == a + (b - a);
    assert a * (b - a) == {};
  }

  /** The distinct values over a stronger filter are among those over a weaker
      one, so there are no more of them. */
  lemma DistinctMonotone<T(!new), K(!new)>(s: seq<T>, p: T -> bool, q: T -> bool, f: T -> Option<K>)
    requires forall x :: p(x) ==> q(x)
    ensures Distinct(Filter(s, p), f) <= Distinct(Filter(s, q), f)
    ensures |Distinct(Filter(s, p), f)| <= |Distinct(Filter(s, q), f)|
  {
    SubsetCardinality(Distinct(Filter(s, p), f), Distinct(Filter(s, q), f));
  }

  /** Appending documents a predicate rejects leaves its selection unchanged. */
  lemma FilterIgnores<T(!new)>(s: seq<T>, extra: seq<T>, p: T -> bool)
    requires forall x :: x in extra ==> !p(x)
    ensures Filter(s + extra, p) == Filter(s, p)
  {
    FilterAppend(s, extra, p);
    FilterNone(extra, p);
  }

  /** A sub-collection yields no value its super-collection does not, so no more of them. */
  lemma DistinctOfSubset<T(!new), K(!new)>(a: seq<T>, b: seq<T>, f: T -> Option<K>)
    requires forall x :: x in a ==> x in b
    ensures Distinct(a, f) <= Distinct(b, f)
    ensures |Distinct(a, f)| <= |Distinct(b, f)|
  {
    SubsetCardinality(Distinct(a, f), Distinct(b, f));
  }

  /** No repeated elements. */
  predicate NoDuplicates<K(==)>(ks: seq<K>) {
    forall i, j :: 0 <= i < j < |ks| ==> ks[i] != ks[j]
  }

  /** The `_id`s of a `$group` stage, in order of first appearance: every key
      that `key` yields for some document, each exactly once. */
  function GroupKeys<T(!new), K(==,!new)>(s: seq<T>, key: T -> Option<K>): (ks: seq<K>)
    ensures forall k :: k in ks <==> exists x :: x in s && key(x) == Some(k)
    ensures NoDuplicates(ks)
    ensures |ks| <= |s|
  {
    if s == [] then []
    else
      var init := s[..|s| - 1];
      var last := s[|s| - 1];
      assert s == init + [last];
      assert forall x :: x in s <==> x in init || x == last;
      var pre := GroupKeys(init, key);
      match key(last)
      case None => pre
      case Some(k) => if k in pre then pre else pre + [k]
  }

  /** `$sum` of `f` over the documents. */
  function Sum<T>(s: seq<T>, f: T -> real): real {
    if s == [] then 0.0 else f(s[0]) + Sum(s[1..], f)
  }

  /** A sum of non-negative terms is non-negative. */
  lemma {:induction false} SumNonNegative<T>(s: seq<T>, f: T -> real)
    requires forall x :: x in s ==> f(x) >= 0.0
    ensures Sum(s, f) >= 0.0
  {
    if s != [] {
      SumNonNegative(s[1..], f);
    }
  }

  /** Applies `f` to every element. */
  function Map<A, B>(s: seq<A>, f: A -> B): (r: seq<B>)
    ensures |r| == |s| && forall i :: 0 <= i < |s| ==> r[i] == f(s[i])
  {
    if s == [] then [] else [f(s[0])] + Map(s[1..], f)
  }

  /** Non-increasing by `score` (the order `$sort: {field: -1}` produces). */
  predicate SortedDesc<R>(s: seq<R>, score: R -> real) {
    forall i, j :: 0 <= i < j < |s| ==> score(s[i]) >= score(s[j])
  }

  function InsertDesc<R>(x: R, s: seq<R>, score: R -> real): seq<R> {
    if s == [] || score(x) >= score(s[0]) then [x] + s
    else [s[0]] + InsertDesc(x, s[1..], score)
  }

  lemma {:induction false} InsertDescSpec<R>(x: R, s: seq<R>, score: R -> real)
    requires SortedDesc(s, score)
    ensures multiset(InsertDesc(x, s, score)) == multiset(s) + multiset{x}
    ensures SortedDesc(InsertDesc(x, s, score), score)
  {
    if s != [] && score(x) < score(s[0]) {
      var tail := s[1..];
      SortedDescSlice(s, 1, |s|, score);
      assert s[1..|s|] == tail;
      InsertDescSpec(x, tail, score);
      var rest := InsertDesc(x, tail, score);
      assert s == [s[0]] + tail;
      ConsMultiset(s[0], tail, rest, x);
      HeadScoresHighest(x, s, rest, score);
      ConsSortedDesc(s[0], rest, score);
    }
  }

  /** Putting the same element in front keeps one more element in the multiset. */
  lemma ConsMultiset<R>(h: R, tail: seq<R>, rest: seq<R>, x: R)
    requires multiset(rest) == multiset(tail) + multiset{x}
    ensures multiset([h] + rest) == multiset([h] + tail) + multiset{x}
  {
  }

  /** The head of a sorted sequence outscores every element of its tail and
      anything scoring lower than itself. */
  lemma HeadScoresHighest<R>(x: R, s: seq<R>, rest: seq<R>, score: R -> real)
    requires SortedDesc(s, score) && s != [] && score(x) < score(s[0])
    requires multiset(rest) == multiset(s[1..]) + multiset{x}
    ensures forall y :: y in rest ==> score(s[0]) >= score(y)
  {
    forall y | y in rest ensures score(s[0]) >= score(y) {
      assert y in multiset(rest);
      if y != x {
        assert y in multiset(s[1..]);
        var k :| 0 <= k < |s[1..]| && s[1..][k] == y;
        assert s[k + 1] == y;
      }
    }
  }

  /** A sorted sequence behind an element scoring at least as high as all of it is sorted. */
  lemma ConsSortedDesc<R>(h: R, t: seq<R>, score: R -> real)
    requires SortedDesc(t, score) && forall y :: y in t ==> score(h) >= score(y)
    ensures SortedDesc([h] + t, score)
  {
    var r := [h] + t;
    forall i, j | 0 <= i < j < |r| ensures score(r[i]) >= score(r[j]) {
      assert r[j] == t[j - 1];
      if i > 0 { assert r[i] == t[i - 1]; } else { assert r[j] in t; }
    }
  }

  /** `$sort` by `score` descending: a permutation of the input, in order.
      Documents with equal scores keep their input order. */
  function SortDesc<R>(s: seq<R>, score: R -> real): (r: seq<R>)
    ensures multiset(r) == multiset(s) && |r| == |s|
    ensures SortedDesc(r, score)
  {
    if s == [] then []
    else
      assert s == [s[0]] + s[1..];
      var t := SortDesc(s[1..], score);
      InsertDescSpec(s[0], t, score);
      InsertDesc(s[0], t, score)
  }

  /** `$limit`: the first `k` documents. */
  function Take<R>(s: seq<R>, k: nat): (r: seq<R>)
    ensures |r| == if k < |s| then k else |s|
    ensures r == s[..|r|]
  {
    if k < |s| then s[..k] else s
  }

  /** `$sort` descending then `$limit k`. */
  function TopK<R>(rows: seq<R>, k: nat, score: R -> real): seq<R> {
    Take(SortDesc(rows, score), k)
  }

  /** What `$sort` + `$limit` promise: at most `k` rows, all of them input
      rows, in descending order, and no row left out scores higher than a row
      kept. */
  lemma TopKSpec<R>(rows: seq<R>, k: nat, score: R -> real)
    ensures var r := TopK(rows, k, score);
      && |r| == (if k < |rows| then k else |rows|)
      && multiset(r) <= multiset(rows)
      && SortedDesc(r, score)
      && forall x, y :: x in rows && x !in r && y in r ==> score(y) >= score(x)
  {
    var t := SortDesc(rows, score);
    var r := TopK(rows, k, score);
    assert t == r + t[|r|..];
    assert multiset(t) == multiset(r) + multiset(t[|r|..]);
    forall x, y | x in rows && x !in r && y in r
      ensures score(y) >= score(x)
    {
      assert x in multiset(t);
      var j :| 0 <= j < |t| && t[j] == x;
      var i :| 0 <= i < |r| && r[i] == y;
      assert j >= |r|;
    }
  }

  /** With non-negative scores, the rows `$limit` keeps sum to no more than all rows. */
  lemma TopKSumAtMost<R>(rows: seq<R>, k: nat, score: R -> real)
    requires forall x :: x in rows ==> score(x) >= 0.0
    ensures Sum(TopK(rows, k, score), score) <= Sum(SortDesc(rows, score), score)
  {
    var t := SortDesc(rows, score);
    var r := TopK(rows, k, score);
    var rest := t[|r|..];
    assert t == r + rest;
    SumAppend(r, rest, score);
    forall x | x in rest ensures score(x) >= 0.0 {
      assert x in multiset(t);
    }
    SumNonNegative(rest, score);
  }

  /** Terms outside `p` that contribute nothing can be filtered away first. */
  lemma {:induction false} SumFilterZero<T(!new)>(s: seq<T>, p: T -> bool, f: T -> real)
    requires forall x :: !p(x) ==> f(x) == 0.0
    ensures Sum(s, f) == Sum(Filter(s, p), f)
  {
    if s != [] {
      SumFilterZero(s[1..], p, f);
      var t := Filter(s[1..], p);
      if p(s[0]) {
        assert Filter(s, p) == [s[0]] + t;
        assert ([s[0]] + t)[1..] == t;
        assert Sum([s[0]] + t, f) == f(s[0]) + Sum(t, f);
      } else {
        assert Filter(s, p) == [] + t == t;
      }
    }
  }

  /** `Sum` distributes over concatenation. */
  lemma {:induction false} SumAppend<T>(a: seq<T>, b: seq<T>, f: T -> real)
    ensures Sum(a + b, f) == Sum(a, f) + Sum(b, f)
  {
    if a == [] {
      assert a + b == b;
    } else {
      assert (a + b)[1..] == a[1..] + b;
      SumAppend(a[1..], b, f);
    }
  }

  /** Taking one document out of the middle takes its term out of the sum. */
  lemma SumRemove<T>(b: seq<T>, i: nat, f: T -> real)
    requires i < |b|
    ensures Sum(b, f) == f(b[i]) + Sum(b[..i] + b[i + 1..], f)
  {
    var pre, post := b[..i], b[i + 1..];
    var one := [b[i]];
    assert b == (pre + one) + post;
    assert one[1..] == [];
    assert Sum(one, f) == f(b[i]);
    SumAppend(pre + one, post, f);
    SumAppend(pre, one, f);
    SumAppend(pre, post, f);
  }

  lemma MultisetRemove<T>(b: seq<T>, i: nat)
    requires i < |b|
    ensures multiset(b[..i] + b[i + 1..]) == multiset(b) - multiset{b[i]}
  {
    assert b == b[..i] + [b[i]] + b[i + 1..];
  }

  /** `Sum` does not depend on the order of the documents. */
  lemma {:induction false} SumPermutation<T>(a: seq<T>, b: seq<T>, f: T -> real)
    requires multiset(a) == multiset(b)
    ensures Sum(a, f) == Sum(b, f)
  {
    if a != [] {
      assert a[0] in multiset(b);
      var i :| 0 <= i < |b| && b[i] == a[0];
      var rest := b[..i] + b[i + 1..];
      MultisetRemove(b, i);
      assert a == [a[0]] + a[1..];
      assert multiset(a[1..]) == multiset(rest);
      SumPermutation(a[1..], rest, f);
      SumRemove(b, i, f);
    }
  }

  /** The documents whose key is `k`. */
  function KeyIs<T, K(==)>(key: T -> K, k: K): T -> bool {
    x => key(x) == k
  }

  /** A key every document has. */
  function Keyed<T, K>(key: T -> K): T -> Option<K> {
    x => Some(key(x))
  }

  /** One output document of `$group: {_id: key, count: {$sum: 1}}`. */
  datatype Bucket<K> = Bucket(key: K, count: nat)

  function CountOf<K>(b: Bucket<K>): real {
    b.count as real
  }

  /** The bucket of each key in `ks`. */
  function CountBuckets<T(!new), K(==)>(ks: seq<K>, s: seq<T>, key: T -> K): (r: seq<Bucket<K>>)
    ensures |r| == |ks|
    ensures forall i :: 0 <= i < |ks| ==> r[i] == Bucket(ks[i], Count(s, KeyIs(key, ks[i])))
  {
    if ks == [] then [] else [Bucket(ks[0], Count(s, KeyIs(key, ks[0])))] + CountBuckets(ks[1..], s, key)
  }

  /** `$group` by `key` with a `$sum: 1` count, one bucket per key present. */
  function GroupCount<T(!new), K(==,!new)>(s: seq<T>, key: T -> K): seq<Bucket<K>> {
    CountBuckets(GroupKeys(s, Keyed(key)), s, key)
  }

  lemma CountCons<T(!new)>(x: T, rest: seq<T>, p: T -> bool)
    ensures Count([x] + rest, p) == (if p(x) then 1 else 0) + Count(rest, p)
  {
    assert ([x] + rest)[1..] == rest;
  }

  lemma {:induction false} CountBucketsOfEmpty<T(!new), K>(ks: seq<K>, key: T -> K)
    ensures Sum(CountBuckets(ks, [], key), CountOf) == 0.0
  {
    if ks != [] {
      CountBucketsOfEmpty(ks[1..], key);
    }
  }

  /** One more document adds one to the total of the buckets exactly when
      its key is among them. */
  lemma {:induction false} CountBucketsCons<T(!new), K>(ks: seq<K>, x: T, rest: seq<T>, key: T -> K)
    requires NoDuplicates(ks)
    ensures Sum(CountBuckets(ks, [x] + rest, key), CountOf)
         == Sum(CountBuckets(ks, rest, key), CountOf) + (if key(x) in ks then 1.0 else 0.0)
  {
    if ks != [] {
      assert NoDuplicates(ks[1..]) by {
        forall i, j | 0 <= i < j < |ks[1..]| ensures ks[1..][i] != ks[1..][j] {
          assert ks[1..][i] == ks[i + 1] && ks[1..][j] == ks[j + 1];
        }
      }
      CountBucketsCons(ks[1..], x, rest, key);
      CountCons(x, rest, KeyIs(key, ks[0]));
      if key(x) == ks[0] {
        assert key(x) !in ks[1..] by {
          forall j | 0 <= j < |ks[1..]| ensures ks[1..][j] != key(x) {
            assert ks[1..][j] == ks[j + 1];
          }
        }
      }
      assert key(x) in ks <==> key(x) == ks[0] || key(x) in ks[1..];
    }
  }

  /** Buckets over distinct keys covering every document partition the documents. */
  lemma {:induction false} CountBucketsPartition<T(!new), K>(ks: seq<K>, s: seq<T>, key: T -> K)
    requires NoDuplicates(ks)
    requires forall x :: x in s ==> key(x) in ks
    ensures Sum(CountBuckets(ks, s, key), CountOf) == |s| as real
  {
    if s == [] {
      CountBucketsOfEmpty(ks, key);
    } else {
      assert s == [s[0]] + s[1..];
      CountBucketsPartition(ks, s[1..], key);
      CountBucketsCons(ks, s[0], s[1..], key);
    }
  }

  /** The counts of a `$group` add up to the number of grouped documents,
      in whatever order the buckets come out. */
  lemma GroupCountTotal<T(!new), K(!new)>(s: seq<T>, key: T -> K, out: seq<Bucket<K>>)
    requires multiset(out) == multiset(GroupCount(s, key))
    ensures Sum(out, CountOf) == |s| as real
  {
    var ks := GroupKeys(s, Keyed(key));
    forall x | x in s ensures key(x) in ks {
      assert Keyed(key)(x) == Some(key(x));
    }
    CountBucketsPartition(ks, s, key);
    SumPermutation(out, GroupCount(s, key), CountOf);
  }

  /** A row `$limit` leaves out scores no higher than a row it keeps. */
  lemma TopKLeftOut<R>(rows: seq<R>, k: nat, score: R -> real, out: R, kept: R)
    requires out in rows && out !in TopK(rows, k, score) && kept in TopK(rows, k, score)
    ensures score(kept) >= score(out)
  {
    TopKSpec(rows, k, score);
  }

  /** Every document's key is among the `_id`s of its `$group` stage. */
  lemma GroupKeysCover<T(!new), K(!new)>(s: seq<T>, key: T -> K, x: T)
    requires x in s
    ensures key(x) in GroupKeys(s, Keyed(key))
  {
    assert Keyed(key)(x) == Some(key(x));
  }

  /** Every group a `$group` stage outputs holds at least one document. */
  lemma GroupNonEmpty<T(!new), K(!new)>(s: seq<T>, key: T -> K, k: K)
    requires k in GroupKeys(s, Keyed(key))
    ensures |Filter(s, KeyIs(key, k))| > 0
  {
    var x :| x in s && Keyed(key)(x) == Some(k);
    assert x in Filter(s, KeyIs(key, k));
  }

  /** The image of an element is in the mapped sequence. */
  lemma MapMember<A, B>(s: seq<A>, f: A -> B, a: A)
    requires a in s
    ensures f(a) in Map(s, f)
  {
    var i :| 0 <= i < |s| && s[i] == a;
    assert Map(s, f)[i] == f(a);
  }

  /** A row of any selection or reordering of `Map(s, f)` is the image of an
      element of `s`. */
  lemma MapOrigin<A, B>(s: seq<A>, f: A -> B, out: seq<B>, y: B) returns (a: A)
    requires multiset(out) <= multiset(Map(s, f)) && y in out
    ensures a in s && y == f(a)
  {
    assert y in multiset(out);
    var i :| 0 <= i < |s| && Map(s, f)[i] == y;
    a := s[i];
  }

  /** A slice of a sorted sequence is sorted. */
  lemma SortedDescSlice<R>(s: seq<R>, i: nat, j: nat, score: R -> real)
    requires i <= j <= |s| && SortedDesc(s, score)
    ensures SortedDesc(s[i..j], score)
  {
    forall a, b | 0 <= a < b < j - i ensures score(s[i..j][a]) >= score(s[i..j][b]) {
      assert s[i..j][a] == s[i + a] && s[i..j][b] == s[i + b];
    }
  }

  function Abs(n: int): nat {
    if n < 0 then -n else n
  }

  /** A cursor's `.skip(skip)` and `.limit(limit)`: the server skips first and
      limits second, whatever order they were called in; a limit of 0 means
      none, and a negative limit `-n` returns `n` documents. */
  function SkipLimit<R>(s: seq<R>, skip: nat, limit: int): (r: seq<R>)
    ensures limit == 0 ==> |r| == (if skip < |s| then |s| - skip else 0)
    ensures limit != 0 ==> |r| == (if skip >= |s| then 0 else if Abs(limit) < |s| - skip then Abs(limit) else |s| - skip)
    ensures skip >= |s| ==> r == []
    ensures skip < |s| ==> r == s[skip..skip + |r|]
  {
    var rest := if skip < |s| then s[skip..] else [];
    if limit == 0 then rest else Take(rest, Abs(limit))
  }
}
