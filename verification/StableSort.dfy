/** `Array.prototype.sort` with a comparison: an ordered rearrangement that keeps ties in their order. */
module StableSort {
  import opened Lists

  ghost predicate IsOrder<T(!new)>(le: (T, T) -> bool) {
    && (forall a, b :: le(a, b) || le(b, a))
    && (forall a, b, c :: le(a, b) && le(b, c) ==> le(a, c))
  }

  predicate Ordered<T>(s: seq<T>, le: (T, T) -> bool) {
    forall i, j | 0 <= i < j < |s| :: le(s[i], s[j])
  }

  /** Puts `x` in front of the first element that may follow it. */
  function Insert<T>(x: T, s: seq<T>, le: (T, T) -> bool): seq<T> {
    if s == [] then [x]
    else if le(x, s[0]) then [x] + s
    else [s[0]] + Insert(x, s[1..], le)
  }

  function Sort<T>(s: seq<T>, le: (T, T) -> bool): seq<T> {
    if s == [] then [] else Insert(s[0], Sort(s[1..], le), le)
  }

  lemma {:induction false} InsertPermutes<T>(x: T, s: seq<T>, le: (T, T) -> bool)
    ensures multiset(Insert(x, s, le)) == multiset{x} + multiset(s)
  {
    if s != [] {
      InsertPermutes(x, s[1..], le);
      assert s == [s[0]] + s[1..];
    }
  }

  lemma {:induction false} SortPermutes<T>(s: seq<T>, le: (T, T) -> bool)
    ensures multiset(Sort(s, le)) == multiset(s)
  {
    if s != [] {
      SortPermutes(s[1..], le);
      InsertPermutes(s[0], Sort(s[1..], le), le);
      assert s == [s[0]] + s[1..];
    }
  }

  lemma {:induction false} InsertKeepsOrder<T(!new)>(x: T, s: seq<T>, le: (T, T) -> bool)
    requires IsOrder(le) && Ordered(s, le)
    ensures Ordered(Insert(x, s, le), le)
  {
    if s != [] && !le(x, s[0]) {
      var rest := Insert(x, s[1..], le);
      InsertKeepsOrder(x, s[1..], le);
      InsertPermutes(x, s[1..], le);
      forall j | 0 <= j < |rest|
        ensures le(s[0], rest[j])
      {
        assert rest[j] in multiset(rest);
        assert rest[j] == x || rest[j] in s[1..];
      }
    }
  }

  lemma {:induction false} SortIsOrdered<T(!new)>(s: seq<T>, le: (T, T) -> bool)
    requires IsOrder(le)
    ensures Ordered(Sort(s, le), le)
  {
    if s != [] {
      SortIsOrdered(s[1..], le);
      InsertKeepsOrder(s[0], Sort(s[1..], le), le);
    }
  }

  /** The elements that tie with `x`, in their order. */
  function Ties<T>(s: seq<T>, x: T, le: (T, T) -> bool): seq<T> {
    if s == [] then []
    else (if le(s[0], x) && le(x, s[0]) then [s[0]] else []) + Ties(s[1..], x, le)
  }

  lemma TiesOfCons<T>(y: T, s: seq<T>, x: T, le: (T, T) -> bool)
    ensures Ties([y] + s, x, le) == (if le(y, x) && le(x, y) then [y] else []) + Ties(s, x, le)
  {
  }

  lemma {:induction false} InsertKeepsTies<T(!new)>(y: T, s: seq<T>, x: T, le: (T, T) -> bool)
    requires IsOrder(le)
    ensures Ties(Insert(y, s, le), x, le) == Ties([y] + s, x, le)
  {
    if s == [] || le(y, s[0]) {
      assert Insert(y, s, le) == [y] + s;
    } else {
      var rest := s[1..];
      InsertKeepsTies(y, rest, x, le);
      TiesOfCons(y, rest, x, le);
      TiesOfCons(y, s, x, le);
      TiesOfCons(s[0], Insert(y, rest, le), x, le);
    }
  }

  lemma {:induction false} SortIsStable<T(!new)>(s: seq<T>, x: T, le: (T, T) -> bool)
    requires IsOrder(le)
    ensures Ties(Sort(s, le), x, le) == Ties(s, x, le)
  {
    if s != [] {
      var sorted := Sort(s[1..], le);
      SortIsStable(s[1..], x, le);
      InsertKeepsTies(s[0], sorted, x, le);
      assert ([s[0]] + sorted)[1..] == sorted;
    }
  }

  lemma SortLength<T>(s: seq<T>, le: (T, T) -> bool)
    ensures |Sort(s, le)| == |s|
  {
    SortPermutes(s, le);
    assert |multiset(Sort(s, le))| == |multiset(s)|;
  }

  lemma SortHas<T>(s: seq<T>, le: (T, T) -> bool, x: T)
    ensures x in Sort(s, le) <==> x in s
  {
    SortPermutes(s, le);
    assert x in multiset(Sort(s, le)) <==> x in multiset(s);
  }

  lemma {:induction false} InsertKeepsDistinct<T>(x: T, s: seq<T>, le: (T, T) -> bool)
    requires Distinct(s) && x !in s
    ensures Distinct(Insert(x, s, le))
  {
    if s != [] && !le(x, s[0]) {
      var rest := Insert(x, s[1..], le);
      InsertKeepsDistinct(x, s[1..], le);
      InsertPermutes(x, s[1..], le);
      forall j | 0 <= j < |rest|
        ensures rest[j] != s[0]
      {
        assert rest[j] in multiset(rest);
        assert rest[j] == x || rest[j] in s[1..];
      }
    }
  }

  lemma {:induction false} SortKeepsDistinct<T>(s: seq<T>, le: (T, T) -> bool)
    requires Distinct(s)
    ensures Distinct(Sort(s, le))
  {
    if s != [] {
      SortKeepsDistinct(s[1..], le);
      SortHas(s[1..], le, s[0]);
      InsertKeepsDistinct(s[0], Sort(s[1..], le), le);
    }
  }

  /** Values made from distinct ids, sorted: still the value of each id, once. */
  lemma SortById<K(!new), V(!new)>(values: seq<V>, ids: seq<K>, le: (V, V) -> bool, idOf: V -> K, valueOf: K -> V)
    requires IsOrder(le) && |values| == |ids| && Distinct(ids)
    requires forall i | 0 <= i < |ids| :: values[i] == valueOf(ids[i]) && idOf(values[i]) == ids[i]
    ensures var sorted := Sort(values, le);
            && Ordered(sorted, le)
            && (forall i, j | 0 <= i < j < |sorted| :: idOf(sorted[i]) != idOf(sorted[j]))
            && (forall j | 0 <= j < |sorted| :: sorted[j] == valueOf(idOf(sorted[j])) && idOf(sorted[j]) in ids)
            && (forall k | k in ids :: exists j | 0 <= j < |sorted| :: idOf(sorted[j]) == k)
  {
    var sorted := Sort(values, le);
    SortIsOrdered(values, le);
    SortKeepsDistinct(values, le);
    forall j | 0 <= j < |sorted|
      ensures sorted[j] == valueOf(idOf(sorted[j])) && idOf(sorted[j]) in ids
    {
      SortHas(values, le, sorted[j]);
      var i :| 0 <= i < |values| && values[i] == sorted[j];
    }
    forall k | k in ids
      ensures exists j | 0 <= j < |sorted| :: idOf(sorted[j]) == k
    {
      var i :| 0 <= i < |ids| && ids[i] == k;
      SortHas(values, le, values[i]);
      var j :| 0 <= j < |sorted| && sorted[j] == values[i];
    }
  }

  lemma CutOrdered<T(!new)>(sorted: seq<T>, le: (T, T) -> bool, n: nat)
    requires Ordered(sorted, le) && n <= |sorted|
    ensures Ordered(sorted[..n], le)
    ensures forall a, b | a in sorted[..n] && b in sorted[n..] :: le(a, b)
  {
  }

  /** Cutting the sorted list: nothing is lost, and the first part comes before the second. */
  lemma CutSorted<T(!new)>(s: seq<T>, le: (T, T) -> bool, n: nat)
    requires IsOrder(le) && n <= |s|
    ensures |Sort(s, le)| == |s|
    ensures multiset(Sort(s, le)[..n]) + multiset(Sort(s, le)[n..]) == multiset(s)
    ensures Ordered(Sort(s, le)[..n], le)
    ensures forall a, b | a in Sort(s, le)[..n] && b in Sort(s, le)[n..] :: le(a, b)
  {
    var sorted := Sort(s, le);
    SortLength(s, le);
    SortPermutes(s, le);
    SortIsOrdered(s, le);
    assert sorted == sorted[..n] + sorted[n..];
    CutOrdered(sorted, le, n);
  }
}
