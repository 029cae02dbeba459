/** Generic table operations shared by every query of the store: selecting the
    rows that satisfy a WHERE condition, counting them, finding the first match,
    deleting one row, ORDER BY on an integer column and OFFSET/LIMIT windows.
    Tables are sequences in insertion order, which is the order a query without
    ORDER BY returns in this model. */
module Listing {
  import opened Results

  /** The rows of `s` that satisfy `p`, in table order. */
  function Filter<T>(s: seq<T>, p: T -> bool): (r: seq<T>)
    ensures |r| <= |s|
    ensures forall i :: 0 <= i < |r| ==> p(r[i]) && r[i] in s
    ensures forall i :: 0 <= i < |s| && p(s[i]) ==> s[i] in r
  {
    if s == [] then []
    else if p(s[0]) then [s[0]] + Filter(s[1..], p)
    else Filter(s[1..], p)
  }

  /** The number of rows of `s` that satisfy `p` (SELECT count(*) ... WHERE p). */
  function Count<T>(s: seq<T>, p: T -> bool): nat
  {
    |Filter(s, p)|
  }

  lemma {:induction false} FilterAppend<T>(a: seq<T>, b: seq<T>, p: T -> bool)
    ensures Filter(a + b, p) == Filter(a, p) + Filter(b, p)
  {
    if a == [] {
      assert a + b == b;
    } else {
      assert (a + b)[1..] == a[1..] + b;
      FilterAppend(a[1..], b, p);
    }
  }

  /** Appending one row appends it to the selection exactly when it matches. */
  lemma FilterAppendOne<T>(s: seq<T>, x: T, p: T -> bool)
    ensures Filter(s + [x], p) == Filter(s, p) + (if p(x) then [x] else [])
  {
    FilterAppend(s, [x], p);
    assert Filter([x], p) == (if p(x) then [x] else []) by {
      assert [x][1..] == [];
    }
  }

  /** Appending one row raises the count by one exactly when the row matches. */
  lemma CountAppend<T>(s: seq<T>, x: T, p: T -> bool)
    ensures Count(s + [x], p) == Count(s, p) + (if p(x) then 1 else 0)
  {
    FilterAppendOne(s, x, p);
  }

  /** A table none of whose rows matches has count zero. */
  lemma {:induction false} CountNone<T>(s: seq<T>, p: T -> bool)
    requires forall i :: 0 <= i < |s| ==> !p(s[i])
    ensures Count(s, p) == 0
  {
    if s != [] {
      CountNone(s[1..], p);
    }
  }

  /** The count is zero exactly when no row matches. */
  lemma CountZero<T>(s: seq<T>, p: T -> bool)
    ensures Count(s, p) == 0 <==> forall i :: 0 <= i < |s| ==> !p(s[i])
  {
    if forall i :: 0 <= i < |s| ==> !p(s[i]) {
      CountNone(s, p);
    }
  }

  /** A table of which every row matches is its own selection. */
  lemma {:induction false} FilterAll<T>(s: seq<T>, p: T -> bool)
    requires forall i :: 0 <= i < |s| ==> p(s[i])
    ensures Filter(s, p) == s
  {
    if s != [] {
      FilterAll(s[1..], p);
    }
  }

  /** Filtering twice is filtering by the conjunction. */
  lemma {:induction false} FilterFilter<T>(s: seq<T>, p: T -> bool, q: T -> bool, pq: T -> bool)
    requires forall x :: pq(x) == (p(x) && q(x))
    ensures Filter(Filter(s, p), q) == Filter(s, pq)
  {
    if s != [] {
      FilterFilter(s[1..], p, q, pq);
      if p(s[0]) {
        assert ([s[0]] + Filter(s[1..], p))[1..] == Filter(s[1..], p);
      }
    }
  }

  /** How often a row occurs in a selection: as often as in the table if it
      matches, otherwise never. */
  lemma {:induction false} FilterMultiset<T>(s: seq<T>, p: T -> bool, x: T)
    ensures multiset(Filter(s, p))[x] == if p(x) then multiset(s)[x] else 0
  {
    if s != [] {
      FilterMultiset(s[1..], p, x);
      assert s == [s[0]] + s[1..];
    }
  }

  /** FilterMultiset for every row at once. */
  lemma FilterCounts<T>(s: seq<T>, p: T -> bool)
    ensures forall x :: multiset(Filter(s, p))[x] == if p(x) then multiset(s)[x] else 0
  {
    forall x
      ensures multiset(Filter(s, p))[x] == if p(x) then multiset(s)[x] else 0
    {
      FilterMultiset(s, p, x);
    }
  }

  /** Selections of two tables holding the same rows hold the same rows. */
  lemma FilterPermutation<T>(a: seq<T>, b: seq<T>, p: T -> bool)
    requires multiset(a) == multiset(b)
    ensures multiset(Filter(a, p)) == multiset(Filter(b, p))
  {
    forall x
      ensures multiset(Filter(a, p))[x] == multiset(Filter(b, p))[x]
    {
      FilterMultiset(a, p, x);
      FilterMultiset(b, p, x);
    }
  }

  /** No row occurs twice. */
  ghost predicate Distinct<T>(s: seq<T>)
  {
    forall i, j :: 0 <= i < j < |s| ==> s[i] != s[j]
  }

  /** A selection from a table without repeated rows has no repeated rows. */
  lemma {:induction false} FilterDistinct<T>(s: seq<T>, p: T -> bool)
    requires Distinct(s)
    ensures Distinct(Filter(s, p))
  {
    if s != [] {
      assert Distinct(s[1..]);
      FilterDistinct(s[1..], p);
      assert s[0] !in s[1..];
    }
  }

  /** A window of a table without repeated rows has no repeated rows. */
  lemma WindowDistinct<T>(s: seq<T>, skip: nat, limit: nat)
    requires Distinct(s)
    ensures Distinct(Window(s, skip, limit))
  {
  }

  /** Deleting a row of a table without repeated rows leaves no copy of it behind. */
  lemma RemoveAtDistinct<T>(s: seq<T>, i: nat)
    requires Distinct(s) && i < |s|
    ensures s[i] !in RemoveAt(s, i)
  {
    var r := RemoveAt(s, i);
    forall j | 0 <= j < |r| ensures r[j] != s[i] {
      if j < i { assert r[j] == s[j]; } else { assert r[j] == s[j + 1]; }
    }
  }

  /** The index of the first row satisfying `p` (SELECT ... WHERE p .first()). */
  function FirstIndex<T>(s: seq<T>, p: T -> bool): (r: Option<nat>)
    ensures r.Some? ==> r.value < |s| && p(s[r.value])
    ensures r.Some? ==> forall j :: 0 <= j < r.value ==> !p(s[j])
    ensures r.None? <==> forall j :: 0 <= j < |s| ==> !p(s[j])
  {
    if s == [] then None
    else if p(s[0]) then Some(0)
    else match FirstIndex(s[1..], p)
      case None => None
      case Some(i) => Some(i + 1)
  }

  /** The table without its row at index `i` (a single-row DELETE). */
  function RemoveAt<T>(s: seq<T>, i: nat): (r: seq<T>)
    requires i < |s|
    ensures |r| == |s| - 1
    ensures forall j :: 0 <= j < i ==> r[j] == s[j]
    ensures forall j :: i <= j < |r| ==> r[j] == s[j + 1]
  {
    s[..i] + s[i + 1..]
  }

  /** Deleting a row lowers the count by one exactly when the row matches. */
  lemma CountRemoveAt<T>(s: seq<T>, i: nat, p: T -> bool)
    requires i < |s|
    ensures Count(RemoveAt(s, i), p) == Count(s, p) - (if p(s[i]) then 1 else 0)
  {
    assert s == s[..i] + [s[i]] + s[i + 1..];
    FilterAppend(s[..i] + [s[i]], s[i + 1..], p);
    FilterAppend(s[..i], [s[i]], p);
    FilterAppend(s[..i], s[i + 1..], p);
    assert Filter([s[i]], p) == (if p(s[i]) then [s[i]] else []) by {
      assert [s[i]][1..] == [];
    }
  }

  /** Replacing one row changes the count by what the old and new row contribute. */
  lemma CountUpdate<T>(s: seq<T>, i: nat, x: T, p: T -> bool)
    requires i < |s|
    ensures Count(s[i := x], p) == Count(s, p) - (if p(s[i]) then 1 else 0) + (if p(x) then 1 else 0)
  {
    assert s == s[..i] + [s[i]] + s[i + 1..];
    assert s[i := x] == s[..i] + [x] + s[i + 1..];
    FilterAppend(s[..i] + [s[i]], s[i + 1..], p);
    FilterAppend(s[..i] + [x], s[i + 1..], p);
    FilterAppendOne(s[..i], s[i], p);
    FilterAppendOne(s[..i], x, p);
  }

  /** A row appended to a table where no row matched is the first match, and
      deleting it gives the table back. */
  lemma RemoveAppended<T>(s: seq<T>, x: T, p: T -> bool)
    requires p(x) && forall j :: 0 <= j < |s| ==> !p(s[j])
    ensures FirstIndex(s + [x], p) == Some(|s|)
    ensures RemoveAt(s + [x], |s|) == s
  {
    var t := s + [x];
    assert forall j :: 0 <= j < |s| ==> t[j] == s[j];
    assert t[|s|] == x;
  }

  /** Deleting a row keeps every other row. */
  lemma RemoveAtMultiset<T>(s: seq<T>, i: nat)
    requires i < |s|
    ensures multiset(RemoveAt(s, i)) == multiset(s) - multiset{s[i]}
  {
    assert s == s[..i] + [s[i]] + s[i + 1..];
  }

  /** The number of rows an OFFSET `skip` LIMIT `limit` window of `n` rows holds. */
  function WindowSize(n: nat, skip: nat, limit: nat): nat
  {
    if skip >= n then 0 else if n - skip < limit then n - skip else limit
  }

  /** OFFSET `skip` LIMIT `limit`: at most `limit` rows, starting after the
      first `skip` rows, in the same order. */
  function Window<T>(s: seq<T>, skip: nat, limit: nat): (r: seq<T>)
    ensures |r| == WindowSize(|s|, skip, limit) && |r| <= limit
    ensures forall i :: 0 <= i < |r| ==> skip + i < |s| && r[i] == s[skip + i]
  {
    if skip >= |s| then []
    else if |s| - skip < limit then s[skip..]
    else s[skip..skip + limit]
  }

  lemma WindowMember<T>(s: seq<T>, skip: nat, limit: nat, x: T)
    requires x in Window(s, skip, limit)
    ensures x in s
  {
    var r := Window(s, skip, limit);
    var i :| 0 <= i < |r| && r[i] == x;
    assert s[skip + i] == x;
  }

  /** A window starting at the beginning and long enough holds the whole table. */
  lemma WindowAll<T>(s: seq<T>, limit: nat)
    requires |s| <= limit
    ensures Window(s, 0, limit) == s
  {
  }

  /** `a` may come before `b` when ordering ascending, or descending if `desc`. */
  predicate InOrder(a: int, b: int, desc: bool)
  {
    if desc then a >= b else a <= b
  }

  /** ORDER BY key (DESC if `desc`): every row's key is in order with every later one's. */
  predicate Ordered<T>(s: seq<T>, key: T -> int, desc: bool)
  {
    forall i, j :: 0 <= i < j < |s| ==> InOrder(key(s[i]), key(s[j]), desc)
  }

  /** A window of an ordered table is ordered. */
  lemma WindowOrdered<T>(s: seq<T>, skip: nat, limit: nat, key: T -> int, desc: bool)
    requires Ordered(s, key, desc)
    ensures Ordered(Window(s, skip, limit), key, desc)
  {
    var r := Window(s, skip, limit);
    forall i, j | 0 <= i < j < |r|
      ensures InOrder(key(r[i]), key(r[j]), desc)
    {
      assert r[i] == s[skip + i] && r[j] == s[skip + j];
    }
  }

  /** Selecting rows from an ordered table keeps them ordered. */
  lemma {:induction false} FilterOrdered<T>(s: seq<T>, p: T -> bool, key: T -> int, desc: bool)
    requires Ordered(s, key, desc)
    ensures Ordered(Filter(s, p), key, desc)
  {
    if s != [] {
      assert Ordered(s[1..], key, desc) by {
        forall i, j | 0 <= i < j < |s[1..]|
          ensures InOrder(key(s[1..][i]), key(s[1..][j]), desc)
        {
          assert s[1..][i] == s[i + 1] && s[1..][j] == s[j + 1];
        }
      }
      FilterOrdered(s[1..], p, key, desc);
      if p(s[0]) {
        var f := Filter(s[1..], p);
        var r := [s[0]] + f;
        forall i, j | 0 <= i < j < |r|
          ensures InOrder(key(r[i]), key(r[j]), desc)
        {
          if i > 0 {
            assert r[i] == f[i - 1] && r[j] == f[j - 1];
          } else {
            assert r[j] == f[j - 1] && f[j - 1] in s[1..];
            var k :| 0 <= k < |s[1..]| && s[1..][k] == f[j - 1];
            assert s[k + 1] == f[j - 1];
          }
        }
      }
    }
  }

  /** The table `s` with `x` inserted before the first row it may precede. */
  function Insert<T>(x: T, s: seq<T>, key: T -> int, desc: bool): (r: seq<T>)
    ensures multiset(r) == multiset(s) + multiset{x}
  {
    if s == [] then [x]
    else if InOrder(key(x), key(s[0]), desc) then
      assert s == [s[0]] + s[1..];
      [x] + s
    else
      assert s == [s[0]] + s[1..];
      [s[0]] + Insert(x, s[1..], key, desc)
  }

  lemma OrderedTail<T>(s: seq<T>, key: T -> int, desc: bool)
    requires s != [] && Ordered(s, key, desc)
    ensures Ordered(s[1..], key, desc)
    ensures forall i :: 0 <= i < |s[1..]| ==> InOrder(key(s[0]), key(s[1..][i]), desc)
  {
    var t := s[1..];
    forall i, j | 0 <= i < j < |t| ensures InOrder(key(t[i]), key(t[j]), desc) {
      assert t[i] == s[i + 1] && t[j] == s[j + 1];
    }
    forall i | 0 <= i < |t| ensures InOrder(key(s[0]), key(t[i]), desc) {
      assert t[i] == s[i + 1];
    }
  }

  /** Inserting into an ordered table keeps it ordered. */
  lemma {:induction false} InsertOrdered<T>(x: T, s: seq<T>, key: T -> int, desc: bool)
    requires Ordered(s, key, desc)
    ensures Ordered(Insert(x, s, key, desc), key, desc)
  {
    if s != [] && !InOrder(key(x), key(s[0]), desc) {
      var t := s[1..];
      OrderedTail(s, key, desc);
      InsertOrdered(x, t, key, desc);
      var rest := Insert(x, t, key, desc);
      var r := [s[0]] + rest;
      assert r == Insert(x, s, key, desc);
      forall j | 0 <= j < |rest| ensures InOrder(key(s[0]), key(rest[j]), desc) {
        assert rest[j] in multiset(rest);
        if rest[j] != x {
          assert rest[j] in multiset(t);
          var k :| 0 <= k < |t| && t[k] == rest[j];
        }
      }
      forall i, j | 0 <= i < j < |r| ensures InOrder(key(r[i]), key(r[j]), desc) {
        assert r[j] == rest[j - 1];
        if i > 0 {
          assert r[i] == rest[i - 1];
        }
      }
    }
  }

  /** ORDER BY key (DESC if `desc`): the same rows, ordered. Rows with equal
      keys keep their table order. */
  function SortBy<T>(s: seq<T>, key: T -> int, desc: bool): (r: seq<T>)
    ensures multiset(r) == multiset(s)
    ensures |r| == |s|
    ensures Ordered(r, key, desc)
  {
    if s == [] then []
    else
      assert s == [s[0]] + s[1..];
      InsertOrdered(s[0], SortBy(s[1..], key, desc), key, desc);
      var r := Insert(s[0], SortBy(s[1..], key, desc), key, desc);
      assert |r| == |multiset(r)|;
      r
  }

  /** ORDER BY key (DESC if `desc`) OFFSET skip LIMIT limit over the rows of
      `s` satisfying `p`: `r` is that window of some ordering of exactly those
      rows. Rows with equal keys may come in any order. */
  ghost predicate SortedPage<T(!new)>(r: seq<T>, s: seq<T>, p: T -> bool, key: T -> int, desc: bool, skip: nat, limit: nat)
  {
    exists sorted: seq<T> :: multiset(sorted) == multiset(Filter(s, p)) && Ordered(sorted, key, desc)
                             && r == Window(sorted, skip, limit)
  }

  /** A window takes each row at most as often as the table holds it. */
  lemma WindowSubBag<T>(s: seq<T>, skip: nat, limit: nat)
    ensures multiset(Window(s, skip, limit)) <= multiset(s)
  {
    if skip < |s| {
      var e := skip + |Window(s, skip, limit)|;
      assert s == s[..skip] + Window(s, skip, limit) + s[e..];
    }
  }

  /** Two consecutive windows make up the window covering both. */
  lemma WindowsTile<T>(s: seq<T>, skip: nat, a: nat, b: nat)
    ensures Window(s, skip, a) + Window(s, skip + a, b) == Window(s, skip, a + b)
  {
    if skip + a < |s| {
      var e := if skip + a + b <= |s| then skip + a + b else |s|;
      assert Window(s, skip, a) == s[skip..skip + a];
      assert Window(s, skip + a, b) == s[skip + a..e];
      assert Window(s, skip, a + b) == s[skip..e];
      assert s[skip..skip + a] + s[skip + a..e] == s[skip..e];
    } else if skip < |s| {
      assert Window(s, skip, a) == s[skip..] == Window(s, skip, a + b);
    }
  }

  /** The sorted, windowed selection is a page of the selection with no row repeated. */
  lemma SortByPage<T(!new)>(s: seq<T>, p: T -> bool, key: T -> int, desc: bool, skip: nat, limit: nat)
    ensures SortedPage(Window(SortBy(Filter(s, p), key, desc), skip, limit), s, p, key, desc, skip, limit)
    ensures multiset(Window(SortBy(Filter(s, p), key, desc), skip, limit)) <= multiset(Filter(s, p))
    ensures Ordered(Window(SortBy(Filter(s, p), key, desc), skip, limit), key, desc)
    ensures forall i :: 0 <= i < |Window(SortBy(Filter(s, p), key, desc), skip, limit)| ==>
              p(Window(SortBy(Filter(s, p), key, desc), skip, limit)[i]) && Window(SortBy(Filter(s, p), key, desc), skip, limit)[i] in s
  {
    var sorted := SortBy(Filter(s, p), key, desc);
    WindowSubBag(sorted, skip, limit);
    WindowOrdered(sorted, skip, limit, key, desc);
    SameMembers(sorted, Filter(s, p));
  }

  /** Two tables holding the same rows have the same members. */
  lemma SameMembers<T>(a: seq<T>, b: seq<T>)
    requires multiset(a) == multiset(b)
    ensures forall i :: 0 <= i < |a| ==> a[i] in b
    ensures forall i :: 0 <= i < |b| ==> b[i] in a
  {
    forall i | 0 <= i < |a| ensures a[i] in b {
      assert a[i] in multiset(a);
    }
    forall i | 0 <= i < |b| ensures b[i] in a {
      assert b[i] in multiset(b);
    }
  }

  /** Ordering the rows that satisfy `p` yields the same rows as selecting
      them from the ordered table. */
  lemma SortedFilterMultiset<T>(s: seq<T>, p: T -> bool, key: T -> int, desc: bool)
    ensures multiset(SortBy(Filter(s, p), key, desc)) == multiset(Filter(SortBy(s, key, desc), p))
  {
    FilterPermutation(s, SortBy(s, key, desc), p);
  }
}
