/** An in-memory model of the queries the handlers send to the store: a
    table is a sequence of rows, `where` is a filter, `orderBy` a sort by a
    numeric key, `skip`/`take` a slice and `count` the length of a filter. */
module Rows {

  function Min(a: int, b: int): int { if a <= b then a else b }

  /** The rows that satisfy `p`, in table order. */
  function Filter<T(!new)>(s: seq<T>, p: T -> bool): (r: seq<T>)
    ensures |r| <= |s|
    ensures forall k :: 0 <= k < |r| ==> p(r[k])
    ensures forall x :: x in r <==> x in s && p(x)
    ensures forall x :: p(x) ==> multiset(r)[x] == multiset(s)[x]
  {
    if s == [] then []
    else
      assert s == [s[0]] + s[1..];
      (if p(s[0]) then [s[0]] else []) + Filter(s[1..], p)
  }

  /** `count({ where })`. */
  function Count<T(!new)>(s: seq<T>, p: T -> bool): nat
  {
    |Filter(s, p)|
  }

  /** Ascending order of `key`. A descending `orderBy` is ascending order
      of the negated key, see `Desc`. */
  predicate SortedBy<T>(s: seq<T>, key: T -> real)
  {
    forall i, j :: 0 <= i < j < |s| ==> key(s[i]) <= key(s[j])
  }

  function Desc<T>(key: T -> real): T -> real
  {
    x => -key(x)
  }

  function Insert<T>(x: T, s: seq<T>, key: T -> real): (r: seq<T>)
    requires SortedBy(s, key)
    ensures SortedBy(r, key)
    ensures multiset(r) == multiset(s) + multiset{x}
  {
    if s == [] || key(x) <= key(s[0]) then [x] + s
    else
      var rest := Insert(x, s[1..], key);
      assert s == [s[0]] + s[1..];
      InsertHead(x, s, rest, key);
      [s[0]] + rest
  }

  lemma InsertHead<T>(x: T, s: seq<T>, rest: seq<T>, key: T -> real)
    requires s != [] && SortedBy(s, key) && key(s[0]) < key(x)
    requires SortedBy(rest, key) && multiset(rest) == multiset(s[1..]) + multiset{x}
    ensures SortedBy([s[0]] + rest, key)
  {
    var r := [s[0]] + rest;
    forall j | 0 < j < |r| ensures key(s[0]) <= key(r[j]) {
      var y := rest[j - 1];
      assert y in multiset(rest);
      if y != x {
        assert y in multiset(s[1..]);
        var k :| 0 <= k < |s[1..]| && s[1..][k] == y;
        assert s[k + 1] == y;
      }
    }
  }

  /** `orderBy: { key: 'asc' }`: a sorted permutation of the rows. The
      order of rows with equal keys is the store's choice; this model keeps
      table order. */
  function SortBy<T>(s: seq<T>, key: T -> real): (r: seq<T>)
    ensures SortedBy(r, key)
    ensures multiset(r) == multiset(s)
  {
    if s == [] then []
    else
      assert s == [s[0]] + s[1..];
      Insert(s[0], SortBy(s[1..], key), key)
  }

  /** `skip`/`take`: at most `take` rows starting at row `skip`. */
  function Page<T>(s: seq<T>, skip: nat, take: nat): (r: seq<T>)
    ensures |r| == if skip >= |s| then 0 else Min(take, |s| - skip)
    ensures forall k :: 0 <= k < |r| ==> r[k] == s[skip + k]
  {
    if skip >= |s| then [] else s[skip..Min(|s|, skip + take)]
  }

  /** `skip: (page - 1) * pageSize`: the rows on the pages before `page`. */
  function Offset(page: int, pageSize: int): nat
    requires page >= 1 && pageSize >= 0
  {
    (page - 1) * pageSize
  }

  lemma SortedPrefix<T>(s: seq<T>, n: nat, key: T -> real)
    requires SortedBy(s, key) && n <= |s|
    ensures SortedBy(s[..n], key)
  {
  }

  lemma SortedPage<T>(s: seq<T>, skip: nat, take: nat, key: T -> real)
    requires SortedBy(s, key)
    ensures SortedBy(Page(s, skip, take), key)
  {
    var r := Page(s, skip, take);
    forall i, j | 0 <= i < j < |r| ensures key(r[i]) <= key(r[j]) {
      assert r[i] == s[skip + i] && r[j] == s[skip + j];
    }
  }

  /** Row `k` is on the page that starts at most `take` rows before it. */
  lemma InPage<T>(s: seq<T>, skip: nat, take: nat, k: nat)
    requires skip <= k < skip + take && k < |s|
    ensures s[k] in Page(s, skip, take)
  {
    assert Page(s, skip, take)[k - skip] == s[k];
  }

  lemma SameMembers<T>(s: seq<T>, t: seq<T>)
    requires multiset(s) == multiset(t)
    ensures forall x :: x in s <==> x in t
  {
    forall x ensures x in s <==> x in t {
      InMultiset(x, s, t);
    }
  }

  lemma InMultiset<T>(x: T, s: seq<T>, t: seq<T>)
    requires multiset(s) == multiset(t)
    ensures x in s <==> x in t
  {
    assert x in s <==> x in multiset(s);
    assert x in t <==> x in multiset(t);
  }
}
