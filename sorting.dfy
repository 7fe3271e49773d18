/** The `ORDER BY` of the forum's queries, modelled as a stable insertion
    sort of rows by a key. A key is a sequence of integers compared
    lexicographically, so "likes_7d DESC, created_at DESC" is the key
    [-likes7d, -createdAt] and "ORDER BY name" is the name's code points. */
module Sorting {

  /** Lexicographic order on integer sequences; a proper prefix comes first. */
  predicate LexLe(a: seq<int>, b: seq<int>)
    decreases |a|
  {
    a == [] || (b != [] && (a[0] < b[0] || (a[0] == b[0] && LexLe(a[1..], b[1..]))))
  }

  lemma {:induction false} LexLeTotal(a: seq<int>, b: seq<int>)
    ensures LexLe(a, b) || LexLe(b, a)
    decreases |a|
  {
    if a != [] && b != [] && a[0] == b[0] {
      LexLeTotal(a[1..], b[1..]);
    }
  }

  lemma {:induction false} LexLeTrans(a: seq<int>, b: seq<int>, c: seq<int>)
    requires LexLe(a, b) && LexLe(b, c)
    ensures LexLe(a, c)
    decreases |a|
  {
    if a != [] && a[0] == b[0] && b[0] == c[0] {
      LexLeTrans(a[1..], b[1..], c[1..]);
    }
  }

  ghost predicate SortedBy<T>(s: seq<T>, key: T -> seq<int>) {
    forall i, j :: 0 <= i < j < |s| ==> LexLe(key(s[i]), key(s[j]))
  }

  /** Every element of `s` is at least `x` under `key`. */
  ghost predicate AllAbove<T>(x: T, s: seq<T>, key: T -> seq<int>) {
    forall j :: 0 <= j < |s| ==> LexLe(key(x), key(s[j]))
  }

  /** Inserts `x` before the first element that is not smaller. */
  function Insert<T>(x: T, s: seq<T>, key: T -> seq<int>): (r: seq<T>)
    requires SortedBy(s, key)
    ensures SortedBy(r, key)
    ensures multiset(r) == multiset(s) + multiset{x}
    ensures |r| == |s| + 1
  {
    if s == [] then [x]
    else if LexLe(key(x), key(s[0])) then
      InsertFront(x, s, key);
      [x] + s
    else
      LexLeTotal(key(x), key(s[0]));
      var rest := Insert(x, s[1..], key);
      InsertBehind(s[0], x, s[1..], rest, key);
      assert s == [s[0]] + s[1..];
      [s[0]] + rest
  }

  lemma InsertFront<T>(x: T, s: seq<T>, key: T -> seq<int>)
    requires SortedBy(s, key) && s != [] && LexLe(key(x), key(s[0]))
    ensures SortedBy([x] + s, key)
  {
    forall j | 0 <= j < |s| ensures LexLe(key(x), key(s[j])) {
      if j > 0 { LexLeTrans(key(x), key(s[0]), key(s[j])); }
    }
  }

  lemma InsertBehind<T>(h: T, x: T, tail: seq<T>, rest: seq<T>, key: T -> seq<int>)
    requires SortedBy([h] + tail, key) && SortedBy(rest, key)
    requires multiset(rest) == multiset(tail) + multiset{x}
    requires LexLe(key(h), key(x))
    ensures SortedBy([h] + rest, key)
  {
    forall j | 0 <= j < |rest| ensures LexLe(key(h), key(rest[j])) {
      assert rest[j] in multiset(rest);
      if rest[j] != x {
        assert rest[j] in multiset(tail);
        var k :| 0 <= k < |tail| && tail[k] == rest[j];
        assert ([h] + tail)[k + 1] == tail[k];
        assert LexLe(key(([h] + tail)[0]), key(([h] + tail)[k + 1]));
      }
    }
  }

  /** Rows ordered by `key`. SQL leaves the order of rows with equal keys
      open; this model fixes one. */
  function SortBy<T>(s: seq<T>, key: T -> seq<int>): (r: seq<T>)
    ensures SortedBy(r, key)
    ensures multiset(r) == multiset(s)
    ensures |r| == |s|
  {
    if s == [] then []
    else
      var rest := SortBy(s[1..], key);
      assert s == [s[0]] + s[1..];
      Insert(s[0], rest, key)
  }

  /** Sorting keeps exactly the elements it was given. */
  lemma SortByMembers<T>(s: seq<T>, key: T -> seq<int>)
    ensures forall x :: x in SortBy(s, key) <==> x in s
  {
    var r := SortBy(s, key);
    forall x ensures x in r <==> x in s {
      assert x in r <==> x in multiset(r);
      assert x in s <==> x in multiset(s);
    }
  }

  /** How many of `n` rows `LIMIT limit OFFSET offset` keeps: `limit` when
      that many remain past `offset`, else what remains. */
  function PageLength(n: nat, limit: nat, offset: nat): nat {
    if offset >= n then 0 else if offset + limit <= n then limit else n - offset
  }

  /** `LIMIT limit OFFSET offset` on an ordered result. */
  function Page<T>(rows: seq<T>, limit: nat, offset: nat): (r: seq<T>)
    ensures |r| <= limit
    ensures |r| == PageLength(|rows|, limit, offset)
    ensures offset >= |rows| ==> r == []
    ensures forall i :: 0 <= i < |r| ==> offset + i < |rows| && r[i] == rows[offset + i]
  {
    if offset >= |rows| then []
    else if offset + limit <= |rows| then rows[offset..offset + limit]
    else rows[offset..]
  }
}
