/** sort.Slice by an integer key: the result is the input in key order. */
module Sorting {

  ghost predicate Sorted<T>(s: seq<T>, key: T -> int) {
    forall i, j | 0 <= i < j < |s| :: key(s[i]) <= key(s[j])
  }

  ghost predicate Distinct<T, K>(s: seq<T>, id: T -> K) {
    forall i, j | 0 <= i < j < |s| :: id(s[i]) != id(s[j])
  }

  function Insert<T(!new)>(x: T, s: seq<T>, key: T -> int): (r: seq<T>)
    ensures |r| == |s| + 1
    ensures forall y :: y in r <==> y == x || y in s
  {
    if s == [] || key(x) < key(s[0]) then [x] + s
    else
      assert s == [s[0]] + s[1..];
      [s[0]] + Insert(x, s[1..], key)
  }

  lemma {:induction false} InsertSorted<T(!new)>(x: T, s: seq<T>, key: T -> int)
    requires Sorted(s, key)
    ensures Sorted(Insert(x, s, key), key)
  {
    if s != [] && key(s[0]) <= key(x) {
      InsertSorted(x, s[1..], key);
      var rest := Insert(x, s[1..], key);
      forall j | 0 <= j < |rest| ensures key(s[0]) <= key(rest[j]) {
        assert rest[j] in rest;
      }
    }
  }

  function SortBy<T(!new)>(s: seq<T>, key: T -> int): (r: seq<T>)
    ensures |r| == |s|
    ensures forall y :: y in r <==> y in s
  {
    if s == [] then [] else
      assert s == s[..|s| - 1] + [s[|s| - 1]];
      Insert(s[|s| - 1], SortBy(s[..|s| - 1], key), key)
  }

  lemma {:induction false} SortByKey<T(!new)>(s: seq<T>, key: T -> int)
    ensures Sorted(SortBy(s, key), key)
  {
    if s != [] {
      SortByKey(s[..|s| - 1], key);
      InsertSorted(s[|s| - 1], SortBy(s[..|s| - 1], key), key);
    }
  }

  lemma {:induction false} InsertDistinct<T(!new), K>(x: T, s: seq<T>, key: T -> int, id: T -> K)
    requires Distinct(s, id) && forall y | y in s :: id(y) != id(x)
    ensures Distinct(Insert(x, s, key), id)
  {
    if s == [] || key(x) < key(s[0]) {
      assert forall j | 0 <= j < |s| :: s[j] in s;
    } else {
      InsertDistinct(x, s[1..], key, id);
      var rest := Insert(x, s[1..], key);
      forall j | 0 <= j < |rest| ensures id(s[0]) != id(rest[j]) {
        NotAgain(x, s, rest, id, j);
      }
    }
  }

  lemma NotAgain<T(!new), K>(x: T, s: seq<T>, rest: seq<T>, id: T -> K, j: nat)
    requires s != [] && Distinct(s, id) && id(s[0]) != id(x) && j < |rest|
    requires forall y :: y in rest <==> y == x || y in s[1..]
    ensures id(s[0]) != id(rest[j])
  {
    assert rest[j] in rest;
    if rest[j] != x {
      var k :| 0 <= k < |s[1..]| && s[1..][k] == rest[j];
      assert s[k + 1] == rest[j];
    }
  }

  lemma {:induction false} SortDistinct<T(!new), K>(s: seq<T>, key: T -> int, id: T -> K)
    requires Distinct(s, id)
    ensures Distinct(SortBy(s, key), id)
  {
    if s != [] {
      var last := |s| - 1;
      SortDistinct(s[..last], key, id);
      forall y | y in s[..last] ensures id(y) != id(s[last]) {
        var k :| 0 <= k < last && s[k] == y;
      }
      InsertDistinct(s[last], SortBy(s[..last], key), key, id);
    }
  }

  /** The splice that puts one element first. */
  function MoveToFront<T>(s: seq<T>, i: nat): (r: seq<T>)
    requires i < |s|
    ensures multiset(r) == multiset(s)
  {
    assert s == s[..i] + ([s[i]] + s[i + 1..]);
    [s[i]] + (s[..i] + s[i + 1..])
  }

  /** It puts that element first, loses none, and keeps the order of the rest. */
  lemma MoveToFrontOrder<T(!new)>(s: seq<T>, i: nat)
    requires i < |s|
    ensures var r := MoveToFront(s, i);
      && |r| == |s| && r[0] == s[i]
      && (forall y :: y in r <==> y in s)
      && r[1..] == s[..i] + s[i + 1..]
      && MoveToFront(r, 0) == r
  {
    var r := MoveToFront(s, i);
    forall y ensures y in r <==> y in s {
      assert y in r <==> y in multiset(r);
      assert y in s <==> y in multiset(s);
    }
  }

  lemma MovedAt<T>(s: seq<T>, i: nat, m: nat)
    requires i < |s| && m < |s|
    ensures |MoveToFront(s, i)| == |s|
    ensures MoveToFront(s, i)[m] == if m == 0 then s[i] else if m <= i then s[m - 1] else s[m]
  {
  }

  lemma SortedAt<T>(s: seq<T>, key: T -> int, i: nat, k: nat)
    requires Sorted(s, key) && i <= k < |s|
    ensures key(s[i]) <= key(s[k])
  {
  }

  lemma MoveToFrontDistinct<T, K>(s: seq<T>, i: nat, id: T -> K)
    requires i < |s| && Distinct(s, id)
    ensures Distinct(MoveToFront(s, i), id)
  {
    var r := MoveToFront(s, i);
    forall j, k | 0 <= j < k < |r| ensures id(r[j]) != id(r[k]) {
      var js := if j == 0 then i else if j <= i then j - 1 else j;
      var ks := if k <= i then k - 1 else k;
      assert r[j] == s[js] && r[k] == s[ks] && js != ks;
    }
  }

  // -------------------------------------------------- a list that names a set

  /** Each name of the set is the id of exactly one element, and no other id is. */
  ghost predicate Lists<T, K>(s: seq<T>, id: T -> K, names: set<K>) {
    && Distinct(s, id)
    && (forall i | 0 <= i < |s| :: id(s[i]) in names)
    && (forall n | n in names :: exists i :: 0 <= i < |s| && id(s[i]) == n)
  }

  lemma ListsSnoc<T, K>(s: seq<T>, x: T, id: T -> K, names: set<K>)
    requires Lists(s, id, names) && id(x) !in names
    ensures Lists(s + [x], id, names + {id(x)})
  {
    var r := s + [x];
    forall n | n in names + {id(x)} ensures exists i :: 0 <= i < |r| && id(r[i]) == n {
      if n == id(x) {
        assert id(r[|s|]) == n;
      } else {
        var i :| 0 <= i < |s| && id(s[i]) == n;
        assert id(r[i]) == n;
      }
    }
  }

  lemma ListsNames<T, K>(s: seq<T>, id: T -> K, names: set<K>)
    requires Lists(s, id, names)
    ensures forall x | x in s :: id(x) in names
    ensures s == [] ==> names == {}
  {
  }

  lemma ListsTail<T, K>(s: seq<T>, id: T -> K, names: set<K>)
    requires s != [] && Lists(s, id, names)
    ensures id(s[0]) in names
    ensures Lists(s[1..], id, names - {id(s[0])})
  {
    forall n | n in names - {id(s[0])} ensures exists i :: 0 <= i < |s[1..]| && id(s[1..][i]) == n {
      var i :| 0 <= i < |s| && id(s[i]) == n;
      assert id(s[1..][i - 1]) == n;
    }
  }

  lemma ListsSameElements<T(!new), K>(s: seq<T>, r: seq<T>, id: T -> K, names: set<K>)
    requires Lists(s, id, names) && Distinct(r, id)
    requires forall y :: y in r <==> y in s
    ensures Lists(r, id, names)
  {
    forall i | 0 <= i < |r| ensures id(r[i]) in names {
      assert r[i] in s;
    }
    forall n | n in names ensures exists i :: 0 <= i < |r| && id(r[i]) == n {
      var i :| 0 <= i < |s| && id(s[i]) == n;
      assert s[i] in r;
    }
  }

  lemma ListsSorted<T(!new), K>(s: seq<T>, key: T -> int, id: T -> K, names: set<K>)
    requires Lists(s, id, names)
    ensures Lists(SortBy(s, key), id, names) && Sorted(SortBy(s, key), key)
  {
    SortDistinct(s, key, id);
    SortByKey(s, key);
    ListsSameElements(s, SortBy(s, key), id, names);
  }

  lemma ListsMoved<T(!new), K>(s: seq<T>, i: nat, id: T -> K, names: set<K>)
    requires i < |s| && Lists(s, id, names)
    ensures Lists(MoveToFront(s, i), id, names)
  {
    MoveToFrontDistinct(s, i, id);
    MoveToFrontOrder(s, i);
    ListsSameElements(s, MoveToFront(s, i), id, names);
  }
}
