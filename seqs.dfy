/**
 * Sequence operations the JavaScript code reaches through the standard library:
 * `Array.prototype.filter`, `[...new Set(xs)]` and the stable `Array.prototype.sort`
 * (stable since ES2019) with a descending numeric comparator `(a, b) => key(b) - key(a)`.
 */
module Seqs {

  /** `s.filter(p)`: the elements satisfying `p`, in their original order. */
  function Filter<T>(s: seq<T>, p: T -> bool): (r: seq<T>)
    ensures |r| <= |s|
    ensures forall x | x in r :: x in s && p(x)
    ensures forall x | x in s && p(x) :: x in r
    ensures forall i :: 0 <= i < |r| ==> p(r[i])
  {
    if s == [] then [] else (if p(s[0]) then [s[0]] else []) + Filter(s[1..], p)
  }

  lemma {:induction false} FilterAppend<T>(a: seq<T>, b: seq<T>, p: T -> bool)
    ensures Filter(a + b, p) == Filter(a, p) + Filter(b, p)
  {
    if a == [] {
      assert a + b == b;
    } else {
      assert (a + b)[0] == a[0];
      assert (a + b)[1..] == a[1..] + b;
      FilterAppend(a[1..], b, p);
    }
  }

  lemma {:induction false} FilterKeepsAll<T>(s: seq<T>, p: T -> bool)
    requires forall i :: 0 <= i < |s| ==> p(s[i])
    ensures Filter(s, p) == s
  {
    if s != [] {
      FilterKeepsAll(s[1..], p);
    }
  }

  /** `s.map(f)`. */
  function Map<T, U>(s: seq<T>, f: T -> U): (r: seq<U>)
    ensures |r| == |s|
    ensures forall i :: 0 <= i < |s| ==> r[i] == f(s[i])
  {
    seq(|s|, i requires 0 <= i < |s| => f(s[i]))
  }

  lemma MapCons<T, U>(x: T, s: seq<T>, f: T -> U)
    ensures Map([x] + s, f) == [f(x)] + Map(s, f)
  {
  }

  lemma FilterCons<T>(s: seq<T>, p: T -> bool)
    requires s != []
    ensures Filter(s, p) == (if p(s[0]) then [s[0]] else []) + Filter(s[1..], p)
  {
  }

  /** `s.findIndex(p)`: the first position satisfying `p`, or -1 when there is none. */
  function FindIndex<T>(s: seq<T>, p: T -> bool): (ix: int)
    ensures -1 <= ix < |s|
    ensures ix == -1 <==> forall i :: 0 <= i < |s| ==> !p(s[i])
    ensures 0 <= ix ==> p(s[ix]) && forall i :: 0 <= i < ix ==> !p(s[i])
  {
    if s == [] then -1
    else if p(s[0]) then 0
    else
      var r := FindIndex(s[1..], p);
      if r == -1 then -1 else r + 1
  }

  ghost predicate NoDuplicates<T>(s: seq<T>)
  {
    forall i, j :: 0 <= i < j < |s| ==> s[i] != s[j]
  }

  /** Filtering a list without repeats gives a list without repeats. */
  lemma {:induction false} FilterNoDuplicates<T>(s: seq<T>, p: T -> bool)
    requires NoDuplicates(s)
    ensures NoDuplicates(Filter(s, p))
  {
    if s != [] {
      assert NoDuplicates(s[1..]) by {
        forall i, j | 0 <= i < j < |s[1..]| ensures s[1..][i] != s[1..][j] {
          assert s[1..][i] == s[i + 1] && s[1..][j] == s[j + 1];
        }
      }
      FilterNoDuplicates(s[1..], p);
      FilterCons(s, p);
      var rest := Filter(s[1..], p);
      assert s[0] !in s[1..] by {
        forall i | 0 <= i < |s[1..]| ensures s[1..][i] != s[0] {
          assert s[1..][i] == s[i + 1];
        }
      }
      assert s[0] !in rest;
      var r := Filter(s, p);
      if p(s[0]) {
        forall i, j | 0 <= i < j < |r| ensures r[i] != r[j] {
          assert r[j] == rest[j - 1];
          if i > 0 {
            assert r[i] == rest[i - 1];
          }
        }
      }
    }
  }

  lemma {:induction false} NoDuplicatesCount<T>(s: seq<T>, x: T)
    requires NoDuplicates(s)
    ensures multiset(s)[x] <= 1
  {
    if s != [] {
      assert s == [s[0]] + s[1..];
      assert NoDuplicates(s[1..]) by {
        forall i, j | 0 <= i < j < |s[1..]| ensures s[1..][i] != s[1..][j] {
          assert s[1..][i] == s[i + 1] && s[1..][j] == s[j + 1];
        }
      }
      NoDuplicatesCount(s[1..], x);
      if s[0] == x {
        assert x !in s[1..] by {
          forall i | 0 <= i < |s[1..]| ensures s[1..][i] != x {
            assert s[1..][i] == s[i + 1];
          }
        }
      }
    }
  }

  /** Reordering a list without repeats gives a list without repeats. */
  lemma PermutationNoDuplicates<T>(a: seq<T>, b: seq<T>)
    requires multiset(a) == multiset(b) && NoDuplicates(a)
    ensures NoDuplicates(b)
  {
    forall i, j | 0 <= i < j < |b| ensures b[i] != b[j] {
      if b[i] == b[j] {
        var x := b[i];
        assert b == b[..j] + b[j..];
        assert x in b[..j] && x in b[j..];
        assert multiset(b)[x] == multiset(b[..j])[x] + multiset(b[j..])[x];
        NoDuplicatesCount(a, x);
        assert false;
      }
    }
  }

  /** The position of the first occurrence of `x` in `s`. */
  function FirstIndex<T(==)>(s: seq<T>, x: T): (k: nat)
    requires x in s
    ensures k < |s| && s[k] == x
    ensures forall i :: 0 <= i < k ==> s[i] != x
  {
    if s[0] == x then 0 else 1 + FirstIndex(s[1..], x)
  }

  lemma FirstIndexOfPrefix<T>(s: seq<T>, x: T, n: nat)
    requires n <= |s| && x in s[..n]
    ensures x in s && FirstIndex(s, x) == FirstIndex(s[..n], x)
  {
    var k := FirstIndex(s[..n], x);
    assert s[k] == x;
    var m := FirstIndex(s, x);
    assert m <= k;
    assert s[..n][m] == x;
  }

  /**
   * `[...new Set(s)]`: each distinct element once, in the order of its first
   * occurrence (a JavaScript `Set` iterates in insertion order).
   */
  function Dedup<T(==)>(s: seq<T>): (r: seq<T>)
    ensures forall x | x in r :: x in s
    ensures forall x | x in s :: x in r
    ensures NoDuplicates(r)
    ensures forall i, j :: 0 <= i < j < |r| ==> FirstIndex(s, r[i]) < FirstIndex(s, r[j])
  {
    if s == [] then []
    else
      var init := s[..|s| - 1];
      var last := s[|s| - 1];
      var d := Dedup(init);
      assert s == init + [last];
      DedupKeepsFirstOrder(s, init, d);
      if last in d then d
      else
        assert FirstIndex(s, last) == |s| - 1 by {
          assert last !in init;
          assert forall i :: 0 <= i < |s| - 1 ==> s[i] == init[i];
        }
        d + [last]
  }

  // The first-occurrence positions in `s` of the elements of `d` are those in `init`.
  lemma DedupKeepsFirstOrder<T>(s: seq<T>, init: seq<T>, d: seq<T>)
    requires |s| > 0 && init == s[..|s| - 1]
    requires forall x | x in d :: x in init
    ensures forall i :: 0 <= i < |d| ==> d[i] in s && FirstIndex(s, d[i]) == FirstIndex(init, d[i]) < |init|
  {
    forall i | 0 <= i < |d|
      ensures d[i] in s && FirstIndex(s, d[i]) == FirstIndex(init, d[i]) < |init|
    {
      FirstIndexOfPrefix(s, d[i], |s| - 1);
    }
  }

  /* ---------- stable descending sort by an integer key ---------- */

  ghost predicate SortedDesc<T>(s: seq<T>, key: T -> int)
  {
    forall i, j :: 0 <= i < j < |s| ==> key(s[i]) >= key(s[j])
  }

  /** The elements of `s` whose key is `k`, in their order in `s`. */
  function WithKey<T>(s: seq<T>, key: T -> int, k: int): (r: seq<T>)
  {
    if s == [] then [] else (if key(s[0]) == k then [s[0]] else []) + WithKey(s[1..], key, k)
  }

  /** `x` occurs at some position before some occurrence of `y` in `s`. */
  ghost predicate Before<T>(s: seq<T>, x: T, y: T)
  {
    exists i, j :: 0 <= i < j < |s| && s[i] == x && s[j] == y
  }

  // Inserts `x` in front of the first element whose key is not greater than its own.
  function InsertDesc<T>(x: T, s: seq<T>, key: T -> int): seq<T>
  {
    if s == [] || key(s[0]) <= key(x) then [x] + s else [s[0]] + InsertDesc(x, s[1..], key)
  }

  /**
   * `s.slice().sort((a, b) => key(b) - key(a))` under a stable sort: the result is
   * ordered by non-increasing key and elements with equal keys keep their order.
   */
  function SortDesc<T>(s: seq<T>, key: T -> int): seq<T>
  {
    if s == [] then [] else InsertDesc(s[0], SortDesc(s[1..], key), key)
  }

  lemma {:induction false} InsertDescMultiset<T>(x: T, s: seq<T>, key: T -> int)
    ensures multiset(InsertDesc(x, s, key)) == multiset(s) + multiset{x}
  {
    if s != [] && key(s[0]) > key(x) {
      InsertDescMultiset(x, s[1..], key);
      assert s == [s[0]] + s[1..];
    }
  }

  lemma {:induction false} InsertDescMembers<T>(x: T, s: seq<T>, key: T -> int)
    ensures forall y | y in InsertDesc(x, s, key) :: y == x || y in s
  {
    if s != [] && key(s[0]) > key(x) {
      InsertDescMembers(x, s[1..], key);
      assert forall y | y in s[1..] :: y in s;
    }
  }

  lemma {:induction false} InsertDescSorted<T>(x: T, s: seq<T>, key: T -> int)
    requires SortedDesc(s, key)
    ensures SortedDesc(InsertDesc(x, s, key), key)
  {
    if s == [] || key(s[0]) <= key(x) {
      var r := [x] + s;
      forall i, j | 0 <= i < j < |r| ensures key(r[i]) >= key(r[j]) {
        assert r[j] == s[j - 1];
        if i > 0 {
          assert r[i] == s[i - 1];
        }
      }
    } else {
      var tail := s[1..];
      assert SortedDesc(tail, key) by {
        forall i, j | 0 <= i < j < |tail| ensures key(tail[i]) >= key(tail[j]) {
          assert tail[i] == s[i + 1] && tail[j] == s[j + 1];
        }
      }
      InsertDescSorted(x, tail, key);
      InsertDescMembers(x, tail, key);
      var t := InsertDesc(x, tail, key);
      var r := [s[0]] + t;
      forall j | 0 <= j < |t| ensures key(s[0]) >= key(t[j]) {
        assert t[j] in t;
        if t[j] != x {
          var m :| 0 <= m < |tail| && tail[m] == t[j];
          assert s[m + 1] == t[j];
        }
      }
      forall i, j | 0 <= i < j < |r| ensures key(r[i]) >= key(r[j]) {
        assert r[j] == t[j - 1];
        if i > 0 {
          assert r[i] == t[i - 1];
        }
      }
    }
  }

  lemma InsertDescProps<T>(x: T, s: seq<T>, key: T -> int)
    requires SortedDesc(s, key)
    ensures SortedDesc(InsertDesc(x, s, key), key)
    ensures multiset(InsertDesc(x, s, key)) == multiset(s) + multiset{x}
  {
    InsertDescSorted(x, s, key);
    InsertDescMultiset(x, s, key);
  }

  lemma {:induction false} SortDescSorted<T>(s: seq<T>, key: T -> int)
    ensures SortedDesc(SortDesc(s, key), key)
    ensures multiset(SortDesc(s, key)) == multiset(s)
  {
    if s != [] {
      SortDescSorted(s[1..], key);
      InsertDescProps(s[0], SortDesc(s[1..], key), key);
      assert s == [s[0]] + s[1..];
    }
  }

  lemma {:induction false} InsertDescWithKey<T>(x: T, s: seq<T>, key: T -> int, k: int)
    ensures WithKey(InsertDesc(x, s, key), key, k) == (if key(x) == k then [x] else []) + WithKey(s, key, k)
  {
    var here := if key(x) == k then [x] else [];
    if s == [] || key(s[0]) <= key(x) {
      var r := [x] + s;
      assert r[0] == x && r[1..] == s;
      assert WithKey(r, key, k) == here + WithKey(s, key, k);
    } else {
      var tail := s[1..];
      var t := InsertDesc(x, tail, key);
      InsertDescWithKey(x, tail, key, k);
      var r := [s[0]] + t;
      assert r[0] == s[0] && r[1..] == t;
      var head := if key(s[0]) == k then [s[0]] else [];
      assert WithKey(r, key, k) == head + (here + WithKey(tail, key, k));
      assert head == [] || here == [];
      assert head + (here + WithKey(tail, key, k)) == here + (head + WithKey(tail, key, k));
      assert WithKey(s, key, k) == head + WithKey(tail, key, k);
    }
  }

  /** Stability: for every key value, the elements with that key keep their order. */
  lemma {:induction false} SortDescStable<T>(s: seq<T>, key: T -> int, k: int)
    ensures WithKey(SortDesc(s, key), key, k) == WithKey(s, key, k)
  {
    if s != [] {
      SortDescStable(s[1..], key, k);
      InsertDescWithKey(s[0], SortDesc(s[1..], key), key, k);
    }
  }

  lemma {:induction false} WithKeyMember<T>(s: seq<T>, key: T -> int, k: int, y: T)
    ensures y in WithKey(s, key, k) <==> y in s && key(y) == k
  {
    if s != [] {
      WithKeyMember(s[1..], key, k, y);
      assert y in s <==> y == s[0] || y in s[1..];
    }
  }

  lemma BeforeCons<T>(h: T, t: seq<T>, x: T, y: T)
    ensures Before([h] + t, x, y) <==> (h == x && y in t) || Before(t, x, y)
  {
    var s := [h] + t;
    if Before(s, x, y) {
      var i, j :| 0 <= i < j < |s| && s[i] == x && s[j] == y;
      if i == 0 {
        assert t[j - 1] == y;
      } else {
        assert t[i - 1] == x && t[j - 1] == y;
      }
    }
    if h == x && y in t {
      var j :| 0 <= j < |t| && t[j] == y;
      assert s[0] == x && s[j + 1] == y;
    }
    if Before(t, x, y) {
      var i, j :| 0 <= i < j < |t| && t[i] == x && t[j] == y;
      assert s[i + 1] == x && s[j + 1] == y;
    }
  }

  lemma {:induction false} BeforeWithKey<T>(s: seq<T>, key: T -> int, x: T, y: T)
    requires key(x) == key(y)
    ensures Before(s, x, y) <==> Before(WithKey(s, key, key(x)), x, y)
  {
    var k := key(x);
    if s != [] {
      BeforeWithKey(s[1..], key, x, y);
      assert s == [s[0]] + s[1..];
      BeforeCons(s[0], s[1..], x, y);
      if key(s[0]) == k {
        BeforeCons(s[0], WithKey(s[1..], key, k), x, y);
        WithKeyMember(s[1..], key, k, y);
      } else {
        assert WithKey(s, key, k) == WithKey(s[1..], key, k);
      }
    }
  }

  /** Filtering keeps the relative order of the elements it keeps. */
  lemma {:induction false} BeforeFilter<T>(s: seq<T>, p: T -> bool, x: T, y: T)
    requires p(x) && p(y)
    ensures Before(s, x, y) <==> Before(Filter(s, p), x, y)
  {
    if s != [] {
      var tail := s[1..];
      var ft := Filter(tail, p);
      BeforeFilter(tail, p, x, y);
      assert s == [s[0]] + tail;
      BeforeCons(s[0], tail, x, y);
      FilterCons(s, p);
      if p(s[0]) {
        assert Filter(s, p) == [s[0]] + ft;
        BeforeCons(s[0], ft, x, y);
        assert y in ft <==> y in tail;
      } else {
        assert Filter(s, p) == ft;
        assert s[0] != x;
      }
    }
  }

  /** An order that holds inside either part of a concatenation holds in the whole. */
  lemma BeforeAppend<T>(a: seq<T>, b: seq<T>, x: T, y: T)
    ensures Before(a, x, y) || Before(b, x, y) ==> Before(a + b, x, y)
  {
    var s := a + b;
    if Before(a, x, y) {
      var i, j :| 0 <= i < j < |a| && a[i] == x && a[j] == y;
      assert s[i] == x && s[j] == y;
    } else if Before(b, x, y) {
      var i, j :| 0 <= i < j < |b| && b[i] == x && b[j] == y;
      assert s[|a| + i] == x && s[|a| + j] == y;
    }
  }

  /** Under the stable sort, two elements with equal keys keep their relative order. */
  lemma SortDescKeepsOrder<T>(s: seq<T>, key: T -> int, x: T, y: T)
    requires key(x) == key(y)
    ensures Before(SortDesc(s, key), x, y) <==> Before(s, x, y)
  {
    BeforeWithKey(s, key, x, y);
    BeforeWithKey(SortDesc(s, key), key, x, y);
    SortDescStable(s, key, key(x));
  }

  /** Elements with different keys come out in key order, whatever their input order. */
  lemma SortDescOrdersKeys<T>(s: seq<T>, key: T -> int, x: T, y: T)
    requires x in s && y in s && key(x) > key(y)
    ensures Before(SortDesc(s, key), x, y)
  {
    SortDescSorted(s, key);
    var r := SortDesc(s, key);
    assert x in multiset(r) && y in multiset(r);
    var i :| 0 <= i < |r| && r[i] == x;
    var j :| 0 <= j < |r| && r[j] == y;
    assert i < j;
  }
}
