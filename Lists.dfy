/** List operations the reducer is built from: `filter` by id and
    `sort((a, b) => time(b) - time(a))`, which keeps lists newest first.
    JavaScript's sort is stable, so the sort is a stable sort by descending
    key, modelled here as an insertion sort. */
module Lists {

  predicate SortedDesc<T>(s: seq<T>, key: T -> int) {
    forall i, j :: 0 <= i < j < |s| ==> key(s[i]) >= key(s[j])
  }

  /** No two elements share a projection (an id). */
  predicate DistinctBy<T, K(==)>(s: seq<T>, f: T -> K) {
    forall i, j :: 0 <= i < j < |s| ==> f(s[i]) != f(s[j])
  }

  /** `findIndex` on a key: the first position whose key is `k`, or -1 when
      there is none. */
  function FirstIndex<T, K(==)>(s: seq<T>, f: T -> K, k: K): (i: int)
    ensures -1 <= i < |s|
    ensures i >= 0 ==> f(s[i]) == k && forall j :: 0 <= j < i ==> f(s[j]) != k
    ensures i == -1 <==> forall j :: 0 <= j < |s| ==> f(s[j]) != k
  {
    if s == [] then -1
    else if f(s[0]) == k then 0
    else
      var r := FirstIndex(s[1..], f, k);
      if r == -1 then -1 else r + 1
  }

  /** With distinct keys, the key of an element finds that element. */
  lemma FirstIndexDistinct<T, K>(s: seq<T>, f: T -> K, i: int)
    requires DistinctBy(s, f) && 0 <= i < |s|
    ensures FirstIndex(s, f, f(s[i])) == i
  {
  }

  /** Where `x` goes in a newest-first list: before the first element whose
      key is not greater than its own, so it precedes every element with an
      equal key (that is what keeps the sort stable). */
  function InsertPos<T>(x: T, s: seq<T>, key: T -> int): (k: nat)
    ensures k <= |s|
    ensures forall j :: 0 <= j < k ==> key(s[j]) > key(x)
    ensures k < |s| ==> key(s[k]) <= key(x)
  {
    if s == [] || key(s[0]) <= key(x) then 0 else 1 + InsertPos(x, s[1..], key)
  }

  /** `x` put in its place; `InsertPermutes` and `InsertKeepsSorted` state
      what it does. */
  function Insert<T>(x: T, s: seq<T>, key: T -> int): seq<T> {
    var k := InsertPos(x, s, key);
    s[..k] + [x] + s[k..]
  }

  /** Insertion adds exactly `x`. */
  lemma InsertPermutes<T>(x: T, s: seq<T>, key: T -> int)
    ensures multiset(Insert(x, s, key)) == multiset(s) + multiset{x}
  {
    var k := InsertPos(x, s, key);
    assert s == s[..k] + s[k..];
  }

  /** The shape of an insertion: the list split at `InsertPos`. */
  lemma InsertShape<T>(x: T, s: seq<T>, key: T -> int)
    ensures var k := InsertPos(x, s, key);
            Insert(x, s, key) == s[..k] + [x] + s[k..]
  {
  }

  lemma InsertKeepsSorted<T>(x: T, s: seq<T>, key: T -> int)
    ensures SortedDesc(s, key) ==> SortedDesc(Insert(x, s, key), key)
  {
    var k := InsertPos(x, s, key);
    var r := s[..k] + [x] + s[k..];
    if SortedDesc(s, key) {
      forall i, j | 0 <= i < j < |r| ensures key(r[i]) >= key(r[j]) {
        if j < k {
          assert r[i] == s[i] && r[j] == s[j];
        } else if j == k {
          assert r[i] == s[i] && r[j] == x;
        } else if i < k {
          assert r[i] == s[i] && r[j] == s[j - 1];
        } else if i == k {
          assert r[i] == x && r[j] == s[j - 1];
          assert key(s[k]) <= key(x);
        } else {
          assert r[i] == s[i - 1] && r[j] == s[j - 1];
        }
      }
    }
  }

  /** Stable sort, newest (largest key) first. */
  function SortDesc<T>(s: seq<T>, key: T -> int): (r: seq<T>)
    ensures SortedDesc(r, key)
    ensures multiset(r) == multiset(s)
  {
    if s == [] then []
    else
      assert s == [s[0]] + s[1..];
      var rest := SortDesc(s[1..], key);
      InsertKeepsSorted(s[0], rest, key);
      InsertPermutes(s[0], rest, key);
      Insert(s[0], rest, key)
  }

  lemma SortStep<T>(s: seq<T>, key: T -> int)
    requires s != []
    ensures SortDesc(s, key) == Insert(s[0], SortDesc(s[1..], key), key)
  {
  }

  lemma SortedTail<T>(s: seq<T>, key: T -> int)
    requires s != [] && SortedDesc(s, key)
    ensures SortedDesc(s[1..], key)
    ensures |s| > 1 ==> key(s[1]) <= key(s[0])
  {
    var t := s[1..];
    forall i, j | 0 <= i < j < |t| ensures key(t[i]) >= key(t[j]) {
      assert t[i] == s[i + 1] && t[j] == s[j + 1];
    }
  }

  /** An element at least as new as the head of a list goes in front. */
  lemma InsertFront<T>(x: T, t: seq<T>, key: T -> int)
    requires t != [] ==> key(t[0]) <= key(x)
    ensures Insert(x, t, key) == [x] + t
  {
    assert InsertPos(x, t, key) == 0;
    assert t[..0] + [x] + t[0..] == [x] + t;
  }

  /** Sorting a list that is already newest first changes nothing. */
  lemma {:induction false} SortSortedIsIdentity<T>(s: seq<T>, key: T -> int)
    requires SortedDesc(s, key)
    ensures SortDesc(s, key) == s
  {
    if s != [] {
      var t := s[1..];
      SortedTail(s, key);
      SortSortedIsIdentity(t, key);
      SortStep(s, key);
      InsertFront(s[0], t, key);
      assert [s[0]] + t == s;
    }
  }

  /** The elements whose key is `v`, in list order. */
  function WithKey<T(!new)>(s: seq<T>, key: T -> int, v: int): (r: seq<T>)
    ensures |r| <= |s|
    ensures forall j :: 0 <= j < |r| ==> key(r[j]) == v
  {
    if s == [] then [] else (if key(s[0]) == v then [s[0]] else []) + WithKey(s[1..], key, v)
  }

  lemma {:induction false} WithKeyAppend<T(!new)>(a: seq<T>, b: seq<T>, key: T -> int, v: int)
    ensures WithKey(a + b, key, v) == WithKey(a, key, v) + WithKey(b, key, v)
  {
    if a == [] {
      assert a + b == b;
    } else {
      assert (a + b)[0] == a[0] && (a + b)[1..] == a[1..] + b;
      WithKeyAppend(a[1..], b, key, v);
    }
  }

  lemma WithKeySplit<T(!new)>(lo: seq<T>, x: T, hi: seq<T>, key: T -> int, v: int)
    ensures WithKey(lo + [x] + hi, key, v) == WithKey(lo, key, v) + (if key(x) == v then [x] else []) + WithKey(hi, key, v)
  {
    WithKeyAppend(lo + [x], hi, key, v);
    WithKeyAppend(lo, [x], key, v);
    assert [x][1..] == [];
  }

  lemma {:induction false} WithKeyNone<T(!new)>(s: seq<T>, key: T -> int, v: int)
    requires forall j :: 0 <= j < |s| ==> key(s[j]) > v
    ensures WithKey(s, key, v) == []
  {
    if s != [] {
      WithKeyNone(s[1..], key, v);
    }
  }

  /** An element placed after elements with larger keys only goes in front
      of the elements with its own key. */
  lemma WithKeyPlaced<T(!new)>(lo: seq<T>, x: T, hi: seq<T>, key: T -> int, v: int)
    requires forall j :: 0 <= j < |lo| ==> key(lo[j]) > key(x)
    ensures WithKey(lo + [x] + hi, key, v) == (if key(x) == v then [x] else []) + WithKey(lo + hi, key, v)
  {
    WithKeySplit(lo, x, hi, key, v);
    WithKeyAppend(lo, hi, key, v);
    var wl, wh := WithKey(lo, key, v), WithKey(hi, key, v);
    if key(x) == v {
      WithKeyNone(lo, key, v);
      assert wl + [x] + wh == [x] + (wl + wh);
    } else {
      assert wl + [] + wh == [] + (wl + wh);
    }
  }

  /** An inserted element goes in front of the elements with its key. */
  lemma InsertBeforeEqual<T(!new)>(x: T, s: seq<T>, key: T -> int, v: int)
    ensures WithKey(Insert(x, s, key), key, v) == (if key(x) == v then [x] else []) + WithKey(s, key, v)
  {
    var k := InsertPos(x, s, key);
    InsertShape(x, s, key);
    WithKeyPlaced(s[..k], x, s[k..], key, v);
    assert s[..k] + s[k..] == s;
  }

  /** The sort is stable: the elements that share a key keep their input
      order. */
  lemma {:induction false} SortStable<T(!new)>(s: seq<T>, key: T -> int, v: int)
    ensures WithKey(SortDesc(s, key), key, v) == WithKey(s, key, v)
  {
    if s != [] {
      SortStable(s[1..], key, v);
      SortStep(s, key);
      InsertBeforeEqual(s[0], SortDesc(s[1..], key), key, v);
    }
  }

  /** Putting an element with a new projection between two parts of a list
      with distinct projections keeps them distinct. */
  lemma PlacedDistinct<T, K>(lo: seq<T>, x: T, hi: seq<T>, f: T -> K)
    requires DistinctBy(lo + hi, f)
    requires forall i :: 0 <= i < |lo + hi| ==> f((lo + hi)[i]) != f(x)
    ensures DistinctBy(lo + [x] + hi, f)
  {
    var s, r, k := lo + hi, lo + [x] + hi, |lo|;
    forall i, j | 0 <= i < j < |r|
      ensures f(r[i]) != f(r[j])
    {
      if j < k {
        assert r[i] == s[i] && r[j] == s[j];
      } else if j == k {
        assert r[i] == s[i] && r[j] == x;
      } else if i < k {
        assert r[i] == s[i] && r[j] == s[j - 1];
      } else if i == k {
        assert r[i] == x && r[j] == s[j - 1];
      } else {
        assert r[i] == s[i - 1] && r[j] == s[j - 1];
      }
    }
  }

  /** Inserting an element whose projection is new keeps projections distinct. */
  lemma InsertDistinct<T, K>(x: T, s: seq<T>, key: T -> int, f: T -> K)
    requires DistinctBy(s, f)
    requires forall y :: y in s ==> f(y) != f(x)
    ensures DistinctBy(Insert(x, s, key), f)
  {
    forall i | 0 <= i < |s| ensures f(s[i]) != f(x) {
      assert s[i] in s;
    }
    var k := InsertPos(x, s, key);
    var lo, hi := s[..k], s[k..];
    assert lo + hi == s;
    PlacedDistinct(lo, x, hi, f);
    InsertShape(x, s, key);
  }

  lemma {:induction false} SortDistinct<T, K>(s: seq<T>, key: T -> int, f: T -> K)
    requires DistinctBy(s, f)
    ensures DistinctBy(SortDesc(s, key), f)
  {
    if s != [] {
      var t := s[1..];
      assert DistinctBy(t, f) by {
        forall i, j | 0 <= i < j < |t| ensures f(t[i]) != f(t[j]) {
          assert t[i] == s[i + 1] && t[j] == s[j + 1];
        }
      }
      SortDistinct(t, key, f);
      var st := SortDesc(t, key);
      forall y | y in st ensures f(y) != f(s[0]) {
        assert y in multiset(st);
        assert y in t;
        var j :| 0 <= j < |t| && t[j] == y;
        assert s[j + 1] == y;
      }
      InsertDistinct(s[0], st, key, f);
    }
  }

  /** The sorted list holds exactly the elements of its input. */
  lemma SortMembers<T>(s: seq<T>, key: T -> int, y: T)
    ensures y in SortDesc(s, key) <==> y in s
  {
    var r := SortDesc(s, key);
    assert y in r <==> y in multiset(r);
    assert y in s <==> y in multiset(s);
  }

  /** `s.filter(x => f(x) !== k)`. */
  function Without<T(!new), K(==)>(s: seq<T>, f: T -> K, k: K): (r: seq<T>)
    ensures |r| <= |s|
    ensures forall x :: x in r <==> x in s && f(x) != k
    ensures DistinctBy(s, f) ==> DistinctBy(r, f)
    ensures |s| == 1 ==> r == if f(s[0]) == k then [] else s
  {
    if s == [] then []
    else
      var rest := Without(s[1..], f, k);
      if f(s[0]) == k then rest
      else
        assert DistinctBy(s, f) ==> forall y :: y in rest ==> f(y) != f(s[0]) by {
          if DistinctBy(s, f) {
            forall y | y in rest ensures f(y) != f(s[0]) {
              var j :| 0 <= j < |s[1..]| && s[1..][j] == y;
              assert s[j + 1] == y;
            }
          }
        }
        ConsDistinct(s[0], rest, f);
        [s[0]] + rest
  }

  /** The filter works element by element: filtering a concatenation is the
      concatenation of the filtered parts, so the survivors keep their order
      and number. With the one-element case above this fixes the result. */
  lemma {:induction false} WithoutAppend<T(!new), K>(a: seq<T>, b: seq<T>, f: T -> K, k: K)
    ensures Without(a + b, f, k) == Without(a, f, k) + Without(b, f, k)
  {
    if a == [] {
      assert a + b == b;
    } else {
      assert (a + b)[0] == a[0] && (a + b)[1..] == a[1..] + b;
      WithoutAppend(a[1..], b, f, k);
    }
  }

  lemma ConsDistinct<T, K>(x: T, s: seq<T>, f: T -> K)
    ensures DistinctBy([x] + s, f) <==> DistinctBy(s, f) && forall y :: y in s ==> f(y) != f(x)
  {
    var r := [x] + s;
    if DistinctBy(s, f) && forall y :: y in s ==> f(y) != f(x) {
      forall i, j | 0 <= i < j < |r| ensures f(r[i]) != f(r[j]) {
        if i == 0 { assert r[j] == s[j - 1] && s[j - 1] in s; }
        else { assert r[i] == s[i - 1] && r[j] == s[j - 1]; }
      }
    }
    if DistinctBy(r, f) {
      forall i, j | 0 <= i < j < |s| ensures f(s[i]) != f(s[j]) {
        assert s[i] == r[i + 1] && s[j] == r[j + 1];
      }
      forall y | y in s ensures f(y) != f(x) {
        var j :| 0 <= j < |s| && s[j] == y;
        assert r[0] == x && r[j + 1] == y;
      }
    }
  }
}
