/**
 * Python's `list.sort(key=key, reverse=True)`: a stable sort, largest key
 * first, in which elements with equal keys keep their original order.
 */
module Ranking {

  /**
   * Inserts `x` into a list sorted largest key first, ahead of the first
   * element whose key is not larger than `key(x)`, so `x` precedes the
   * equal-keyed elements that came after it in the input.
   */
  function Insert<T>(s: seq<T>, x: T, key: T -> int): (r: seq<T>)
    ensures |r| == |s| + 1
    ensures multiset(r) == multiset(s) + multiset{x}
  {
    if s == [] then [x]
    else
      assert s == [s[0]] + s[1..];
      if key(s[0]) > key(x) then [s[0]] + Insert(s[1..], x, key)
      else [x] + s
  }

  /** The stable descending sort, built by inserting the elements front to back from the end. */
  function SortDesc<T>(s: seq<T>, key: T -> int): (r: seq<T>)
    ensures |r| == |s|
    ensures multiset(r) == multiset(s)
  {
    if s == [] then []
    else
      assert s == [s[0]] + s[1..];
      Insert(SortDesc(s[1..], key), s[0], key)
  }

  ghost predicate SortedDesc<T>(s: seq<T>, key: T -> int)
  {
    forall i, j :: 0 <= i < j < |s| ==> key(s[i]) >= key(s[j])
  }

  /** The elements whose key is `k`, in order. */
  function WithKey<T>(s: seq<T>, key: T -> int, k: int): seq<T>
  {
    if s == [] then []
    else (if key(s[0]) == k then [s[0]] else []) + WithKey(s[1..], key, k)
  }

  lemma {:induction false} InsertSorted<T>(s: seq<T>, x: T, key: T -> int)
    requires SortedDesc(s, key)
    ensures SortedDesc(Insert(s, x, key), key)
  {
    if s == [] {
      assert Insert(s, x, key) == [x];
    } else if key(s[0]) > key(x) {
      SortedTail(s, key);
      InsertSorted(s[1..], x, key);
      InsertHead(s[1..], x, key);
      SortedCons(s[0], Insert(s[1..], x, key), key);
    } else {
      SortedCons(x, s, key);
    }
  }

  lemma SortedTail<T>(s: seq<T>, key: T -> int)
    requires s != [] && SortedDesc(s, key)
    ensures SortedDesc(s[1..], key) && (|s| > 1 ==> key(s[1]) <= key(s[0]))
  {
  }

  /** A head no smaller than a sorted tail's head gives a sorted list. */
  lemma SortedCons<T>(h: T, t: seq<T>, key: T -> int)
    requires SortedDesc(t, key) && (t != [] ==> key(t[0]) <= key(h))
    ensures SortedDesc([h] + t, key)
  {
    var r := [h] + t;
    forall i, j | 0 <= i < j < |r| ensures key(r[i]) >= key(r[j]) {
      if i == 0 {
        assert key(t[j - 1]) <= key(t[0]);
      } else {
        assert r[i] == t[i - 1] && r[j] == t[j - 1];
      }
    }
  }

  /** The head of an insertion: the old head if its key is larger, `x` otherwise. */
  lemma InsertHead<T>(s: seq<T>, x: T, key: T -> int)
    ensures Insert(s, x, key)[0] == if s != [] && key(s[0]) > key(x) then s[0] else x
  {
  }

  lemma {:induction false} NoneWithKey<T>(s: seq<T>, key: T -> int, k: int)
    requires forall j :: 0 <= j < |s| ==> key(s[j]) < k
    ensures WithKey(s, key, k) == []
  {
    if s != [] {
      NoneWithKey(s[1..], key, k);
    }
  }

  lemma {:induction false} InsertWithKey<T>(s: seq<T>, x: T, key: T -> int, k: int)
    ensures WithKey(Insert(s, x, key), key, k) == (if key(x) == k then [x] else []) + WithKey(s, key, k)
  {
    var head := if key(x) == k then [x] else [];
    if s == [] {
      assert Insert(s, x, key) == [x];
    } else if key(s[0]) > key(x) {
      var r := Insert(s[1..], x, key);
      assert Insert(s, x, key) == [s[0]] + r;
      assert ([s[0]] + r)[1..] == r;
      InsertWithKey(s[1..], x, key, k);
      var own := if key(s[0]) == k then [s[0]] else [];
      assert own == [] || head == [];
      assert WithKey(Insert(s, x, key), key, k) == own + (head + WithKey(s[1..], key, k));
    } else {
      assert Insert(s, x, key) == [x] + s;
      assert ([x] + s)[1..] == s;
    }
  }

  /** The sort orders by key, largest first, keeps every element, and is stable. */
  lemma {:induction false} SortDescCorrect<T>(s: seq<T>, key: T -> int)
    ensures SortedDesc(SortDesc(s, key), key)
    ensures multiset(SortDesc(s, key)) == multiset(s)
    ensures forall k :: WithKey(SortDesc(s, key), key, k) == WithKey(s, key, k)
  {
    if s != [] {
      SortDescCorrect(s[1..], key);
      InsertSorted(SortDesc(s[1..], key), s[0], key);
      forall k ensures WithKey(SortDesc(s, key), key, k) == WithKey(s, key, k) {
        InsertWithKey(SortDesc(s[1..], key), s[0], key, k);
      }
    }
  }

  // ---------------------------------------------------------------------
  // Subsequences

  /** `a` can be obtained from `b` by deleting elements (greedy left-to-right matching). */
  predicate IsSubseq<T(==)>(a: seq<T>, b: seq<T>)
    decreases |b|
  {
    if a == [] then true
    else if b == [] then false
    else if a[0] == b[0] then IsSubseq(a[1..], b[1..])
    else IsSubseq(a, b[1..])
  }

  lemma {:induction false} SubseqLength<T>(a: seq<T>, b: seq<T>)
    requires IsSubseq(a, b)
    ensures |a| <= |b|
    decreases |b|
  {
    if a != [] {
      if a[0] == b[0] { SubseqLength(a[1..], b[1..]); } else { SubseqLength(a, b[1..]); }
    }
  }

  lemma {:induction false} SubseqElements<T>(a: seq<T>, b: seq<T>)
    requires IsSubseq(a, b)
    ensures forall x :: x in a ==> x in b
    decreases |b|
  {
    if a != [] {
      assert a == [a[0]] + a[1..];
      if a[0] == b[0] { SubseqElements(a[1..], b[1..]); } else { SubseqElements(a, b[1..]); }
    }
  }

  lemma {:induction false} SubseqRefl<T>(a: seq<T>)
    ensures IsSubseq(a, a)
  {
    if a != [] { SubseqRefl(a[1..]); }
  }

  lemma {:induction false} SubseqDropFirst<T>(a: seq<T>, b: seq<T>)
    requires a != [] && IsSubseq(a, b)
    ensures IsSubseq(a[1..], b)
    decreases |b|, 0
  {
    if a[0] == b[0] {
      SubseqPrepend(a[1..], b[1..], b[0]);
      assert b == [b[0]] + b[1..];
    } else {
      SubseqDropFirst(a, b[1..]);
      SubseqPrepend(a[1..], b[1..], b[0]);
      assert b == [b[0]] + b[1..];
    }
  }

  lemma {:induction false} SubseqPrepend<T>(a: seq<T>, b: seq<T>, z: T)
    requires IsSubseq(a, b)
    ensures IsSubseq(a, [z] + b)
    decreases |b|, 1
  {
    assert ([z] + b)[1..] == b;
    if a != [] && a[0] == z {
      SubseqDropFirst(a, b);
    }
  }

  lemma {:induction false} SubseqTrans<T>(a: seq<T>, b: seq<T>, c: seq<T>)
    requires IsSubseq(a, b) && IsSubseq(b, c)
    ensures IsSubseq(a, c)
    decreases |c|
  {
    if a != [] {
      SubseqLength(b, c);
      if b[0] == c[0] {
        if a[0] == b[0] {
          SubseqTrans(a[1..], b[1..], c[1..]);
        } else {
          SubseqTrans(a, b[1..], c[1..]);
        }
      } else {
        SubseqTrans(a, b, c[1..]);
        if a[0] == c[0] {
          SubseqDropFirst(a, c[1..]);
        }
      }
    }
  }

  /** Appending the same element to both sides keeps a subsequence. */
  lemma {:induction false} SubseqAppendBoth<T>(a: seq<T>, b: seq<T>, x: T)
    requires IsSubseq(a, b)
    ensures IsSubseq(a + [x], b + [x])
    decreases |b|
  {
    if a == [] {
      assert a + [x] == [x];
      SubseqSingleton(b + [x], x);
    } else {
      assert (a + [x])[0] == a[0] && (a + [x])[1..] == a[1..] + [x];
      assert (b + [x])[0] == b[0] && (b + [x])[1..] == b[1..] + [x];
      if a[0] == b[0] {
        SubseqAppendBoth(a[1..], b[1..], x);
      } else {
        SubseqAppendBoth(a, b[1..], x);
      }
    }
  }

  /** Appending to the longer side keeps a subsequence. */
  lemma {:induction false} SubseqAppendRight<T>(a: seq<T>, b: seq<T>, x: T)
    requires IsSubseq(a, b)
    ensures IsSubseq(a, b + [x])
    decreases |b|
  {
    if a != [] {
      assert (b + [x])[0] == b[0] && (b + [x])[1..] == b[1..] + [x];
      if a[0] == b[0] {
        SubseqAppendRight(a[1..], b[1..], x);
      } else {
        SubseqAppendRight(a, b[1..], x);
      }
    }
  }

  lemma {:induction false} SubseqSingleton<T>(b: seq<T>, x: T)
    requires x in b
    ensures IsSubseq([x], b)
  {
    assert [x][1..] == [];
    if b[0] != x {
      SubseqSingleton(b[1..], x);
    }
  }

  lemma {:induction false} InsertKeepsOthers<T>(s: seq<T>, x: T, key: T -> int)
    ensures IsSubseq(s, Insert(s, x, key))
    ensures x in Insert(s, x, key)
  {
    if s == [] {
    } else if key(s[0]) > key(x) {
      InsertKeepsOthers(s[1..], x, key);
    } else {
      SubseqRefl(s);
      SubseqPrepend(s, s, x);
    }
  }

  lemma {:induction false} InsertMonotone<T>(p: seq<T>, q: seq<T>, y: T, key: T -> int)
    requires IsSubseq(p, q) && SortedDesc(q, key)
    ensures IsSubseq(Insert(p, y, key), Insert(q, y, key))
    decreases |q|
  {
    if q == [] {
    } else if key(q[0]) > key(y) {
      var iq := Insert(q, y, key);
      assert iq == [q[0]] + Insert(q[1..], y, key);
      assert iq[1..] == Insert(q[1..], y, key);
      if p == [] {
        InsertKeepsOthers(q, y, key);
        SubseqSingleton(iq, y);
      } else if p[0] == q[0] {
        InsertMonotone(p[1..], q[1..], y, key);
      } else {
        InsertMonotone(p, q[1..], y, key);
        SubseqPrepend(Insert(p, y, key), Insert(q[1..], y, key), q[0]);
      }
    } else {
      SubseqElements(p, q);
      if p != [] {
        assert p[0] in q;
        var j :| 0 <= j < |q| && q[j] == p[0];
        assert key(q[j]) <= key(q[0]);
      }
      assert ([y] + q)[1..] == q;
      assert p != [] ==> ([y] + p)[1..] == p;
    }
  }

  /** Sorting keeps a subsequence a subsequence: removing elements before the sort removes them after it. */
  lemma {:induction false} SortMonotone<T>(a: seq<T>, b: seq<T>, key: T -> int)
    requires IsSubseq(a, b)
    ensures IsSubseq(SortDesc(a, key), SortDesc(b, key))
    decreases |b|
  {
    if a == [] {
    } else if a[0] == b[0] {
      SortMonotone(a[1..], b[1..], key);
      SortDescCorrect(b[1..], key);
      InsertMonotone(SortDesc(a[1..], key), SortDesc(b[1..], key), b[0], key);
    } else {
      SortMonotone(a, b[1..], key);
      InsertKeepsOthers(SortDesc(b[1..], key), b[0], key);
      SubseqTrans(SortDesc(a, key), SortDesc(b[1..], key), SortDesc(b, key));
    }
  }
}
