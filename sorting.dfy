/**
 * Python's `sorted(xs, key=...)` for keys that are tuples of strings: a stable
 * sort in the order Python uses on tuples (element by element, a proper
 * prefix first). It serves the CSV writer, the directory cleanup and the
 * grouped summary table.
 */
module Sorting {
  import opened Text

  /** A sort key: a tuple of strings. */
  type Key = seq<string>

  /** Python's `a < b` on tuples of strings. */
  predicate KeyLt(a: Key, b: Key) {
    if |a| == 0 then |b| > 0
    else if |b| == 0 then false
    else if a[0] != b[0] then StrLt(a[0], b[0])
    else KeyLt(a[1..], b[1..])
  }

  lemma {:induction false} KeyLtIrreflexive(a: Key)
    ensures !KeyLt(a, a)
  {
    if |a| > 0 {
      KeyLtIrreflexive(a[1..]);
    }
  }

  lemma {:induction false} KeyLtTransitive(a: Key, b: Key, c: Key)
    requires KeyLt(a, b) && KeyLt(b, c)
    ensures KeyLt(a, c)
  {
    if |a| > 0 && |b| > 0 && |c| > 0 {
      if a[0] == b[0] && b[0] == c[0] {
        KeyLtTransitive(a[1..], b[1..], c[1..]);
      } else if a[0] != b[0] && b[0] != c[0] {
        StrLtTransitive(a[0], b[0], c[0]);
        if a[0] == c[0] {
          StrLtIrreflexive(a[0]);
          StrLtTransitive(a[0], b[0], a[0]);
        }
      }
    }
  }

  lemma {:induction false} KeyLtTotal(a: Key, b: Key)
    ensures a == b || KeyLt(a, b) || KeyLt(b, a)
  {
    if |a| > 0 && |b| > 0 {
      if a[0] == b[0] {
        KeyLtTotal(a[1..], b[1..]);
        if a[1..] == b[1..] {
          assert a == [a[0]] + a[1..] && b == [b[0]] + b[1..];
        }
      } else {
        StrLtTotal(a[0], b[0]);
      }
    }
  }

  lemma {:induction false} KeyLtAsymmetric(a: Key, b: Key)
    requires KeyLt(a, b)
    ensures !KeyLt(b, a)
  {
    if |a| > 0 && |b| > 0 {
      if a[0] == b[0] {
        KeyLtAsymmetric(a[1..], b[1..]);
      } else {
        StrLtAsymmetric(a[0], b[0]);
      }
    }
  }

  /** `a < b <= c` implies `a < c`. */
  lemma KeyLtLe(a: Key, b: Key, c: Key)
    requires KeyLt(a, b) && !KeyLt(c, b)
    ensures KeyLt(a, c)
  {
    KeyLtTotal(b, c);
    if b != c {
      KeyLtTransitive(a, b, c);
    }
  }

  /** Every element's key is at most the key of every later element. */
  ghost predicate SortedBy<T>(s: seq<T>, key: T -> Key) {
    forall i, j :: 0 <= i < j < |s| ==> !KeyLt(key(s[j]), key(s[i]))
  }

  /** Inserts `x` after every element whose key is not greater than its own. */
  function Insert<T>(x: T, s: seq<T>, key: T -> Key): (r: seq<T>)
    ensures |r| == |s| + 1
    ensures multiset(r) == multiset(s) + multiset{x}
  {
    if s == [] then [x]
    else if KeyLt(key(x), key(s[0])) then [x] + s
    else
      var t := Insert(x, s[1..], key);
      assert s == [s[0]] + s[1..];
      [s[0]] + t
  }

  lemma {:induction false} InsertSorted<T>(x: T, s: seq<T>, key: T -> Key)
    requires SortedBy(s, key)
    ensures SortedBy(Insert(x, s, key), key)
  {
    if s == [] {
    } else if KeyLt(key(x), key(s[0])) {
      InsertFrontSorted(x, s, key);
    } else {
      InsertSorted(x, s[1..], key);
      InsertInnerSorted(x, s, key);
    }
  }

  /** `x` below the first element goes in front. */
  lemma InsertFrontSorted<T>(x: T, s: seq<T>, key: T -> Key)
    requires SortedBy(s, key) && s != [] && KeyLt(key(x), key(s[0]))
    ensures SortedBy([x] + s, key)
  {
    var r := [x] + s;
    forall j | 1 <= j < |r| ensures !KeyLt(key(r[j]), key(x)) {
      assert r[j] == s[j - 1];
      if j == 1 {
        KeyLtAsymmetric(key(x), key(s[0]));
      } else {
        assert !KeyLt(key(s[j - 1]), key(s[0]));
        KeyLtLe(key(x), key(s[0]), key(s[j - 1]));
        KeyLtAsymmetric(key(x), key(s[j - 1]));
      }
    }
    forall i, j | 0 <= i < j < |r| ensures !KeyLt(key(r[j]), key(r[i])) {
      if i > 0 {
        assert r[i] == s[i - 1] && r[j] == s[j - 1];
      }
    }
  }

  /** `x` not below the first element goes into the rest, after it. */
  lemma InsertInnerSorted<T>(x: T, s: seq<T>, key: T -> Key)
    requires SortedBy(s, key) && s != [] && !KeyLt(key(x), key(s[0]))
    requires SortedBy(Insert(x, s[1..], key), key)
    ensures SortedBy(Insert(x, s, key), key)
  {
    var t := Insert(x, s[1..], key);
    var r := [s[0]] + t;
    assert Insert(x, s, key) == r;
    forall j | 0 <= j < |t| ensures !KeyLt(key(t[j]), key(s[0])) {
      InsertedNotBelow(x, s, key, j);
    }
    forall i, j | 0 <= i < j < |r| ensures !KeyLt(key(r[j]), key(r[i])) {
      if i > 0 {
        assert r[i] == t[i - 1] && r[j] == t[j - 1];
      } else {
        assert r[j] == t[j - 1];
      }
    }
  }

  /** Each element of the insertion into the rest is `x` or an element of the rest, so not below the first. */
  lemma InsertedNotBelow<T>(x: T, s: seq<T>, key: T -> Key, j: nat)
    requires SortedBy(s, key) && s != [] && !KeyLt(key(x), key(s[0]))
    requires j < |Insert(x, s[1..], key)|
    ensures !KeyLt(key(Insert(x, s[1..], key)[j]), key(s[0]))
  {
    var y := Insert(x, s[1..], key)[j];
    InsertMember(x, s[1..], key, j);
    if y != x {
      var k :| 0 <= k < |s[1..]| && s[1..][k] == y;
      assert s[k + 1] == y;
    }
  }

  lemma InsertMember<T>(x: T, s: seq<T>, key: T -> Key, j: nat)
    requires j < |Insert(x, s, key)|
    ensures Insert(x, s, key)[j] == x || Insert(x, s, key)[j] in s
  {
    var t := Insert(x, s, key);
    assert t[j] in multiset(t);
  }

  /** Python's stable `sorted(s, key=key)`. */
  function SortBy<T>(s: seq<T>, key: T -> Key): (r: seq<T>)
    ensures multiset(r) == multiset(s)
    ensures |r| == |s|
    ensures SortedBy(r, key)
  {
    if s == [] then []
    else
      var prefix := SortBy(s[..|s| - 1], key);
      InsertSorted(s[|s| - 1], prefix, key);
      MultisetSnoc(s);
      Insert(s[|s| - 1], prefix, key)
  }

  /** The elements of `s` whose key is `k`, in order. */
  function WithKey<T>(s: seq<T>, k: Key, key: T -> Key): seq<T> {
    if s == [] then [] else (if key(s[0]) == k then [s[0]] else []) + WithKey(s[1..], k, key)
  }

  lemma {:induction false} WithKeyAppend<T>(a: seq<T>, b: seq<T>, k: Key, key: T -> Key)
    ensures WithKey(a + b, k, key) == WithKey(a, k, key) + WithKey(b, k, key)
  {
    if a == [] {
      assert a + b == b;
      assert WithKey(a, k, key) == [];
    } else {
      var h := if key(a[0]) == k then [a[0]] else [];
      var ab := a + b;
      assert ab[0] == a[0] && ab[1..] == a[1..] + b;
      assert WithKey(ab, k, key) == h + WithKey(a[1..] + b, k, key);
      WithKeyAppend(a[1..], b, k, key);
      assert WithKey(a, k, key) == h + WithKey(a[1..], k, key);
    }
  }

  lemma {:induction false} WithKeyNone<T>(s: seq<T>, k: Key, key: T -> Key)
    requires forall i :: 0 <= i < |s| ==> key(s[i]) != k
    ensures WithKey(s, k, key) == []
  {
    if s != [] {
      WithKeyNone(s[1..], k, key);
    }
  }

  lemma {:induction false} WithKeyInsert<T>(x: T, s: seq<T>, k: Key, key: T -> Key)
    requires SortedBy(s, key)
    ensures WithKey(Insert(x, s, key), k, key) == WithKey(s, k, key) + (if key(x) == k then [x] else [])
  {
    if s == [] {
    } else if KeyLt(key(x), key(s[0])) {
      WithKeyInsertFront(x, s, k, key);
    } else {
      WithKeyInsert(x, s[1..], k, key);
      WithKeyInsertInner(x, s, k, key);
    }
  }

  /** In front of a sorted sequence, `x` has a smaller key than every element, so none shares its key. */
  lemma WithKeyInsertFront<T>(x: T, s: seq<T>, k: Key, key: T -> Key)
    requires SortedBy(s, key) && s != [] && KeyLt(key(x), key(s[0]))
    ensures WithKey([x] + s, k, key) == WithKey(s, k, key) + (if key(x) == k then [x] else [])
  {
    if key(x) == k {
      forall i | 0 <= i < |s| ensures key(s[i]) != k {
        KeyLtIrreflexive(k);
        if i > 0 {
          KeyLtLe(key(x), key(s[0]), key(s[i]));
        }
      }
      WithKeyNone(s, k, key);
    }
    assert ([x] + s)[0] == x && ([x] + s)[1..] == s;
  }

  lemma WithKeyInsertInner<T>(x: T, s: seq<T>, k: Key, key: T -> Key)
    requires s != [] && !KeyLt(key(x), key(s[0]))
    requires WithKey(Insert(x, s[1..], key), k, key) == WithKey(s[1..], k, key) + (if key(x) == k then [x] else [])
    ensures WithKey(Insert(x, s, key), k, key) == WithKey(s, k, key) + (if key(x) == k then [x] else [])
  {
    var t := Insert(x, s[1..], key);
    var h := if key(s[0]) == k then [s[0]] else [];
    assert Insert(x, s, key) == [s[0]] + t;
    assert ([s[0]] + t)[0] == s[0] && ([s[0]] + t)[1..] == t;
    AppendAssoc(h, WithKey(s[1..], k, key), if key(x) == k then [x] else []);
  }

  /** Stability: among elements with equal keys, the sort keeps their input order. */
  lemma {:induction false} SortStable<T>(s: seq<T>, k: Key, key: T -> Key)
    ensures WithKey(SortBy(s, key), k, key) == WithKey(s, k, key)
  {
    if s != [] {
      var init, last := s[..|s| - 1], s[|s| - 1];
      var tail := if key(last) == k then [last] else [];
      calc {
        WithKey(SortBy(s, key), k, key);
      ==
        WithKey(Insert(last, SortBy(init, key), key), k, key);
      == { WithKeyInsert(last, SortBy(init, key), k, key); }
        WithKey(SortBy(init, key), k, key) + tail;
      == { SortStable(init, k, key); }
        WithKey(init, k, key) + tail;
      == { WithKeyAppend(init, [last], k, key); assert [last][1..] == []; }
        WithKey(init + [last], k, key);
      == { assert s == init + [last]; }
        WithKey(s, k, key);
      }
    }
  }

  /** A sequence whose elements occur once: its multiset counts are at most one. */
  lemma {:induction false} DistinctCount<T>(t: seq<T>, x: T)
    requires forall i, j :: 0 <= i < j < |t| ==> t[i] != t[j]
    ensures multiset(t)[x] <= 1
  {
    if t != [] {
      DistinctCount(t[1..], x);
      assert t == [t[0]] + t[1..];
      if t[0] == x {
        assert x !in t[1..];
      }
    }
  }

  /** A permutation of a sequence without repetitions has none either. */
  lemma PermutationDistinct<T>(s: seq<T>, t: seq<T>)
    requires multiset(s) == multiset(t)
    requires forall i, j :: 0 <= i < j < |t| ==> t[i] != t[j]
    ensures forall i, j :: 0 <= i < j < |s| ==> s[i] != s[j]
  {
    forall i, j | 0 <= i < j < |s| ensures s[i] != s[j] {
      if s[i] == s[j] {
        assert s == s[..i] + [s[i]] + s[i + 1..j] + [s[j]] + s[j + 1..];
        assert multiset(s)[s[i]] >= 2;
        DistinctCount(t, s[i]);
        assert false;
      }
    }
  }

  /** A sorted sequence whose keys are distinct is strictly increasing by key. */
  lemma SortedDistinctIncreasing<T>(s: seq<T>, key: T -> Key)
    requires SortedBy(s, key)
    requires forall i, j :: 0 <= i < j < |s| ==> key(s[i]) != key(s[j])
    ensures forall i, j :: 0 <= i < j < |s| ==> KeyLt(key(s[i]), key(s[j]))
  {
    forall i, j | 0 <= i < j < |s| ensures KeyLt(key(s[i]), key(s[j])) {
      KeyLtTotal(key(s[i]), key(s[j]));
    }
  }

  lemma MultisetSnoc<T>(s: seq<T>)
    requires s != []
    ensures multiset(s) == multiset(s[..|s| - 1]) + multiset{s[|s| - 1]}
  {
    assert s == s[..|s| - 1] + [s[|s| - 1]];
  }
}
