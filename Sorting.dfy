/**
 * Python's `sorted(xs, key=...)` / `list.sort(key=...)` for the sort keys the
 * adapter uses: tuples of integers and strings, compared lexicographically,
 * strings by code point. Python's sort is stable; so is `SortBy`.
 */
module Sorting {

  /** One component of a sort-key tuple. */
  datatype KeyPart = Num(n: int) | Txt(s: string)

  /** A sort-key tuple such as `(norm(name), id)`. */
  type Key = seq<KeyPart>

  /** Python's `<` on strings: lexicographic by code point. */
  predicate StrLt(a: string, b: string)
  {
    if |a| == 0 then |b| > 0
    else if |b| == 0 then false
    else if a[0] != b[0] then a[0] < b[0]
    else StrLt(a[1..], b[1..])
  }

  /**
   * `<` on one tuple component. Python never compares an int with a str in
   * the keys used here; the mixed case is ordered arbitrarily.
   */
  predicate PartLt(a: KeyPart, b: KeyPart)
  {
    match (a, b)
    case (Num(x), Num(y)) => x < y
    case (Txt(x), Txt(y)) => StrLt(x, y)
    case (Num(_), Txt(_)) => true
    case (Txt(_), Num(_)) => false
  }

  /** Python's `<` on tuples. */
  predicate KeyLt(a: Key, b: Key)
  {
    if |a| == 0 then |b| > 0
    else if |b| == 0 then false
    else if a[0] != b[0] then PartLt(a[0], b[0])
    else KeyLt(a[1..], b[1..])
  }

  predicate KeyLe(a: Key, b: Key) { a == b || KeyLt(a, b) }

  // ---- the order is a strict total order ----

  lemma {:induction false} StrLtIrreflexive(a: string)
    ensures !StrLt(a, a)
  {
    if |a| > 0 { StrLtIrreflexive(a[1..]); }
  }

  lemma {:induction false} StrLtTotal(a: string, b: string)
    ensures a == b || StrLt(a, b) || StrLt(b, a)
  {
    if |a| > 0 && |b| > 0 && a[0] == b[0] {
      StrLtTotal(a[1..], b[1..]);
      if a[1..] == b[1..] {
        assert a == [a[0]] + a[1..] && b == [b[0]] + b[1..];
      }
    }
  }

  lemma {:induction false} StrLtTrans(a: string, b: string, c: string)
    requires StrLt(a, b) && StrLt(b, c)
    ensures StrLt(a, c)
  {
    if |a| > 0 && |b| > 0 && |c| > 0 && a[0] == b[0] && b[0] == c[0] {
      StrLtTrans(a[1..], b[1..], c[1..]);
    }
  }

  lemma StrLtAsym(a: string, b: string)
    requires StrLt(a, b)
    ensures !StrLt(b, a)
  {
    if StrLt(b, a) {
      StrLtTrans(a, b, a);
      StrLtIrreflexive(a);
    }
  }

  lemma PartLtTotal(a: KeyPart, b: KeyPart)
    ensures a == b || PartLt(a, b) || PartLt(b, a)
  {
    if a.Txt? && b.Txt? { StrLtTotal(a.s, b.s); }
  }

  lemma PartLtIrreflexive(a: KeyPart)
    ensures !PartLt(a, a)
  {
    if a.Txt? { StrLtIrreflexive(a.s); }
  }

  lemma PartLtTrans(a: KeyPart, b: KeyPart, c: KeyPart)
    requires PartLt(a, b) && PartLt(b, c)
    ensures PartLt(a, c)
  {
    if a.Txt? && b.Txt? && c.Txt? { StrLtTrans(a.s, b.s, c.s); }
  }

  lemma {:induction false} KeyLtIrreflexive(a: Key)
    ensures !KeyLt(a, a)
  {
    if |a| > 0 { KeyLtIrreflexive(a[1..]); }
  }

  lemma {:induction false} KeyLtTotal(a: Key, b: Key)
    ensures a == b || KeyLt(a, b) || KeyLt(b, a)
  {
    if |a| > 0 && |b| > 0 {
      if a[0] == b[0] {
        KeyLtTotal(a[1..], b[1..]);
        if a[1..] == b[1..] {
          assert a == [a[0]] + a[1..] && b == [b[0]] + b[1..];
        }
      } else {
        PartLtTotal(a[0], b[0]);
      }
    }
  }

  lemma {:induction false} KeyLtTrans(a: Key, b: Key, c: Key)
    requires KeyLt(a, b) && KeyLt(b, c)
    ensures KeyLt(a, c)
  {
    if |a| > 0 && |b| > 0 && |c| > 0 {
      if a[0] == b[0] && b[0] == c[0] {
        KeyLtTrans(a[1..], b[1..], c[1..]);
      } else if a[0] != b[0] && b[0] != c[0] {
        PartLtTrans(a[0], b[0], c[0]);
        if a[0] == c[0] {
          PartLtTrans(c[0], b[0], c[0]);
          PartLtIrreflexive(c[0]);
        }
      }
    }
  }

  lemma KeyLeTrans(a: Key, b: Key, c: Key)
    requires KeyLe(a, b) && KeyLe(b, c)
    ensures KeyLe(a, c)
  {
    if KeyLt(a, b) && KeyLt(b, c) { KeyLtTrans(a, b, c); }
  }

  /** Not `x <= y` means `y < x`, and then the two keys differ. */
  lemma KeyNotLe(a: Key, b: Key)
    requires !KeyLe(a, b)
    ensures KeyLt(b, a) && a != b
  {
    KeyLtTotal(a, b);
  }

  // ---- stable insertion sort ----

  ghost predicate SortedBy<T>(s: seq<T>, key: T -> Key)
  {
    forall i, j :: 0 <= i < j < |s| ==> KeyLe(key(s[i]), key(s[j]))
  }

  /** Inserts `x` before the first element whose key is not smaller. */
  function Insert<T>(x: T, s: seq<T>, key: T -> Key): seq<T>
  {
    if s == [] then [x]
    else if KeyLe(key(x), key(s[0])) then [x] + s
    else [s[0]] + Insert(x, s[1..], key)
  }

  /** `sorted(s, key=key)`. */
  function SortBy<T>(s: seq<T>, key: T -> Key): seq<T>
  {
    if s == [] then [] else Insert(s[0], SortBy(s[1..], key), key)
  }

  /** The elements of `s` whose key is `k`, in order. */
  function WithKey<T>(s: seq<T>, key: T -> Key, k: Key): seq<T>
  {
    if s == [] then []
    else (if key(s[0]) == k then [s[0]] else []) + WithKey(s[1..], key, k)
  }

  lemma {:induction false} InsertMultiset<T>(x: T, s: seq<T>, key: T -> Key)
    ensures multiset(Insert(x, s, key)) == multiset(s) + multiset{x}
  {
    if s != [] && !KeyLe(key(x), key(s[0])) {
      InsertMultiset(x, s[1..], key);
      assert s == [s[0]] + s[1..];
    }
  }

  /** The inserted list holds `x` and the elements of `s`, and nothing else. */
  lemma InsertMembers<T>(x: T, s: seq<T>, key: T -> Key)
    ensures forall y :: y in Insert(x, s, key) <==> y == x || y in s
  {
    InsertMultiset(x, s, key);
    assert forall y :: y in Insert(x, s, key) <==> y in multiset(Insert(x, s, key));
  }

  /** A bound below `x` and every element of `s` stays below every element after the insertion. */
  lemma InsertAbove<T>(x: T, s: seq<T>, key: T -> Key, b: Key)
    requires KeyLt(b, key(x))
    requires forall i :: 0 <= i < |s| ==> KeyLt(b, key(s[i]))
    ensures forall i :: 0 <= i < |Insert(x, s, key)| ==> KeyLt(b, key(Insert(x, s, key)[i]))
  {
    InsertMembers(x, s, key);
    var t := Insert(x, s, key);
    forall i | 0 <= i < |t|
      ensures KeyLt(b, key(t[i]))
    {
      assert t[i] in t;
    }
  }

  lemma {:induction false} InsertSorted<T>(x: T, s: seq<T>, key: T -> Key)
    requires SortedBy(s, key)
    ensures SortedBy(Insert(x, s, key), key)
  {
    if s == [] {
    } else if KeyLe(key(x), key(s[0])) {
      forall j | 0 <= j < |s|
        ensures KeyLe(key(x), key(s[j]))
      {
        if j > 0 { KeyLeTrans(key(x), key(s[0]), key(s[j])); }
      }
    } else {
      KeyNotLe(key(x), key(s[0]));
      InsertSorted(x, s[1..], key);
      var t := Insert(x, s[1..], key);
      InsertMultiset(x, s[1..], key);
      forall j | 0 <= j < |t|
        ensures KeyLe(key(s[0]), key(t[j]))
      {
        assert t[j] in multiset(t);
        if t[j] != x {
          assert t[j] in multiset(s[1..]);
          var m :| 0 <= m < |s[1..]| && s[1..][m] == t[j];
          assert s[m + 1] == t[j];
        }
      }
    }
  }

  /** The sorted result is ordered by key ... */
  lemma {:induction false} SortBySorted<T>(s: seq<T>, key: T -> Key)
    ensures SortedBy(SortBy(s, key), key)
  {
    if s != [] {
      SortBySorted(s[1..], key);
      InsertSorted(s[0], SortBy(s[1..], key), key);
    }
  }

  /** ... is a permutation of the input ... */
  lemma {:induction false} SortByPermutes<T>(s: seq<T>, key: T -> Key)
    ensures multiset(SortBy(s, key)) == multiset(s)
  {
    if s != [] {
      SortByPermutes(s[1..], key);
      InsertMultiset(s[0], SortBy(s[1..], key), key);
      assert s == [s[0]] + s[1..];
    }
  }

  lemma {:induction false} InsertWithKey<T>(x: T, s: seq<T>, key: T -> Key, k: Key)
    ensures WithKey(Insert(x, s, key), key, k)
      == (if key(x) == k then [x] else []) + WithKey(s, key, k)
  {
    if s == [] {
    } else if KeyLe(key(x), key(s[0])) {
      assert ([x] + s)[1..] == s;
    } else {
      InsertWithKey(x, s[1..], key, k);
      assert ([s[0]] + Insert(x, s[1..], key))[1..] == Insert(x, s[1..], key);
    }
  }

  /** ... and stable: elements with equal keys keep their relative order. */
  lemma {:induction false} SortByStable<T>(s: seq<T>, key: T -> Key, k: Key)
    ensures WithKey(SortBy(s, key), key, k) == WithKey(s, key, k)
  {
    if s != [] {
      SortByStable(s[1..], key, k);
      InsertWithKey(s[0], SortBy(s[1..], key), key, k);
    }
  }

  lemma {:induction false} WithKeyAll<T>(s: seq<T>, key: T -> Key, k: Key)
    requires forall i :: 0 <= i < |s| ==> key(s[i]) == k
    ensures WithKey(s, key, k) == s
  {
    if s != [] { WithKeyAll(s[1..], key, k); }
  }

  /** When every key is the same, sorting leaves the list as it is. */
  lemma SortByConstantKey<T>(s: seq<T>, key: T -> Key, k: Key)
    requires forall i :: 0 <= i < |s| ==> key(s[i]) == k
    ensures SortBy(s, key) == s
  {
    var r := SortBy(s, key);
    SortByPermutes(s, key);
    forall i | 0 <= i < |r| ensures key(r[i]) == k
    {
      assert r[i] in multiset(s);
    }
    SortByStable(s, key, k);
    WithKeyAll(s, key, k);
    WithKeyAll(r, key, k);
  }

  lemma SortBySingleton<T>(x: T, key: T -> Key)
    ensures SortBy([x], key) == [x]
  {
    assert [x][1..] == [];
  }

  /** Two elements out of order by key are swapped. */
  lemma SortPairSwaps<T>(x: T, y: T, key: T -> Key)
    requires !KeyLe(key(x), key(y))
    ensures SortBy([x, y], key) == [y, x]
  {
    assert [x, y][1..] == [y] && [y][1..] == [];
    SortBySingleton(y, key);
    assert SortBy([x, y], key) == Insert(x, [y], key);
    assert Insert(x, [y], key) == [y] + Insert(x, [], key);
    assert [y] + [x] == [y, x];
  }
}
