/** The order in which the dashboard sorts week labels and provider names,
    and a stable insertion sort by it: `Array.prototype.sort`, which is
    stable, with the comparator reduced to a sort key per label. */
module StableSort {
  import opened Strings
  import opened JsSet

  /** The sort key of a label: dated labels compare by (year group, month,
      day), undated labels by their text in code-point order, and a
      dated label comes before an undated one. */
  datatype SortKey = Dated(group: int, month: int, day: int) | Undated(text: string)

  predicate KeyLe(a: SortKey, b: SortKey) {
    match a
    case Dated(g1, m1, d1) =>
      (match b
       case Dated(g2, m2, d2) => g1 < g2 || (g1 == g2 && (m1 < m2 || (m1 == m2 && d1 <= d2)))
       case Undated(_) => true)
    case Undated(x) =>
      (match b
       case Dated(_, _, _) => false
       case Undated(y) => LexLe(x, y))
  }

  predicate KeyLt(a: SortKey, b: SortKey) {
    !KeyLe(b, a)
  }

  lemma KeyLeTotal(a: SortKey, b: SortKey)
    ensures KeyLe(a, b) || KeyLe(b, a)
  {
    if a.Undated? && b.Undated? {
      LexLeTotal(a.text, b.text);
    }
  }

  lemma KeyLeTransitive(a: SortKey, b: SortKey, c: SortKey)
    requires KeyLe(a, b) && KeyLe(b, c)
    ensures KeyLe(a, c)
  {
    if a.Undated? && b.Undated? && c.Undated? {
      LexLeTransitive(a.text, b.text, c.text);
    }
  }

  lemma KeyLeAntisymmetric(a: SortKey, b: SortKey)
    requires KeyLe(a, b) && KeyLe(b, a)
    ensures a == b
  {
    if a.Undated? && b.Undated? {
      LexLeAntisymmetric(a.text, b.text);
    }
  }

  predicate SortedBy(s: seq<string>, key: string -> SortKey) {
    forall i, j :: 0 <= i < j < |s| ==> KeyLe(key(s[i]), key(s[j]))
  }

  /** The labels of `s` whose key is `k`, in their order in `s`. */
  function WithKey(s: seq<string>, key: string -> SortKey, k: SortKey): seq<string> {
    if s == [] then []
    else (if key(s[0]) == k then [s[0]] else []) + WithKey(s[1..], key, k)
  }

  /** Inserts `x` after every element whose key is not greater than its own. */
  function Insert(r: seq<string>, x: string, key: string -> SortKey): (res: seq<string>)
    ensures |res| == |r| + 1
  {
    if r == [] then [x]
    else if KeyLt(key(x), key(r[0])) then [x] + r
    else
      assert r == [r[0]] + r[1..];
      [r[0]] + Insert(r[1..], x, key)
  }

  /** Inserting adds `x` and keeps every other element. */
  lemma {:induction false} InsertPermutation(r: seq<string>, x: string, key: string -> SortKey)
    ensures multiset(Insert(r, x, key)) == multiset(r) + multiset{x}
    decreases |r|
  {
    if r != [] {
      assert r == [r[0]] + r[1..];
      if !KeyLt(key(x), key(r[0])) {
        InsertPermutation(r[1..], x, key);
      }
    }
  }

  /** The stable sort of `s` by `key`: a permutation of `s`, in key order. */
  function SortBy(s: seq<string>, key: string -> SortKey): (r: seq<string>)
    ensures |r| == |s|
    ensures multiset(r) == multiset(s)
    ensures SortedBy(r, key)
  {
    if s == [] then []
    else
      var init := SortBy(s[..|s| - 1], key);
      assert s == s[..|s| - 1] + [s[|s| - 1]];
      InsertSorted(init, s[|s| - 1], key);
      InsertPermutation(init, s[|s| - 1], key);
      Insert(init, s[|s| - 1], key)
  }

  /** A label whose key is not below any key of `r` goes at the end. */
  lemma {:induction false} InsertLast(r: seq<string>, x: string, key: string -> SortKey)
    requires forall i :: 0 <= i < |r| ==> KeyLe(key(r[i]), key(x))
    ensures Insert(r, x, key) == r + [x]
    decreases |r|
  {
    if r != [] {
      InsertLast(r[1..], x, key);
      assert r == [r[0]] + r[1..];
    }
  }

  /** Sorting a sequence already in key order leaves it as it is. */
  lemma {:induction false} SortBySorted(s: seq<string>, key: string -> SortKey)
    requires SortedBy(s, key)
    ensures SortBy(s, key) == s
    decreases |s|
  {
    if s != [] {
      var init, x := s[..|s| - 1], s[|s| - 1];
      assert SortedBy(init, key) by {
        forall i, j | 0 <= i < j < |init|
          ensures KeyLe(key(init[i]), key(init[j]))
        {
          assert init[i] == s[i] && init[j] == s[j];
        }
      }
      SortBySorted(init, key);
      forall i | 0 <= i < |init|
        ensures KeyLe(key(init[i]), key(x))
      {
        assert init[i] == s[i];
      }
      InsertLast(init, x, key);
      assert s == init + [x];
    }
  }

  lemma {:induction false} InsertSorted(r: seq<string>, x: string, key: string -> SortKey)
    requires SortedBy(r, key)
    ensures SortedBy(Insert(r, x, key), key)
    decreases |r|
  {
    if r == [] {
    } else if KeyLt(key(x), key(r[0])) {
      KeyLeTotal(key(x), key(r[0]));
      forall j | 0 <= j < |r|
        ensures KeyLe(key(x), key(r[j]))
      {
        if j > 0 {
          KeyLeTransitive(key(x), key(r[0]), key(r[j]));
        }
      }
    } else {
      InsertSorted(r[1..], x, key);
      HeadBelowInsert(r, x, key);
      ConsSorted(r[0], Insert(r[1..], x, key), key);
    }
  }

  /** The first element stays below everything inserted after it. */
  lemma HeadBelowInsert(r: seq<string>, x: string, key: string -> SortKey)
    requires SortedBy(r, key) && r != [] && !KeyLt(key(x), key(r[0]))
    ensures forall j :: 0 <= j < |Insert(r[1..], x, key)| ==> KeyLe(key(r[0]), key(Insert(r[1..], x, key)[j]))
  {
    var rest := Insert(r[1..], x, key);
    InsertPermutation(r[1..], x, key);
    forall j | 0 <= j < |rest|
      ensures KeyLe(key(r[0]), key(rest[j]))
    {
      assert rest[j] in multiset(rest);
      if rest[j] != x {
        assert rest[j] in multiset(r[1..]);
        var k :| 0 <= k < |r[1..]| && r[1..][k] == rest[j];
        assert r[k + 1] == rest[j];
      }
    }
  }

  /** A sorted sequence stays sorted with an element below all of it in front. */
  lemma ConsSorted(h: string, rest: seq<string>, key: string -> SortKey)
    requires SortedBy(rest, key)
    requires forall j :: 0 <= j < |rest| ==> KeyLe(key(h), key(rest[j]))
    ensures SortedBy([h] + rest, key)
  {
    var res := [h] + rest;
    forall i, j | 0 <= i < j < |res|
      ensures KeyLe(key(res[i]), key(res[j]))
    {
      if i == 0 {
        assert res[j] == rest[j - 1];
      } else {
        assert res[i] == rest[i - 1] && res[j] == rest[j - 1];
      }
    }
  }

  lemma {:induction false} WithKeyAppend(a: seq<string>, b: seq<string>, key: string -> SortKey, k: SortKey)
    ensures WithKey(a + b, key, k) == WithKey(a, key, k) + WithKey(b, key, k)
    decreases |a|
  {
    if a == [] {
      assert a + b == b;
    } else {
      assert (a + b)[0] == a[0];
      assert (a + b)[1..] == a[1..] + b;
      WithKeyAppend(a[1..], b, key, k);
    }
  }

  /** A sorted sequence holds no label of a key smaller than its first key. */
  lemma {:induction false} WithSmallerKeyEmpty(r: seq<string>, key: string -> SortKey, k: SortKey)
    requires SortedBy(r, key)
    requires r != [] ==> KeyLt(k, key(r[0]))
    ensures WithKey(r, key, k) == []
    decreases |r|
  {
    if r != [] {
      if key(r[0]) == k {
        KeyLeTotal(k, k);
      }
      if |r| > 1 {
        assert KeyLe(key(r[0]), key(r[1]));
        if KeyLe(key(r[1]), k) {
          KeyLeTransitive(key(r[0]), key(r[1]), k);
        }
      }
      WithSmallerKeyEmpty(r[1..], key, k);
    }
  }

  /** Inserting keeps the labels of every key in the order they arrived. */
  lemma {:induction false} InsertStable(r: seq<string>, x: string, key: string -> SortKey, k: SortKey)
    requires SortedBy(r, key)
    ensures WithKey(Insert(r, x, key), key, k)
         == WithKey(r, key, k) + (if key(x) == k then [x] else [])
    decreases |r|
  {
    if r == [] {
    } else if KeyLt(key(x), key(r[0])) {
      InsertFrontStable(r, x, key, k);
    } else {
      SortedTail(r, key);
      InsertStable(r[1..], x, key, k);
      InsertAfterStable(r, x, key, k);
    }
  }

  lemma SortedTail(r: seq<string>, key: string -> SortKey)
    requires SortedBy(r, key) && r != []
    ensures SortedBy(r[1..], key)
  {
    forall i, j | 0 <= i < j < |r[1..]|
      ensures KeyLe(key(r[1..][i]), key(r[1..][j]))
    {
      assert r[1..][i] == r[i + 1] && r[1..][j] == r[j + 1];
    }
  }

  lemma InsertFrontStable(r: seq<string>, x: string, key: string -> SortKey, k: SortKey)
    requires SortedBy(r, key) && r != [] && KeyLt(key(x), key(r[0]))
    ensures WithKey(Insert(r, x, key), key, k)
         == WithKey(r, key, k) + (if key(x) == k then [x] else [])
  {
    assert Insert(r, x, key) == [x] + r;
    WithKeyAppend([x], r, key, k);
    assert [x][1..] == [];
    assert WithKey([x], key, k) == (if key(x) == k then [x] else []) + WithKey([], key, k);
    if key(x) == k {
      WithSmallerKeyEmpty(r, key, k);
    }
  }

  lemma InsertAfterStable(r: seq<string>, x: string, key: string -> SortKey, k: SortKey)
    requires r != [] && !KeyLt(key(x), key(r[0]))
    requires WithKey(Insert(r[1..], x, key), key, k)
         == WithKey(r[1..], key, k) + (if key(x) == k then [x] else [])
    ensures WithKey(Insert(r, x, key), key, k)
         == WithKey(r, key, k) + (if key(x) == k then [x] else [])
  {
    var rest := Insert(r[1..], x, key);
    var head := if key(r[0]) == k then [r[0]] else [];
    var tail := if key(x) == k then [x] else [];
    assert Insert(r, x, key) == [r[0]] + rest;
    WithKeyCons(r[0], rest, key, k);
    WithKeyCons(r[0], r[1..], key, k);
    assert [r[0]] + r[1..] == r;
    assert head + (WithKey(r[1..], key, k) + tail) == (head + WithKey(r[1..], key, k)) + tail;
  }

  lemma WithKeyCons(a: string, b: seq<string>, key: string -> SortKey, k: SortKey)
    ensures WithKey([a] + b, key, k) == (if key(a) == k then [a] else []) + WithKey(b, key, k)
  {
    assert ([a] + b)[1..] == b;
  }

  /** Stability: labels with equal keys keep their relative input order. */
  lemma {:induction false} SortByStable(s: seq<string>, key: string -> SortKey, k: SortKey)
    ensures WithKey(SortBy(s, key), key, k) == WithKey(s, key, k)
    decreases |s|
  {
    if s != [] {
      var init, last := s[..|s| - 1], s[|s| - 1];
      SortByLast(s, key);
      SortByStable(init, key, k);
      InsertStable(SortBy(init, key), last, key, k);
      WithKeyLast(s, key, k);
    }
  }

  /** The sort inserts the last label into the sorted rest. */
  lemma SortByLast(s: seq<string>, key: string -> SortKey)
    requires s != []
    ensures SortBy(s, key) == Insert(SortBy(s[..|s| - 1], key), s[|s| - 1], key)
  {
  }

  lemma WithKeyLast(s: seq<string>, key: string -> SortKey, k: SortKey)
    requires s != []
    ensures WithKey(s, key, k) == WithKey(s[..|s| - 1], key, k) + if key(s[|s| - 1]) == k then [s[|s| - 1]] else []
  {
    var init, last := s[..|s| - 1], s[|s| - 1];
    assert s == init + [last];
    assert [last][1..] == [];
    assert WithKey([last], key, k) == if key(last) == k then [last] else [];
    WithKeyAppend(init, [last], key, k);
  }

  lemma {:induction false} InsertAgree(r: seq<string>, x: string, k1: string -> SortKey, k2: string -> SortKey)
    requires forall i :: 0 <= i < |r| ==> k1(r[i]) == k2(r[i])
    requires k1(x) == k2(x)
    ensures Insert(r, x, k1) == Insert(r, x, k2)
    decreases |r|
  {
    if r != [] {
      InsertAgree(r[1..], x, k1, k2);
    }
  }

  /** The sort depends only on the keys of the labels being sorted. */
  lemma {:induction false} SortByAgree(s: seq<string>, k1: string -> SortKey, k2: string -> SortKey)
    requires forall i :: 0 <= i < |s| ==> k1(s[i]) == k2(s[i])
    ensures SortBy(s, k1) == SortBy(s, k2)
    decreases |s|
  {
    if s != [] {
      var init := s[..|s| - 1];
      SortByAgree(init, k1, k2);
      var r := SortBy(init, k1);
      forall i | 0 <= i < |r|
        ensures k1(r[i]) == k2(r[i])
      {
        assert r[i] in multiset(init);
      }
      InsertAgree(r, s[|s| - 1], k1, k2);
    }
  }

  /** Two keys that order the labels of `s` alike. */
  predicate SameOrder(s: seq<string>, k1: string -> SortKey, k2: string -> SortKey) {
    forall a, b :: a in s && b in s ==> (KeyLe(k1(a), k1(b)) <==> KeyLe(k2(a), k2(b)))
  }

  lemma {:induction false} InsertOrderAgree(r: seq<string>, x: string, k1: string -> SortKey, k2: string -> SortKey)
    requires SameOrder(r + [x], k1, k2)
    ensures Insert(r, x, k1) == Insert(r, x, k2)
    decreases |r|
  {
    if r != [] {
      assert r[0] in r + [x] && x in r + [x];
      assert SameOrder(r[1..] + [x], k1, k2) by {
        forall a | a in r[1..] + [x]
          ensures a in r + [x]
        {
          if a != x {
            assert a in r[1..];
          }
        }
      }
      InsertOrderAgree(r[1..], x, k1, k2);
    }
  }

  /** The sort depends only on how the key orders the labels being sorted,
      not on the key values themselves. */
  lemma {:induction false} SortByOrderAgree(s: seq<string>, k1: string -> SortKey, k2: string -> SortKey)
    requires SameOrder(s, k1, k2)
    ensures SortBy(s, k1) == SortBy(s, k2)
    decreases |s|
  {
    if s != [] {
      var init := s[..|s| - 1];
      assert s == init + [s[|s| - 1]];
      assert SameOrder(init, k1, k2) by {
        forall a | a in init
          ensures a in s
        {
        }
      }
      SortByOrderAgree(init, k1, k2);
      var r := SortBy(init, k1);
      assert SameOrder(r + [s[|s| - 1]], k1, k2) by {
        forall a | a in r + [s[|s| - 1]]
          ensures a in s
        {
          if a in r {
            assert a in multiset(init);
          }
        }
      }
      InsertOrderAgree(r, s[|s| - 1], k1, k2);
    }
  }

  lemma {:induction false} InsertDistinct(r: seq<string>, x: string, key: string -> SortKey)
    requires Distinct(r) && x !in r
    ensures Distinct(Insert(r, x, key))
    decreases |r|
  {
    if r != [] && !KeyLt(key(x), key(r[0])) {
      InsertDistinct(r[1..], x, key);
      var rest := Insert(r[1..], x, key);
      InsertPermutation(r[1..], x, key);
      assert r[0] !in multiset(rest) by {
        assert r[0] !in r[1..];
      }
      forall i, j | 0 <= i < j < |rest| + 1
        ensures ([r[0]] + rest)[i] != ([r[0]] + rest)[j]
      {
        if i == 0 {
          assert rest[j - 1] in multiset(rest);
        }
      }
    }
  }

  /** Sorting a sequence without repetitions gives one without repetitions. */
  lemma {:induction false} SortByDistinct(s: seq<string>, key: string -> SortKey)
    requires Distinct(s)
    ensures Distinct(SortBy(s, key))
    decreases |s|
  {
    if s != [] {
      var init := s[..|s| - 1];
      SortByDistinct(init, key);
      assert s[|s| - 1] !in multiset(SortBy(init, key)) by {
        assert s[|s| - 1] !in init;
      }
      InsertDistinct(SortBy(init, key), s[|s| - 1], key);
    }
  }
}
