// Stable sorting by a key, as sorted(..., key=...) does it, and what two sequences must
// share to sort alike.
module Sorting {

  ghost predicate TotalOrder<K(!new)>(le: (K, K) -> bool) {
    && (forall a :: le(a, a))
    && (forall a, b :: le(a, b) || le(b, a))
    && (forall a, b :: le(a, b) && le(b, a) ==> a == b)
    && (forall a, b, c :: le(a, b) && le(b, c) ==> le(a, c))
  }

  /* Keys: strings and numbers, compared as Python compares tuples of them. */

  predicate LexLe<T(==)>(le: (T, T) -> bool, a: seq<T>, b: seq<T>) {
    if a == [] then true
    else if b == [] then false
    else if a[0] == b[0] then LexLe(le, a[1..], b[1..])
    else le(a[0], b[0])
  }

  lemma {:induction false} LexReflexive<T(!new)>(le: (T, T) -> bool, a: seq<T>)
    ensures LexLe(le, a, a)
  {
    if a != [] {
      LexReflexive(le, a[1..]);
    }
  }

  lemma {:induction false} LexTotal<T(!new)>(le: (T, T) -> bool, a: seq<T>, b: seq<T>)
    requires TotalOrder(le)
    ensures LexLe(le, a, b) || LexLe(le, b, a)
    ensures LexLe(le, a, b) && LexLe(le, b, a) ==> a == b
  {
    if a != [] && b != [] && a[0] == b[0] {
      LexTotal(le, a[1..], b[1..]);
      assert a == [a[0]] + a[1..] && b == [b[0]] + b[1..];
    }
  }

  lemma {:induction false} LexTransitive<T(!new)>(le: (T, T) -> bool, a: seq<T>, b: seq<T>, c: seq<T>)
    requires TotalOrder(le) && LexLe(le, a, b) && LexLe(le, b, c)
    ensures LexLe(le, a, c)
  {
    if a != [] && a[0] == b[0] && b[0] == c[0] {
      LexTransitive(le, a[1..], b[1..], c[1..]);
    }
  }

  lemma LexIsTotal<T(!new)>(le: (T, T) -> bool)
    requires TotalOrder(le)
    ensures TotalOrder((a: seq<T>, b: seq<T>) => LexLe(le, a, b))
  {
    forall a: seq<T> {
      LexReflexive(le, a);
    }
    forall a: seq<T>, b: seq<T> {
      LexTotal(le, a, b);
    }
    forall a: seq<T>, b: seq<T>, c: seq<T> | LexLe(le, a, b) && LexLe(le, b, c) ensures LexLe(le, a, c) {
      LexTransitive(le, a, b, c);
    }
  }

  datatype Part = Number(n: int) | Text(s: string)

  type SortKey = seq<Part>

  predicate CharLe(a: char, b: char) {
    a <= b
  }

  predicate PartLe(a: Part, b: Part) {
    match (a, b)
    case (Number(m), Number(n)) => m <= n
    case (Number(_), Text(_)) => true
    case (Text(_), Number(_)) => false
    case (Text(s), Text(t)) => LexLe(CharLe, s, t)
  }

  predicate KeyLe(a: SortKey, b: SortKey) {
    LexLe(PartLe, a, b)
  }

  lemma PartLeIsTotal()
    ensures TotalOrder(PartLe)
  {
    LexIsTotal(CharLe);
    var le := (a: string, b: string) => LexLe(CharLe, a, b);
    assert forall a: string, b: string :: le(a, b) == LexLe(CharLe, a, b);
    forall a: Part ensures PartLe(a, a) {
      if a.Text? {
        assert le(a.s, a.s);
      }
    }
    forall a: Part, b: Part ensures PartLe(a, b) || PartLe(b, a) {
      if a.Text? && b.Text? {
        assert le(a.s, b.s) || le(b.s, a.s);
      }
    }
    forall a: Part, b: Part | PartLe(a, b) && PartLe(b, a) ensures a == b {
      if a.Text? && b.Text? {
        assert le(a.s, b.s) && le(b.s, a.s);
      }
    }
    forall a: Part, b: Part, c: Part | PartLe(a, b) && PartLe(b, c) ensures PartLe(a, c) {
      if a.Text? && b.Text? && c.Text? {
        assert le(a.s, b.s) && le(b.s, c.s);
      }
    }
  }

  lemma KeyLeIsTotal()
    ensures TotalOrder(KeyLe)
  {
    PartLeIsTotal();
    LexIsTotal(PartLe);
    var le := (a: SortKey, b: SortKey) => LexLe(PartLe, a, b);
    assert forall a: SortKey, b: SortKey :: le(a, b) == KeyLe(a, b);
    forall a: SortKey, b: SortKey, c: SortKey | KeyLe(a, b) && KeyLe(b, c) ensures KeyLe(a, c) {
      assert le(a, b) && le(b, c);
    }
    forall a: SortKey, b: SortKey ensures KeyLe(a, b) || KeyLe(b, a) {
      assert le(a, b) || le(b, a);
    }
    forall a: SortKey, b: SortKey | KeyLe(a, b) && KeyLe(b, a) ensures a == b {
      assert le(a, b) && le(b, a);
    }
    forall a: SortKey ensures KeyLe(a, a) {
      assert le(a, a);
    }
  }

  /* Sorting. */

  function Insert<T>(s: seq<T>, x: T, key: T -> SortKey): seq<T> {
    if s == [] || KeyLe(key(s[|s| - 1]), key(x)) then s + [x]
    else Insert(s[..|s| - 1], x, key) + [s[|s| - 1]]
  }

  function Sort<T>(xs: seq<T>, key: T -> SortKey): seq<T> {
    if xs == [] then [] else Insert(Sort(xs[..|xs| - 1], key), xs[|xs| - 1], key)
  }

  ghost predicate Sorted<T>(s: seq<T>, key: T -> SortKey) {
    forall i, j :: 0 <= i < j < |s| ==> KeyLe(key(s[i]), key(s[j]))
  }

  // The elements with one key, in order.
  function Having<T>(s: seq<T>, key: T -> SortKey, k: SortKey): seq<T> {
    if s == [] then []
    else
      var init := Having(s[..|s| - 1], key, k);
      if key(s[|s| - 1]) == k then init + [s[|s| - 1]] else init
  }

  lemma HavingSnoc<T>(s: seq<T>, x: T, key: T -> SortKey, k: SortKey)
    ensures Having(s + [x], key, k) == Having(s, key, k) + if key(x) == k then [x] else []
  {
    assert (s + [x])[..|s|] == s;
  }

  lemma {:induction false} HavingNone<T>(s: seq<T>, key: T -> SortKey, k: SortKey)
    ensures Having(s, key, k) == [] <==> forall i :: 0 <= i < |s| ==> key(s[i]) != k
  {
    if s != [] {
      HavingNone(s[..|s| - 1], key, k);
      assert forall i :: 0 <= i < |s| - 1 ==> s[..|s| - 1][i] == s[i];
    }
  }

  lemma LastNotBefore<T>(s: seq<T>, x: T, key: T -> SortKey)
    requires s != [] && !KeyLe(key(s[|s| - 1]), key(x))
    ensures key(s[|s| - 1]) != key(x)
  {
    KeyLeIsTotal();
  }

  lemma {:induction false} InsertHaving<T>(s: seq<T>, x: T, key: T -> SortKey, k: SortKey)
    ensures Having(Insert(s, x, key), key, k) == Having(s, key, k) + if key(x) == k then [x] else []
  {
    if s == [] || KeyLe(key(s[|s| - 1]), key(x)) {
      HavingSnoc(s, x, key, k);
    } else {
      var init, last := s[..|s| - 1], s[|s| - 1];
      InsertHaving(init, x, key, k);
      LastNotBefore(s, x, key);
      assert s == init + [last];
      HavingSnoc(Insert(init, x, key), last, key, k);
      HavingSnoc(init, last, key, k);
    }
  }

  lemma {:induction false} InsertElements<T>(s: seq<T>, x: T, key: T -> SortKey)
    ensures multiset(Insert(s, x, key)) == multiset(s) + multiset{x}
    ensures |Insert(s, x, key)| == |s| + 1
    ensures Insert(s, x, key)[|s|] == x || (s != [] && Insert(s, x, key)[|s|] == s[|s| - 1])
  {
    if s != [] && !KeyLe(key(s[|s| - 1]), key(x)) {
      InsertElements(s[..|s| - 1], x, key);
      assert s == s[..|s| - 1] + [s[|s| - 1]];
    }
  }

  lemma {:induction false} InsertSorted<T>(s: seq<T>, x: T, key: T -> SortKey)
    requires Sorted(s, key)
    ensures Sorted(Insert(s, x, key), key)
  {
    KeyLeIsTotal();
    if s == [] || KeyLe(key(s[|s| - 1]), key(x)) {
      forall i | 0 <= i < |s| ensures KeyLe(key(s[i]), key(x)) {
        assert KeyLe(key(s[i]), key(s[|s| - 1]));
      }
    } else {
      var init, last := s[..|s| - 1], s[|s| - 1];
      InsertSorted(init, x, key);
      InsertElements(init, x, key);
      var inner := Insert(init, x, key);
      forall i | 0 <= i < |inner| ensures KeyLe(key(inner[i]), key(last)) {
        assert inner[i] in multiset(inner);
        assert inner[i] == x || inner[i] in init;
      }
    }
  }

  // Sorting orders the keys,
  lemma {:induction false} SortSorted<T>(xs: seq<T>, key: T -> SortKey)
    ensures Sorted(Sort(xs, key), key)
  {
    if xs != [] {
      SortSorted(xs[..|xs| - 1], key);
      InsertSorted(Sort(xs[..|xs| - 1], key), xs[|xs| - 1], key);
    }
  }

  // keeps every element,
  lemma {:induction false} SortElements<T>(xs: seq<T>, key: T -> SortKey)
    ensures multiset(Sort(xs, key)) == multiset(xs)
  {
    if xs != [] {
      SortElements(xs[..|xs| - 1], key);
      InsertElements(Sort(xs[..|xs| - 1], key), xs[|xs| - 1], key);
      assert xs == xs[..|xs| - 1] + [xs[|xs| - 1]];
    }
  }

  // and keeps equal keys in their order.
  lemma {:induction false} SortHaving<T>(xs: seq<T>, key: T -> SortKey, k: SortKey)
    ensures Having(Sort(xs, key), key, k) == Having(xs, key, k)
  {
    if xs != [] {
      SortHaving(xs[..|xs| - 1], key, k);
      SortSorted(xs[..|xs| - 1], key);
      InsertHaving(Sort(xs[..|xs| - 1], key), xs[|xs| - 1], key, k);
    }
  }

  // Agreement, in order, on the elements of each key.
  ghost predicate SameHaving<T(!new)>(a: seq<T>, b: seq<T>, key: T -> SortKey) {
    forall k :: Having(a, key, k) == Having(b, key, k)
  }

  lemma HavingLast<T>(s: seq<T>, key: T -> SortKey)
    requires s != []
    ensures var last := s[|s| - 1];
      Having(s, key, key(last)) == Having(s[..|s| - 1], key, key(last)) + [last]
  {
  }

  lemma LastIsGreatest<T(!new)>(a: seq<T>, b: seq<T>, key: T -> SortKey)
    requires Sorted(a, key) && Sorted(b, key) && a != [] && b != [] && SameHaving(a, b, key)
    ensures key(a[|a| - 1]) == key(b[|b| - 1])
  {
    KeyLeIsTotal();
    var x, y := key(a[|a| - 1]), key(b[|b| - 1]);
    HavingNone(b, key, x);
    HavingNone(a, key, y);
    HavingLast(a, key);
    HavingLast(b, key);
    var i :| 0 <= i < |b| && key(b[i]) == x;
    var j :| 0 <= j < |a| && key(a[j]) == y;
    assert i < |b| - 1 ==> KeyLe(key(b[i]), y);
    assert j < |a| - 1 ==> KeyLe(key(a[j]), x);
  }

  lemma WithoutLast<T(!new)>(a: seq<T>, b: seq<T>, x: T, key: T -> SortKey)
    requires SameHaving(a + [x], b + [x], key)
    ensures SameHaving(a, b, key)
  {
    forall k ensures Having(a, key, k) == Having(b, key, k) {
      HavingSnoc(a, x, key, k);
      HavingSnoc(b, x, key, k);
      assert Having(a + [x], key, k) == Having(b + [x], key, k);
      if key(x) == k {
        SnocInjective(Having(a, key, k), Having(b, key, k), x);
      }
    }
  }

  lemma SnocInjective<T>(u: seq<T>, v: seq<T>, x: T)
    requires u + [x] == v + [x]
    ensures u == v
  {
    assert u == (u + [x])[..|u + [x]| - 1] && v == (v + [x])[..|v + [x]| - 1];
  }

  lemma SameLast<T(!new)>(a: seq<T>, b: seq<T>, key: T -> SortKey)
    requires Sorted(a, key) && Sorted(b, key) && a != [] && b != [] && SameHaving(a, b, key)
    ensures a[|a| - 1] == b[|b| - 1]
  {
    LastIsGreatest(a, b, key);
    HavingLast(a, key);
    HavingLast(b, key);
    var h := Having(a, key, key(a[|a| - 1]));
    assert h[|h| - 1] == a[|a| - 1] && h[|h| - 1] == b[|b| - 1];
  }

  // A sorted sequence is determined by what it has under each key.
  lemma {:induction false} SortedUnique<T(!new)>(a: seq<T>, b: seq<T>, key: T -> SortKey)
    requires Sorted(a, key) && Sorted(b, key) && SameHaving(a, b, key)
    ensures a == b
  {
    if a == [] || b == [] {
      if b != [] {
        HavingLast(b, key);
      }
      if a != [] {
        HavingLast(a, key);
      }
    } else {
      SameLast(a, b, key);
      var init, rest, x := a[..|a| - 1], b[..|b| - 1], a[|a| - 1];
      assert a == init + [x] && b == rest + [x];
      WithoutLast(init, rest, x, key);
      SortedUnique(init, rest, key);
    }
  }

  // Two sequences sort alike exactly if they agree, in order, on the elements of each key.
  lemma SortAlikeIff<T(!new)>(xs: seq<T>, ys: seq<T>, key: T -> SortKey)
    ensures Sort(xs, key) == Sort(ys, key) <==> SameHaving(xs, ys, key)
  {
    forall k
      ensures Having(Sort(xs, key), key, k) == Having(xs, key, k)
      ensures Having(Sort(ys, key), key, k) == Having(ys, key, k)
    {
      SortHaving(xs, key, k);
      SortHaving(ys, key, k);
    }
    SortSorted(xs, key);
    SortSorted(ys, key);
    if SameHaving(xs, ys, key) {
      SortedAlike(xs, ys, Sort(xs, key), Sort(ys, key), key);
    }
  }

  lemma SortedAlike<T(!new)>(xs: seq<T>, ys: seq<T>, a: seq<T>, b: seq<T>, key: T -> SortKey)
    requires Sorted(a, key) && Sorted(b, key) && SameHaving(a, xs, key) && SameHaving(b, ys, key) &&
        SameHaving(xs, ys, key)
    ensures a == b
  {
    forall k ensures Having(a, key, k) == Having(b, key, k) {
      assert Having(a, key, k) == Having(xs, key, k) && Having(b, key, k) == Having(ys, key, k);
      assert Having(xs, key, k) == Having(ys, key, k);
    }
    SortedUnique(a, b, key);
  }

  /* Without ties, order does not matter at all. */

  ghost predicate DistinctKeys<T>(xs: seq<T>, key: T -> SortKey) {
    forall i, j :: 0 <= i < j < |xs| ==> key(xs[i]) != key(xs[j])
  }

  lemma {:induction false} HavingOne<T>(xs: seq<T>, key: T -> SortKey, x: T)
    requires DistinctKeys(xs, key) && x in xs
    ensures Having(xs, key, key(x)) == [x]
  {
    var init, last := xs[..|xs| - 1], xs[|xs| - 1];
    if x in init {
      HavingOne(init, key, x);
      var i :| 0 <= i < |init| && init[i] == x;
      assert xs[i] == x && key(last) != key(x);
    } else {
      assert x == last;
      HavingNone(init, key, key(x));
    }
  }

  lemma PermutedHaving<T(!new)>(xs: seq<T>, ys: seq<T>, key: T -> SortKey, k: SortKey)
    requires DistinctKeys(xs, key) && DistinctKeys(ys, key) && multiset(xs) == multiset(ys)
    ensures Having(xs, key, k) == Having(ys, key, k)
  {
    HavingNone(xs, key, k);
    HavingNone(ys, key, k);
    forall x ensures x in xs <==> x in ys {
      assert x in xs <==> x in multiset(xs);
      assert x in ys <==> x in multiset(ys);
    }
    if i :| 0 <= i < |xs| && key(xs[i]) == k {
      HavingOne(xs, key, xs[i]);
      HavingOne(ys, key, xs[i]);
    } else {
      forall j | 0 <= j < |ys| ensures key(ys[j]) != k {
        assert ys[j] in xs;
      }
    }
  }

  lemma PermutationsSortAlike<T(!new)>(xs: seq<T>, ys: seq<T>, key: T -> SortKey)
    requires DistinctKeys(xs, key) && DistinctKeys(ys, key)
    ensures Sort(xs, key) == Sort(ys, key) <==> multiset(xs) == multiset(ys)
  {
    SortElements(xs, key);
    SortElements(ys, key);
    if multiset(xs) == multiset(ys) {
      forall k ensures Having(xs, key, k) == Having(ys, key, k) {
        PermutedHaving(xs, ys, key, k);
      }
      SortAlikeIff(xs, ys, key);
    }
  }

  lemma HavingPair<T>(x: T, y: T, key: T -> SortKey)
    requires key(x) == key(y)
    ensures Having([x, y], key, key(x)) == [x, y]
  {
    HavingSnoc([], x, key, key(x));
    HavingSnoc([x], y, key, key(x));
    assert [] + [x] == [x] && [x] + [y] == [x, y];
  }

  // Tied elements do not sort alike in different orders.
  lemma TiesAreOrdered<T(!new)>(x: T, y: T, key: T -> SortKey)
    requires x != y && key(x) == key(y)
    ensures Sort([x, y], key) != Sort([y, x], key)
  {
    HavingPair(x, y, key);
    HavingPair(y, x, key);
    assert [x, y][0] != [y, x][0];
    SortAlikeIff([x, y], [y, x], key);
  }
}
