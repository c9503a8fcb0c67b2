/** The list helpers `suggest` applies last: `uniq` by a key (first occurrence kept) and the
    stable `sortBy` on a string key, compared with JavaScript's `<` on strings. */
module Ordering {

  /** JavaScript's `<` on strings: the first differing character decides, and a proper prefix
      comes first. */
  predicate Less(a: string, b: string)
    decreases |a|
  {
    |b| > 0 && (|a| == 0 || a[0] < b[0] || (a[0] == b[0] && Less(a[1..], b[1..])))
  }

  predicate LessEq(a: string, b: string) {
    a == b || Less(a, b)
  }

  lemma {:induction false} LessIrreflexive(a: string)
    ensures !Less(a, a)
    decreases |a|
  {
    if |a| > 0 {
      LessIrreflexive(a[1..]);
    }
  }

  lemma {:induction false} LessTransitive(a: string, b: string, c: string)
    requires Less(a, b) && Less(b, c)
    ensures Less(a, c)
    decreases |a|
  {
    if |a| > 0 && a[0] == b[0] && b[0] == c[0] {
      LessTransitive(a[1..], b[1..], c[1..]);
    }
  }

  /** Any two strings are equal or ordered one way. */
  lemma {:induction false} LessTotal(a: string, b: string)
    ensures a == b || Less(a, b) || Less(b, a)
    decreases |a|
  {
    if |a| > 0 && |b| > 0 && a[0] == b[0] {
      LessTotal(a[1..], b[1..]);
      if a[1..] == b[1..] {
        assert a == [a[0]] + a[1..] && b == [b[0]] + b[1..];
      }
    }
  }

  lemma LessEqTransitive(a: string, b: string, c: string)
    requires LessEq(a, b) && LessEq(b, c)
    ensures LessEq(a, c)
  {
    if Less(a, b) && Less(b, c) {
      LessTransitive(a, b, c);
    }
  }

  /** Every later element's key is at least every earlier one's. */
  predicate SortedBy<T(==)>(xs: seq<T>, key: T -> string) {
    forall i, j :: 0 <= i < j < |xs| ==> LessEq(key(xs[i]), key(xs[j]))
  }

  /** No two elements share a key. */
  predicate DistinctBy<T(==)>(xs: seq<T>, key: T -> string) {
    forall i, j :: 0 <= i < j < |xs| ==> key(xs[i]) != key(xs[j])
  }

  /** The elements whose key is `k`, in their order. */
  function WithKey<T(==)>(xs: seq<T>, key: T -> string, k: string): (r: seq<T>)
    ensures forall y :: y in r ==> y in xs && key(y) == k
  {
    if |xs| == 0 then []
    else if key(xs[0]) == k then [xs[0]] + WithKey(xs[1..], key, k)
    else WithKey(xs[1..], key, k)
  }

  /** Places `x` before the first element whose key is not smaller: after the smaller keys and
      before the equal ones. */
  function Insert<T(==)>(x: T, ys: seq<T>, key: T -> string): (r: seq<T>)
    ensures multiset(r) == multiset(ys) + multiset{x}
  {
    if |ys| == 0 || LessEq(key(x), key(ys[0])) then [x] + ys
    else
      assert ys == [ys[0]] + ys[1..];
      [ys[0]] + Insert(x, ys[1..], key)
  }

  /** `_.sortBy`: a stable sort on the key. */
  function SortBy<T(==)>(xs: seq<T>, key: T -> string): (r: seq<T>)
    ensures multiset(r) == multiset(xs)
  {
    if |xs| == 0 then []
    else
      assert xs == [xs[0]] + xs[1..];
      Insert(xs[0], SortBy(xs[1..], key), key)
  }

  lemma SortedCons<T>(x: T, ys: seq<T>, key: T -> string)
    requires SortedBy(ys, key) && forall y :: y in ys ==> LessEq(key(x), key(y))
    ensures SortedBy([x] + ys, key)
  {
    var r := [x] + ys;
    forall i, j | 0 <= i < j < |r|
      ensures LessEq(key(r[i]), key(r[j]))
    {
      if i == 0 {
        assert r[j] == ys[j - 1];
      } else {
        assert r[i] == ys[i - 1] && r[j] == ys[j - 1];
      }
    }
  }

  lemma {:induction false} InsertSorted<T>(x: T, ys: seq<T>, key: T -> string)
    requires SortedBy(ys, key)
    ensures SortedBy(Insert(x, ys, key), key)
    decreases |ys|
  {
    if |ys| == 0 || LessEq(key(x), key(ys[0])) {
      forall y | y in ys
        ensures LessEq(key(x), key(y))
      {
        var j :| 0 <= j < |ys| && ys[j] == y;
        if j > 0 {
          LessEqTransitive(key(x), key(ys[0]), key(y));
        }
      }
      SortedCons(x, ys, key);
    } else {
      var rest := ys[1..];
      assert SortedBy(rest, key) by {
        forall i, j | 0 <= i < j < |rest|
          ensures LessEq(key(rest[i]), key(rest[j]))
        {
          assert rest[i] == ys[i + 1] && rest[j] == ys[j + 1];
        }
      }
      InsertSorted(x, rest, key);
      var tail := Insert(x, rest, key);
      LessTotal(key(x), key(ys[0]));
      forall y | y in tail
        ensures LessEq(key(ys[0]), key(y))
      {
        assert y in multiset(tail);
        if y != x {
          assert y in multiset(rest);
          var j :| 0 <= j < |rest| && rest[j] == y;
          assert ys[j + 1] == y;
        }
      }
      SortedCons(ys[0], tail, key);
    }
  }

  lemma {:induction false} SortBySorted<T>(xs: seq<T>, key: T -> string)
    ensures SortedBy(SortBy(xs, key), key)
    decreases |xs|
  {
    if |xs| > 0 {
      SortBySorted(xs[1..], key);
      InsertSorted(xs[0], SortBy(xs[1..], key), key);
    }
  }

  /** Inserting keeps the elements of each key in order, `x` first among its equals. */
  lemma {:induction false} InsertStable<T>(x: T, ys: seq<T>, key: T -> string, k: string)
    ensures WithKey(Insert(x, ys, key), key, k)
            == (if key(x) == k then [x] + WithKey(ys, key, k) else WithKey(ys, key, k))
    decreases |ys|
  {
    if |ys| == 0 || LessEq(key(x), key(ys[0])) {
      assert ([x] + ys)[1..] == ys;
    } else {
      var r := [ys[0]] + Insert(x, ys[1..], key);
      assert r[1..] == Insert(x, ys[1..], key);
      InsertStable(x, ys[1..], key, k);
      if key(x) == k {
        LessTotal(key(x), key(ys[0]));
        LessIrreflexive(k);
        assert key(ys[0]) != k;
      }
    }
  }

  /** `sortBy` is stable: the elements sharing a key keep their relative order. */
  lemma {:induction false} SortByStable<T>(xs: seq<T>, key: T -> string, k: string)
    ensures WithKey(SortBy(xs, key), key, k) == WithKey(xs, key, k)
    decreases |xs|
  {
    if |xs| > 0 {
      SortByStable(xs[1..], key, k);
      InsertStable(xs[0], SortBy(xs[1..], key), key, k);
    }
  }

  /** Taking the elements of one key keeps a list sorted on any other key. */
  lemma {:induction false} WithKeySorted<T>(xs: seq<T>, key: T -> string, k: string, order: T -> string)
    requires SortedBy(xs, order)
    ensures SortedBy(WithKey(xs, key, k), order)
    decreases |xs|
  {
    if |xs| > 0 {
      var rest := xs[1..];
      assert SortedBy(rest, order) by {
        forall i, j | 0 <= i < j < |rest|
          ensures LessEq(order(rest[i]), order(rest[j]))
        {
          assert rest[i] == xs[i + 1] && rest[j] == xs[j + 1];
        }
      }
      WithKeySorted(rest, key, k, order);
      if key(xs[0]) == k {
        forall y | y in WithKey(rest, key, k)
          ensures LessEq(order(xs[0]), order(y))
        {
          var j :| 0 <= j < |rest| && rest[j] == y;
          assert xs[j + 1] == y;
        }
        SortedCons(xs[0], WithKey(rest, key, k), order);
      }
    }
  }

  /** `sortBy(name)` then `sortBy(type)`: ordered by type, and by name among equal types. */
  lemma SortTwiceIsLexicographic<T>(xs: seq<T>, first: T -> string, second: T -> string)
    ensures var r := SortBy(SortBy(xs, first), second);
            && multiset(r) == multiset(xs)
            && SortedBy(r, second)
            && forall k :: SortedBy(WithKey(r, second, k), first)
  {
    var once := SortBy(xs, first);
    var r := SortBy(once, second);
    SortBySorted(once, second);
    SortBySorted(xs, first);
    forall k
      ensures SortedBy(WithKey(r, second, k), first)
    {
      SortByStable(once, second, k);
      WithKeySorted(once, second, k, first);
    }
  }

  lemma DistinctCons<T>(x: T, ys: seq<T>, key: T -> string)
    requires DistinctBy(ys, key) && forall y :: y in ys ==> key(y) != key(x)
    ensures DistinctBy([x] + ys, key)
  {
    var r := [x] + ys;
    forall i, j | 0 <= i < j < |r|
      ensures key(r[i]) != key(r[j])
    {
      if i == 0 {
        assert r[j] == ys[j - 1];
      } else {
        assert r[i] == ys[i - 1] && r[j] == ys[j - 1];
      }
    }
  }

  lemma DistinctTail<T>(x: T, ys: seq<T>, key: T -> string)
    requires DistinctBy([x] + ys, key)
    ensures DistinctBy(ys, key) && forall y :: y in ys ==> key(y) != key(x)
  {
    var r := [x] + ys;
    forall i, j | 0 <= i < j < |ys|
      ensures key(ys[i]) != key(ys[j])
    {
      assert r[i + 1] == ys[i] && r[j + 1] == ys[j];
    }
    forall y | y in ys
      ensures key(y) != key(x)
    {
      var j :| 0 <= j < |ys| && ys[j] == y;
      assert r[0] == x && r[j + 1] == y;
    }
  }

  lemma {:induction false} InsertDistinct<T>(x: T, ys: seq<T>, key: T -> string, distinct: T -> string)
    requires DistinctBy(ys, distinct) && forall y :: y in ys ==> distinct(y) != distinct(x)
    ensures DistinctBy(Insert(x, ys, key), distinct)
    decreases |ys|
  {
    if |ys| == 0 || LessEq(key(x), key(ys[0])) {
      DistinctCons(x, ys, distinct);
    } else {
      assert ys == [ys[0]] + ys[1..];
      DistinctTail(ys[0], ys[1..], distinct);
      InsertDistinct(x, ys[1..], key, distinct);
      var tail := Insert(x, ys[1..], key);
      forall y | y in tail
        ensures distinct(y) != distinct(ys[0])
      {
        assert y in multiset(tail);
        if y != x {
          assert y in multiset(ys[1..]);
        } else {
          assert ys[0] in ys;
        }
      }
      DistinctCons(ys[0], tail, distinct);
    }
  }

  /** Sorting keeps keys distinct. */
  lemma {:induction false} SortByDistinct<T>(xs: seq<T>, key: T -> string, distinct: T -> string)
    requires DistinctBy(xs, distinct)
    ensures DistinctBy(SortBy(xs, key), distinct)
    decreases |xs|
  {
    if |xs| > 0 {
      assert xs == [xs[0]] + xs[1..];
      DistinctTail(xs[0], xs[1..], distinct);
      SortByDistinct(xs[1..], key, distinct);
      var sorted := SortBy(xs[1..], key);
      forall y | y in sorted
        ensures distinct(y) != distinct(xs[0])
      {
        assert y in multiset(sorted);
        assert y in multiset(xs[1..]);
      }
      InsertDistinct(xs[0], sorted, key, distinct);
    }
  }

  /** The keys of a list, in order. */
  function Keys<T(==)>(xs: seq<T>, key: T -> string): (r: seq<string>)
    ensures |r| == |xs| && forall i :: 0 <= i < |xs| ==> r[i] == key(xs[i])
  {
    seq(|xs|, i requires 0 <= i < |xs| => key(xs[i]))
  }

  /** `_.uniq` with a key: an element is kept when no earlier kept element has its key. */
  function UniqBy<T(==)>(xs: seq<T>, key: T -> string): seq<T>
    decreases |xs|
  {
    if |xs| == 0 then []
    else
      var kept := UniqBy(xs[..|xs| - 1], key);
      if key(xs[|xs| - 1]) in Keys(kept, key) then kept else kept + [xs[|xs| - 1]]
  }

  /** The first element of `xs` with key `k` is `y`. */
  predicate IsFirstWithKey<T(==)>(xs: seq<T>, key: T -> string, y: T) {
    exists i :: 0 <= i < |xs| && xs[i] == y && forall j :: 0 <= j < i ==> key(xs[j]) != key(y)
  }

  /** What `uniq` keeps: distinct keys, every key of the input, and for each key the first
      element that has it. */
  lemma {:induction false} UniqByKeeps<T>(xs: seq<T>, key: T -> string)
    ensures DistinctBy(UniqBy(xs, key), key)
    ensures forall x :: x in xs ==> key(x) in Keys(UniqBy(xs, key), key)
    ensures forall y :: y in UniqBy(xs, key) ==> IsFirstWithKey(xs, key, y)
    decreases |xs|
  {
    if |xs| > 0 {
      var n := |xs| - 1;
      var prefix := xs[..n];
      var last := xs[n];
      UniqByKeeps(prefix, key);
      var kept := UniqBy(prefix, key);
      forall y | y in kept
        ensures IsFirstWithKey(xs, key, y)
      {
        var i :| 0 <= i < |prefix| && prefix[i] == y && forall j :: 0 <= j < i ==> key(prefix[j]) != key(y);
        assert xs[i] == y;
        assert forall j :: 0 <= j < i ==> xs[j] == prefix[j];
      }
      forall x | x in prefix
        ensures x in xs
      {
      }
      if key(last) !in Keys(kept, key) {
        var r := kept + [last];
        forall i, j | 0 <= i < j < |r|
          ensures key(r[i]) != key(r[j])
        {
          if j == n || j == |kept| {
            assert Keys(kept, key)[i] == key(r[i]);
          }
        }
        assert IsFirstWithKey(xs, key, last) by {
          forall j | 0 <= j < n
            ensures key(xs[j]) != key(last)
          {
            assert xs[j] in prefix;
          }
        }
        forall x | x in xs
          ensures key(x) in Keys(r, key)
        {
          if x != last {
            assert x in prefix;
            var i :| 0 <= i < |kept| && Keys(kept, key)[i] == key(x);
            assert Keys(r, key)[i] == key(x);
          } else {
            assert Keys(r, key)[|kept|] == key(x);
          }
        }
      } else {
        forall x | x in xs
          ensures key(x) in Keys(kept, key)
        {
          if x != last {
            assert x in prefix;
          }
        }
      }
    }
  }
}
