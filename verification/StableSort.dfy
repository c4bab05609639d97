/** The contract of Go's sort.SliceStable, which both the health tracker and the
    skill rankings rely on, and an in-place sort that meets it. */
module StableSort {
  import opened Common

  ghost predicate Ascending<T>(s: seq<T>, key: T -> real) {
    forall i, j | 0 <= i < j < |s| :: key(s[i]) <= key(s[j])
  }

  /** The elements with key k, in their order. */
  function WithKey<T>(s: seq<T>, key: T -> real, k: real): seq<T> {
    if s == [] then []
    else (if key(s[0]) == k then [s[0]] else []) + WithKey(s[1..], key, k)
  }

  /** Within every key the elements stand in the same order in both lists. */
  ghost predicate SameByKey<T>(a: seq<T>, b: seq<T>, key: T -> real) {
    forall k: real :: WithKey(a, key, k) == WithKey(b, key, k)
  }

  ghost predicate StableSorted<T>(out: seq<T>, input: seq<T>, key: T -> real) {
    Ascending(out, key) && SameByKey(out, input, key)
  }

  lemma {:induction false} WithKeyAppend<T>(a: seq<T>, b: seq<T>, key: T -> real, k: real)
    ensures WithKey(a + b, key, k) == WithKey(a, key, k) + WithKey(b, key, k)
  {
    if a == [] {
      assert a + b == b;
    } else {
      WithKeyAppend(a[1..], b, key, k);
      assert (a + b)[1..] == a[1..] + b;
      Regroup(if key(a[0]) == k then [a[0]] else [], WithKey(a[1..], key, k), WithKey(b, key, k));
    }
  }

  lemma SwapKeepsClasses<T>(s: seq<T>, j: nat, key: T -> real)
    requires 0 < j < |s| && key(s[j]) < key(s[j - 1])
    ensures SameByKey(s[j - 1 := s[j]][j := s[j - 1]], s, key)
  {
    var t := s[j - 1 := s[j]][j := s[j - 1]];
    var a, x, y, b := s[..j - 1], s[j - 1], s[j], s[j + 1..];
    assert s == a + [x, y] + b;
    assert t == a + [y, x] + b;
    forall k: real ensures WithKey(t, key, k) == WithKey(s, key, k) {
      SwapKeepsClass(a, x, y, b, key, k);
    }
  }

  lemma SwapKeepsClass<T>(a: seq<T>, x: T, y: T, b: seq<T>, key: T -> real, k: real)
    requires key(x) != key(y)
    ensures WithKey(a + [y, x] + b, key, k) == WithKey(a + [x, y] + b, key, k)
  {
    WithKeyAppend(a + [x, y], b, key, k);
    WithKeyAppend(a, [x, y], key, k);
    WithKeyAppend(a + [y, x], b, key, k);
    WithKeyAppend(a, [y, x], key, k);
    assert [x, y][1..] == [y] && [y, x][1..] == [x];
  }

  /** In-place insertion: an element moves left only past strictly larger keys. */
  method SortInPlace<T>(a: array<T>, key: T -> real)
    modifies a
    ensures StableSorted(a[..], old(a[..]), key)
  {
    var n := 0;
    while n < a.Length
      invariant 0 <= n <= a.Length
      invariant Ascending(a[..n], key)
      invariant SameByKey(a[..], old(a[..]), key)
    {
      var j := n;
      while 0 < j && key(a[j]) < key(a[j - 1])
        invariant 0 <= j <= n
        invariant forall x, y | 0 <= x < y <= n && y != j :: key(a[x]) <= key(a[y])
        invariant SameByKey(a[..], old(a[..]), key)
      {
        ghost var before := a[..];
        SwapKeepsClasses(before, j, key);
        a[j - 1], a[j] := a[j], a[j - 1];
        assert a[..] == before[j - 1 := before[j]][j := before[j - 1]];
        j := j - 1;
      }
      n := n + 1;
    }
    assert a[..a.Length] == a[..];
  }

  lemma {:induction false} CountByKey<T>(s: seq<T>, key: T -> real, x: T)
    ensures multiset(s)[x] == multiset(WithKey(s, key, key(x)))[x]
  {
    if s != [] {
      CountByKey(s[1..], key, x);
      assert s == [s[0]] + s[1..];
      var rest := WithKey(s[1..], key, key(x));
      assert WithKey(s, key, key(x)) == (if key(s[0]) == key(x) then [s[0]] else []) + rest;
    }
  }

  lemma SortedIsPermutation<T>(out: seq<T>, input: seq<T>, key: T -> real)
    requires SameByKey(out, input, key)
    ensures multiset(out) == multiset(input)
    ensures |out| == |input|
  {
    forall x: T ensures multiset(out)[x] == multiset(input)[x] {
      CountByKey(out, key, x);
      CountByKey(input, key, x);
      assert WithKey(out, key, key(x)) == WithKey(input, key, key(x));
    }
    assert multiset(out) == multiset(input);
    assert |multiset(out)| == |out|;
  }

  /** Stable sorting is a function of its input: there is one answer. */
  lemma {:induction false} StableSortUnique<T>(a: seq<T>, b: seq<T>, key: T -> real)
    requires Ascending(a, key) && Ascending(b, key) && SameByKey(a, b, key)
    ensures a == b
  {
    SortedIsPermutation(a, b, key);
    if a != [] {
      assert a[0] in multiset(b) && b[0] in multiset(a);
      var j :| 0 <= j < |b| && b[j] == a[0];
      var i :| 0 <= i < |a| && a[i] == b[0];
      assert key(a[0]) == key(b[0]);
      assert WithKey(a, key, key(a[0]))[0] == a[0];
      assert WithKey(b, key, key(a[0]))[0] == b[0];
      assert a[0] == b[0];
      forall k: real ensures WithKey(a[1..], key, k) == WithKey(b[1..], key, k) {
        assert WithKey(a, key, k) == WithKey(b, key, k);
        var head := if key(a[0]) == k then [a[0]] else [];
        assert WithKey(a, key, k) == head + WithKey(a[1..], key, k);
        assert WithKey(b, key, k) == head + WithKey(b[1..], key, k);
        assert WithKey(a[1..], key, k) == WithKey(a, key, k)[|head|..];
      }
      StableSortUnique(a[1..], b[1..], key);
      assert a == [a[0]] + a[1..] && b == [b[0]] + b[1..];
    }
  }

  lemma PermutationKeepsDistinct<T>(a: seq<T>, b: seq<T>)
    requires multiset(a) == multiset(b) && Distinct(a)
    ensures Distinct(b)
  {
    forall i, j | 0 <= i < j < |b| ensures b[i] != b[j] {
      if b[i] == b[j] {
        assert b == b[..j] + [b[j]] + b[j + 1..];
        assert b[i] in b[..j];
        assert multiset(b)[b[j]] >= 2;
        DistinctCountsOne(a, b[j]);
        assert false;
      }
    }
  }

  lemma {:induction false} DistinctCountsOne<T>(a: seq<T>, x: T)
    requires Distinct(a)
    ensures multiset(a)[x] <= 1
  {
    if a != [] {
      assert a == [a[0]] + a[1..];
      DistinctCountsOne(a[1..], x);
      if a[0] == x {
        assert forall j | 0 <= j < |a[1..]| :: a[1..][j] == a[j + 1];
        assert x !in a[1..];
      }
    }
  }

  /** The one answer, as a function: each element goes in front of those with its key. */
  function Insert<T>(x: T, s: seq<T>, key: T -> real): seq<T> {
    if s == [] || key(x) <= key(s[0]) then [x] + s else [s[0]] + Insert(x, s[1..], key)
  }

  function Sort<T>(s: seq<T>, key: T -> real): seq<T> {
    if s == [] then [] else Insert(s[0], Sort(s[1..], key), key)
  }

  lemma {:induction false} InsertAscends<T>(x: T, s: seq<T>, key: T -> real)
    requires Ascending(s, key)
    ensures Ascending(Insert(x, s, key), key)
    ensures forall y | y in Insert(x, s, key) :: y == x || y in s
  {
    if s != [] && key(s[0]) < key(x) {
      InsertAscends(x, s[1..], key);
      var rest := Insert(x, s[1..], key);
      forall y | y in rest ensures key(s[0]) <= key(y) {
        if y in s[1..] {
          var j :| 0 <= j < |s| - 1 && s[1..][j] == y;
          assert s[j + 1] == y;
        }
      }
      assert forall i | 0 <= i < |rest| :: rest[i] in rest;
    }
  }

  lemma {:induction false} InsertKeepsClass<T>(x: T, s: seq<T>, key: T -> real, k: real)
    ensures WithKey(Insert(x, s, key), key, k) == (if key(x) == k then [x] else []) + WithKey(s, key, k)
  {
    if s != [] && key(s[0]) < key(x) {
      InsertKeepsClass(x, s[1..], key, k);
      var head := if key(s[0]) == k then [s[0]] else [];
      assert Insert(x, s, key)[1..] == Insert(x, s[1..], key);
      assert WithKey(Insert(x, s, key), key, k) == head + WithKey(Insert(x, s[1..], key), key, k);
      assert WithKey(s, key, k) == head + WithKey(s[1..], key, k);
      assert key(x) == k ==> head == [];
    } else {
      assert ([x] + s)[1..] == s;
    }
  }

  lemma {:induction false} SortIsStable<T>(s: seq<T>, key: T -> real)
    ensures StableSorted(Sort(s, key), s, key)
  {
    if s != [] {
      SortIsStable(s[1..], key);
      InsertAscends(s[0], Sort(s[1..], key), key);
      forall k: real ensures WithKey(Sort(s, key), key, k) == WithKey(s, key, k) {
        InsertKeepsClass(s[0], Sort(s[1..], key), key, k);
        assert WithKey(Sort(s[1..], key), key, k) == WithKey(s[1..], key, k);
      }
    }
  }

  lemma SortIsTheSort<T>(out: seq<T>, s: seq<T>, key: T -> real)
    requires StableSorted(out, s, key)
    ensures out == Sort(s, key)
  {
    SortIsStable(s, key);
    forall k: real ensures WithKey(out, key, k) == WithKey(Sort(s, key), key, k) {
      assert WithKey(out, key, k) == WithKey(s, key, k) == WithKey(Sort(s, key), key, k);
    }
    StableSortUnique(out, Sort(s, key), key);
  }
}
