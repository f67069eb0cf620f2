/** Byte-wise string order and the canonical sorted form of a collection. */
module Sorting {
  import opened Prelude

  /** bytes.Compare(a, b) < 0, which is also Go's string order. */
  predicate LexLess(a: Bytes, b: Bytes) {
    |b| > 0 && (|a| == 0 || a[0] < b[0] || (a[0] == b[0] && LexLess(a[1..], b[1..])))
  }

  lemma {:induction false} LexTrichotomy(a: Bytes, b: Bytes)
    ensures a == b || LexLess(a, b) || LexLess(b, a)
    ensures !(LexLess(a, b) && LexLess(b, a))
    ensures LexLess(a, b) ==> a != b
  {
    if |a| > 0 && |b| > 0 && a[0] == b[0] {
      LexTrichotomy(a[1..], b[1..]);
      if a[1..] == b[1..] {
        assert a == [a[0]] + a[1..] == b;
      }
    }
  }

  lemma {:induction false} LexTransitive(a: Bytes, b: Bytes, c: Bytes)
    requires LexLess(a, b) && LexLess(b, c)
    ensures LexLess(a, c)
  {
    if |a| > 0 && a[0] == b[0] == c[0] {
      LexTransitive(a[1..], b[1..], c[1..]);
    }
  }

  /** `less` orders the elements of `s` totally; distinct elements are never tied. */
  ghost predicate TotalOn<T(!new)>(s: seq<T>, less: (T, T) -> bool) {
    && (forall x, y :: x in s && y in s && x != y ==> less(x, y) || less(y, x))
    && (forall x, y :: x in s && y in s && less(x, y) ==> !less(y, x))
    && (forall x, y, z :: x in s && y in s && z in s && less(x, y) && less(y, z) ==> less(x, z))
  }

  ghost predicate Sorted<T>(s: seq<T>, less: (T, T) -> bool) {
    forall i, j :: 0 <= i < j < |s| ==> !less(s[j], s[i])
  }

  function Insert<T>(x: T, s: seq<T>, less: (T, T) -> bool): (r: seq<T>)
    ensures multiset(r) == multiset(s) + multiset{x}
  {
    if s == [] || less(x, s[0]) then
      [x] + s
    else
      assert s == [s[0]] + s[1..];
      [s[0]] + Insert(x, s[1..], less)
  }

  /** The result of sort.Slice; unique whenever no two distinct elements tie. */
  function Sort<T>(s: seq<T>, less: (T, T) -> bool): (r: seq<T>)
    ensures multiset(r) == multiset(s)
  {
    if s == [] then
      []
    else
      assert s == [s[0]] + s[1..];
      Insert(s[0], Sort(s[1..], less), less)
  }

  lemma SameElements<T>(a: seq<T>, b: seq<T>)
    requires multiset(a) == multiset(b)
    ensures |a| == |b|
    ensures forall x :: x in a <==> x in b
  {
    assert |a| == |multiset(a)| && |b| == |multiset(b)|;
    forall x ensures x in a <==> x in b {
      assert x in a <==> x in multiset(a);
      assert x in b <==> x in multiset(b);
    }
  }

  /** The head of `a` occurs in every permutation of `a`; taking it out of both leaves permutations. */
  lemma MatchHead<T>(a: seq<T>, b: seq<T>) returns (j: nat)
    requires a != [] && multiset(a) == multiset(b)
    ensures j < |b| && b[j] == a[0]
    ensures multiset(a[1..]) == multiset(b[..j] + b[j + 1..])
  {
    SameElements(a, b);
    assert a[0] in b;
    j :| 0 <= j < |b| && b[j] == a[0];
    assert a == [a[0]] + a[1..];
    assert b == b[..j] + [b[j]] + b[j + 1..];
    assert multiset(a) == multiset{a[0]} + multiset(a[1..]);
    assert multiset(b) == multiset(b[..j]) + multiset{b[j]} + multiset(b[j + 1..]);
    assert multiset(a[1..]) == multiset(a) - multiset{a[0]};
    assert multiset(b[..j] + b[j + 1..]) == multiset(b) - multiset{b[j]};
  }

  lemma {:induction false} InsertSorted<T(!new)>(x: T, s: seq<T>, less: (T, T) -> bool)
    requires TotalOn([x] + s, less)
    requires Sorted(s, less)
    ensures Sorted(Insert(x, s, less), less)
  {
    var r := Insert(x, s, less);
    if s == [] {
    } else if less(x, s[0]) {
      forall j | 0 < j < |r| ensures !less(r[j], x) {
        assert r[j] == s[j - 1];
        assert s[0] in [x] + s && s[j - 1] in [x] + s && x in [x] + s;
      }
    } else {
      var t := Insert(x, s[1..], less);
      forall y | y in [x] + s[1..] ensures y in [x] + s { }
      InsertSorted(x, s[1..], less);
      SameElements(t, s[1..] + [x]);
      forall j | 0 < j < |r| ensures !less(r[j], s[0]) {
        assert t[j - 1] in t && t[j - 1] in s[1..] + [x];
        if t[j - 1] != x {
          var i :| 0 <= i < |s[1..]| && s[1..][i] == t[j - 1];
          assert s[i + 1] == t[j - 1];
        }
      }
    }
  }

  lemma {:induction false} SortSorted<T(!new)>(s: seq<T>, less: (T, T) -> bool)
    requires TotalOn(s, less)
    ensures Sorted(Sort(s, less), less)
  {
    if s != [] {
      var t := Sort(s[1..], less);
      SortSorted(s[1..], less);
      SameElements(t, s[1..]);
      forall y | y in [s[0]] + t ensures y in s { }
      InsertSorted(s[0], t, less);
    }
  }

  lemma HeadsAgree<T(!new)>(a: seq<T>, b: seq<T>, less: (T, T) -> bool)
    requires TotalOn(a, less)
    requires Sorted(a, less) && Sorted(b, less)
    requires a != [] && multiset(a) == multiset(b)
    ensures b != [] && a[0] == b[0]
  {
    SameElements(a, b);
    assert a[0] in b && b[0] in a;
    var i :| 0 <= i < |b| && b[i] == a[0];
    var j :| 0 <= j < |a| && a[j] == b[0];
  }

  lemma TailMultiset<T>(a: seq<T>)
    requires a != []
    ensures multiset(a[1..]) == multiset(a) - multiset{a[0]} && a == [a[0]] + a[1..]
  {
    assert a == [a[0]] + a[1..];
  }

  lemma TotalOnTail<T(!new)>(a: seq<T>, less: (T, T) -> bool)
    requires a != [] && TotalOn(a, less)
    ensures TotalOn(a[1..], less)
  {
    forall x | x in a[1..] ensures x in a { }
  }

  /** Two sorted arrangements of the same elements are the same sequence. */
  lemma {:induction false} SortedUnique<T(!new)>(a: seq<T>, b: seq<T>, less: (T, T) -> bool)
    requires TotalOn(a, less)
    requires Sorted(a, less) && Sorted(b, less)
    requires multiset(a) == multiset(b)
    ensures a == b
  {
    if a == [] {
      SameElements(a, b);
    } else {
      HeadsAgree(a, b, less);
      TotalOnTail(a, less);
      TailMultiset(a);
      TailMultiset(b);
      SortedUnique(a[1..], b[1..], less);
    }
  }

  /** Sorting forgets the order of its input. */
  lemma SortCanonical<T(!new)>(a: seq<T>, b: seq<T>, less: (T, T) -> bool)
    requires multiset(a) == multiset(b)
    requires TotalOn(a, less)
    ensures Sort(a, less) == Sort(b, less)
  {
    SameElements(a, b);
    SortSorted(a, less);
    SortSorted(b, less);
    SameElements(Sort(a, less), a);
    SortedUnique(Sort(a, less), Sort(b, less), less);
  }

  lemma {:induction false} MultiplicityOne<T>(s: seq<T>)
    requires Distinct(s)
    ensures forall x :: multiset(s)[x] <= 1
  {
    if s != [] {
      var front := s[..|s| - 1];
      assert s == front + [s[|s| - 1]];
      MultiplicityOne(front);
      assert s[|s| - 1] !in front;
    }
  }

  lemma {:induction false} MultiplicityTwo<T>(s: seq<T>, i: nat, j: nat)
    requires i < j < |s| && s[i] == s[j]
    ensures multiset(s)[s[i]] >= 2
  {
    assert s == s[..i] + [s[i]] + s[i + 1..j] + [s[j]] + s[j + 1..];
  }

  lemma DistinctPermuted<T>(a: seq<T>, b: seq<T>)
    requires multiset(a) == multiset(b) && Distinct(b)
    ensures Distinct(a)
  {
    MultiplicityOne(b);
    forall i, j | 0 <= i < j < |a| ensures a[i] != a[j] {
      if a[i] == a[j] {
        MultiplicityTwo(a, i, j);
      }
    }
  }
}
