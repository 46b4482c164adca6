/**
 * In-place sorting by a string key (Go's `sort.Slice` with a `<` comparison on
 * a name, and `sort.Strings`) and order-preserving filtering of sequences.
 */
module Collections {
  import opened GoStrings

  /** No later element has a key smaller than an earlier one. */
  predicate Sorted<T>(s: seq<T>, key: T -> string) {
    forall i, j :: 0 <= i < j < |s| ==> !Less(key(s[j]), key(s[i]))
  }

  /** Elements with equal keys are equal (for instance, keys are unique). */
  ghost predicate KeyDetermines<T>(s: seq<T>, key: T -> string) {
    forall i, j :: 0 <= i < |s| && 0 <= j < |s| && key(s[i]) == key(s[j]) ==> s[i] == s[j]
  }

  /** The identity key, used to sort strings by themselves. */
  function Id(s: string): string { s }

  method Swap<T>(a: array<T>, i: int, j: int)
    requires 0 <= i < a.Length && 0 <= j < a.Length
    modifies a
    ensures a[i] == old(a[j]) && a[j] == old(a[i])
    ensures forall k :: 0 <= k < a.Length && k != i && k != j ==> a[k] == old(a[k])
    ensures multiset(a[..]) == old(multiset(a[..]))
  {
    a[i], a[j] := a[j], a[i];
  }

  /** The position of an element with the smallest key among `a[from..]`. */
  method IndexOfMin<T>(a: array<T>, key: T -> string, from: int) returns (m: int)
    requires 0 <= from < a.Length
    ensures from <= m < a.Length
    ensures forall k :: from <= k < a.Length ==> !Less(key(a[k]), key(a[m]))
  {
    m := from;
    var j := from + 1;
    LessIrreflexive(key(a[from]));
    while j < a.Length
      invariant from <= m < a.Length && from < j <= a.Length
      invariant forall k :: from <= k < j ==> !Less(key(a[k]), key(a[m]))
    {
      if Less(key(a[j]), key(a[m])) {
        forall k | from <= k < j
          ensures !Less(key(a[k]), key(a[j]))
        {
          if Less(key(a[k]), key(a[j])) {
            LessTransitive(key(a[k]), key(a[j]), key(a[m]));
          }
        }
        LessIrreflexive(key(a[j]));
        m := j;
      }
      j := j + 1;
    }
  }

  /**
   * Sorts `a` in place so that keys never decrease. Like Go's `sort.Slice`,
   * the order of elements with equal keys is not promised.
   */
  method SortBy<T>(a: array<T>, key: T -> string)
    modifies a
    ensures Sorted(a[..], key)
    ensures multiset(a[..]) == old(multiset(a[..]))
  {
    var i := 0;
    while i < a.Length
      invariant 0 <= i <= a.Length
      invariant forall p, q :: 0 <= p < q < i ==> !Less(key(a[q]), key(a[p]))
      invariant forall p, q :: 0 <= p < i <= q < a.Length ==> !Less(key(a[q]), key(a[p]))
      invariant multiset(a[..]) == old(multiset(a[..]))
    {
      var m := IndexOfMin(a, key, i);
      ghost var b := a[..];
      Swap(a, i, m);
      forall q | i <= q < a.Length
        ensures !Less(key(a[q]), key(a[i]))
      {
        assert a[q] == (if q == m then b[i] else if q == i then b[m] else b[q]);
      }
      forall p, q | 0 <= p < i < q < a.Length
        ensures !Less(key(a[q]), key(a[p]))
      {
        assert a[q] == (if q == m then b[i] else b[q]);
      }
      i := i + 1;
    }
  }

  /** Two sorted arrangements of the same elements coincide when keys determine elements. */
  lemma {:induction false} SortedPermutationsEqual<T>(s: seq<T>, t: seq<T>, key: T -> string)
    requires Sorted(s, key) && Sorted(t, key)
    requires multiset(s) == multiset(t)
    requires KeyDetermines(s, key)
    ensures s == t
    decreases |s|
  {
    assert |s| == |t| by {
      assert |multiset(s)| == |s| && |multiset(t)| == |t|;
    }
    if |s| > 0 {
      SortedTails(s, t, key);
      SortedPermutationsEqual(s[1..], t[1..], key);
      assert s == [s[0]] + s[1..] && t == [t[0]] + t[1..];
    }
  }

  /** Removing the (equal) first elements keeps every premise of SortedPermutationsEqual. */
  lemma SortedTails<T>(s: seq<T>, t: seq<T>, key: T -> string)
    requires Sorted(s, key) && Sorted(t, key)
    requires multiset(s) == multiset(t)
    requires KeyDetermines(s, key)
    requires |s| > 0 && |t| > 0
    ensures s[0] == t[0]
    ensures Sorted(s[1..], key) && Sorted(t[1..], key)
    ensures multiset(s[1..]) == multiset(t[1..])
    ensures KeyDetermines(s[1..], key)
  {
    SortedHeadsEqual(s, t, key);
    assert s == [s[0]] + s[1..] && t == [t[0]] + t[1..];
    assert multiset(s[1..]) == multiset(s) - multiset{s[0]};
    assert multiset(t[1..]) == multiset(t) - multiset{t[0]};
    SortedTail(s, key);
    SortedTail(t, key);
    forall i, j | 0 <= i < |s| - 1 && 0 <= j < |s| - 1 && key(s[1..][i]) == key(s[1..][j])
      ensures s[1..][i] == s[1..][j]
    {
      assert s[1..][i] == s[i + 1] && s[1..][j] == s[j + 1];
    }
  }

  lemma SortedHeadsEqual<T>(s: seq<T>, t: seq<T>, key: T -> string)
    requires Sorted(s, key) && Sorted(t, key)
    requires multiset(s) == multiset(t)
    requires KeyDetermines(s, key)
    requires |s| > 0 && |t| > 0
    ensures s[0] == t[0]
  {
    assert t[0] in multiset(s);
    assert s[0] in multiset(t);
    var m :| 0 <= m < |s| && s[m] == t[0];
    var k :| 0 <= k < |t| && t[k] == s[0];
    LessIrreflexive(key(s[0]));
    LessIrreflexive(key(t[0]));
    assert !Less(key(s[m]), key(s[0]));
    assert !Less(key(t[k]), key(t[0]));
    if key(s[0]) != key(t[0]) {
      LessTotal(key(s[0]), key(t[0]));
    }
    assert key(s[m]) == key(s[0]);
  }

  lemma SortedTail<T>(s: seq<T>, key: T -> string)
    requires |s| > 0 && Sorted(s, key)
    ensures Sorted(s[1..], key)
  {
    forall i, j | 0 <= i < j < |s| - 1
      ensures !Less(key(s[1..][j]), key(s[1..][i]))
    {
      assert s[1..][j] == s[j + 1] && s[1..][i] == s[i + 1];
    }
  }

  // ---------------------------------------------------------------------------
  // Filtering

  /** The elements of `s` that satisfy `p`, in their original order. */
  function Filter<T>(s: seq<T>, p: T -> bool): (r: seq<T>)
    ensures |r| <= |s|
    ensures forall i :: 0 <= i < |r| ==> r[i] in s && p(r[i])
    ensures forall i :: 0 <= i < |s| && p(s[i]) ==> s[i] in r
  {
    if |s| == 0 then []
    else (if p(s[0]) then [s[0]] else []) + Filter(s[1..], p)
  }

  lemma {:induction false} FilterAppend<T>(a: seq<T>, b: seq<T>, p: T -> bool)
    ensures Filter(a + b, p) == Filter(a, p) + Filter(b, p)
    decreases |a|
  {
    if |a| == 0 {
      assert a + b == b;
    } else {
      assert (a + b)[0] == a[0] && (a + b)[1..] == a[1..] + b;
      FilterAppend(a[1..], b, p);
    }
  }

  /** A filtered sorted sequence is sorted. */
  lemma {:induction false} FilterSorted<T>(s: seq<T>, p: T -> bool, key: T -> string)
    requires Sorted(s, key)
    ensures Sorted(Filter(s, p), key)
    decreases |s|
  {
    if |s| > 0 {
      FilterSorted(s[1..], p, key);
      var rest := Filter(s[1..], p);
      forall j | 0 <= j < |rest|
        ensures !Less(key(rest[j]), key(s[0]))
      {
        assert rest[j] in s[1..];
      }
    }
  }

  /** Splitting by a predicate and its negation loses and duplicates nothing. */
  lemma {:induction false} FilterPartition<T>(s: seq<T>, p: T -> bool, q: T -> bool)
    requires forall x :: q(x) == !p(x)
    ensures multiset(Filter(s, p) + Filter(s, q)) == multiset(s)
    decreases |s|
  {
    if |s| > 0 {
      FilterPartition(s[1..], p, q);
      assert s == [s[0]] + s[1..];
    }
  }

  /** No two positions of `s` carry the same key. */
  predicate UniqueKeys<T>(s: seq<T>, key: T -> string) {
    forall i, j :: 0 <= i < |s| && 0 <= j < |s| && key(s[i]) == key(s[j]) ==> i == j
  }

  /** Filtering keeps keys unique: no element is kept twice. */
  lemma {:induction false} FilterUniqueKeys<T>(s: seq<T>, p: T -> bool, key: T -> string)
    requires UniqueKeys(s, key)
    ensures UniqueKeys(Filter(s, p), key)
    decreases |s|
  {
    if |s| > 0 {
      var tail := s[1..];
      assert UniqueKeys(tail, key) by {
        forall i, j | 0 <= i < |tail| && 0 <= j < |tail| && key(tail[i]) == key(tail[j])
          ensures i == j
        {
          assert tail[i] == s[i + 1] && tail[j] == s[j + 1];
        }
      }
      FilterUniqueKeys(tail, p, key);
      var rest := Filter(tail, p);
      if p(s[0]) {
        forall k | 0 <= k < |rest|
          ensures key(rest[k]) != key(s[0])
        {
          assert rest[k] in tail;
          var m :| 0 <= m < |tail| && tail[m] == rest[k];
          assert s[m + 1] == rest[k];
        }
        assert Filter(s, p) == [s[0]] + rest;
      }
    }
  }

  /** Filtering twice by the same predicate changes nothing further. */
  lemma {:induction false} FilterIdempotent<T>(s: seq<T>, p: T -> bool)
    ensures Filter(Filter(s, p), p) == Filter(s, p)
    decreases |s|
  {
    if |s| > 0 {
      FilterIdempotent(s[1..], p);
      FilterAppend(if p(s[0]) then [s[0]] else [], Filter(s[1..], p), p);
    }
  }

  /** Filtering by a predicate disjoint from the one already applied leaves nothing. */
  lemma {:induction false} FilterDisjoint<T>(s: seq<T>, p: T -> bool, q: T -> bool)
    requires forall x :: !(p(x) && q(x))
    ensures Filter(Filter(s, p), q) == []
    decreases |s|
  {
    if |s| > 0 {
      FilterDisjoint(s[1..], p, q);
      FilterAppend(if p(s[0]) then [s[0]] else [], Filter(s[1..], p), q);
    }
  }
}
