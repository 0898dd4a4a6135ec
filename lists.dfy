/** The array transformations the components build their state updates from:
    `filter`, a `map` that rewrites the matching elements only, and a
    `reduce` that sums a numeric field. */
module Lists {

  /** `s.filter(keep)`. */
  function Filter<T>(s: seq<T>, keep: T -> bool): (r: seq<T>)
    ensures |r| <= |s|
    ensures forall i :: 0 <= i < |r| ==> r[i] in s && keep(r[i])
    ensures forall i :: 0 <= i < |s| && keep(s[i]) ==> s[i] in r
  {
    if s == [] then []
    else (if keep(s[0]) then [s[0]] else []) + Filter(s[1..], keep)
  }

  /** `r` is `s` with some elements left out, the rest in their order. */
  predicate IsSubsequence<T(==)>(r: seq<T>, s: seq<T>)
    decreases |s|
  {
    r == [] || (s != [] && ((r[0] == s[0] && IsSubsequence(r[1..], s[1..])) || IsSubsequence(r, s[1..])))
  }

  /** A filter keeps the surviving elements in their original order. */
  lemma {:induction false} FilterIsSubsequence<T>(s: seq<T>, keep: T -> bool)
    ensures IsSubsequence(Filter(s, keep), s)
  {
    if s != [] {
      FilterIsSubsequence(s[1..], keep);
      var rest := Filter(s[1..], keep);
      if keep(s[0]) {
        assert Filter(s, keep) == [s[0]] + rest;
        assert ([s[0]] + rest)[1..] == rest;
      } else {
        assert Filter(s, keep) == rest;
      }
    }
  }

  /** A filter that keeps every element changes nothing. */
  lemma {:induction false} FilterKeepsAll<T>(s: seq<T>, keep: T -> bool)
    requires forall i :: 0 <= i < |s| ==> keep(s[i])
    ensures Filter(s, keep) == s
  {
    if s != [] {
      FilterKeepsAll(s[1..], keep);
    }
  }

  /** Filtering distributes over concatenation. */
  lemma {:induction false} FilterAppend<T>(a: seq<T>, b: seq<T>, keep: T -> bool)
    ensures Filter(a + b, keep) == Filter(a, keep) + Filter(b, keep)
  {
    if a == [] {
      assert a + b == b;
    } else {
      assert (a + b)[1..] == a[1..] + b;
      FilterAppend(a[1..], b, keep);
    }
  }

  /** The number of elements that `keep` accepts. */
  function Count<T>(s: seq<T>, keep: T -> bool): (n: nat)
    ensures n <= |s|
  {
    if s == [] then 0 else (if keep(s[0]) then 1 else 0) + Count(s[1..], keep)
  }

  /** A filter keeps exactly the accepted elements, so it drops exactly the
      rejected ones. */
  lemma {:induction false} FilterLength<T>(s: seq<T>, keep: T -> bool, drop: T -> bool)
    requires forall i :: 0 <= i < |s| ==> drop(s[i]) == !keep(s[i])
    ensures |Filter(s, keep)| == Count(s, keep)
    ensures |s| - |Filter(s, keep)| == Count(s, drop)
  {
    if s != [] {
      FilterLength(s[1..], keep, drop);
    }
  }

  /** `s.map(x => sel(x) ? f(x) : x)`: rewrite the selected elements, keep
      the others. */
  function MapWhere<T>(s: seq<T>, sel: T -> bool, f: T -> T): (r: seq<T>)
    ensures |r| == |s|
    ensures forall i :: 0 <= i < |s| ==> r[i] == if sel(s[i]) then f(s[i]) else s[i]
  {
    if s == [] then []
    else [if sel(s[0]) then f(s[0]) else s[0]] + MapWhere(s[1..], sel, f)
  }

  /** Rewriting elements that nothing selects changes nothing. */
  lemma MapWhereNone<T>(s: seq<T>, sel: T -> bool, f: T -> T)
    requires forall i :: 0 <= i < |s| ==> !sel(s[i])
    ensures MapWhere(s, sel, f) == s
  {
  }

  /** `s.reduce((sum, x) => sum + field(x), 0)`. */
  function Sum<T>(s: seq<T>, field: T -> real): real {
    if s == [] then 0.0 else field(s[0]) + Sum(s[1..], field)
  }

  lemma {:induction false} SumAppend<T>(a: seq<T>, b: seq<T>, field: T -> real)
    ensures Sum(a + b, field) == Sum(a, field) + Sum(b, field)
  {
    if a == [] {
      assert a + b == b;
    } else {
      assert (a + b)[1..] == a[1..] + b;
      SumAppend(a[1..], b, field);
    }
  }

  /** Splitting a list by a filter and its complement splits its sum. */
  lemma {:induction false} SumFilterSplit<T>(s: seq<T>, keep: T -> bool, drop: T -> bool, field: T -> real)
    requires forall i :: 0 <= i < |s| ==> drop(s[i]) == !keep(s[i])
    ensures Sum(Filter(s, keep), field) + Sum(Filter(s, drop), field) == Sum(s, field)
  {
    if s != [] {
      SumFilterSplit(s[1..], keep, drop, field);
      if keep(s[0]) {
        assert Filter(s, keep) == [s[0]] + Filter(s[1..], keep);
        assert Filter(s, drop) == Filter(s[1..], drop);
      } else {
        assert Filter(s, keep) == Filter(s[1..], keep);
        assert Filter(s, drop) == [s[0]] + Filter(s[1..], drop);
      }
    }
  }

  /** When every selected element gains `delta` in the summed field and the
      others keep theirs, the sum gains `delta` once per selected element. */
  lemma {:induction false} SumMapWhere<T>(s: seq<T>, sel: T -> bool, f: T -> T, field: T -> real, delta: real)
    requires forall i :: 0 <= i < |s| && sel(s[i]) ==> field(f(s[i])) == field(s[i]) + delta
    ensures Sum(MapWhere(s, sel, f), field) == Sum(s, field) + delta * Count(s, sel) as real
  {
    if s != [] {
      SumMapWhere(s[1..], sel, f, field, delta);
      assert MapWhere(s, sel, f)[1..] == MapWhere(s[1..], sel, f);
    }
  }

  /** A sum of fields that are never negative is not negative. */
  lemma {:induction false} SumNonNegative<T>(s: seq<T>, field: T -> real)
    requires forall i :: 0 <= i < |s| ==> field(s[i]) >= 0.0
    ensures Sum(s, field) >= 0.0
  {
    if s != [] {
      SumNonNegative(s[1..], field);
    }
  }
}
