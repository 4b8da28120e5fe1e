/**
 * Sequence helpers shared by the models of the dashboard: the `Array.prototype.filter`
 * and `Array.prototype.find`/`findIndex` idioms the scripts use on their lists.
 */
module Collections {

  datatype Option<T> = None | Some(value: T)

  /** `s.filter(keep)`: the elements of `s` that satisfy `keep`, in their original order. */
  function Filter<T>(s: seq<T>, keep: T -> bool): (r: seq<T>)
    ensures |r| <= |s|
  {
    if s == [] then [] else (if keep(s[0]) then [s[0]] else []) + Filter(s[1..], keep)
  }

  /** Only elements of `s` that pass the test are kept. */
  lemma {:induction false} FilterMembers<T>(s: seq<T>, keep: T -> bool)
    ensures forall x :: x in Filter(s, keep) ==> x in s && keep(x)
  {
    if s != [] {
      FilterMembers(s[1..], keep);
    }
  }

  /** Every element that passes the test is kept. */
  lemma {:induction false} FilterKeeps<T>(s: seq<T>, keep: T -> bool, x: T)
    requires x in s && keep(x)
    ensures x in Filter(s, keep)
  {
    if s[0] != x {
      FilterKeeps(s[1..], keep, x);
    }
  }

  /** Filtering distributes over concatenation, so the kept elements keep their relative order. */
  lemma {:induction false} FilterAppend<T>(a: seq<T>, b: seq<T>, keep: T -> bool)
    ensures Filter(a + b, keep) == Filter(a, keep) + Filter(b, keep)
  {
    if a == [] {
      assert a + b == b;
    } else {
      var head := if keep(a[0]) then [a[0]] else [];
      assert (a + b)[0] == a[0] && (a + b)[1..] == a[1..] + b;
      assert Filter(a + b, keep) == head + Filter(a[1..] + b, keep);
      FilterAppend(a[1..], b, keep);
      assert head + (Filter(a[1..], keep) + Filter(b, keep)) == (head + Filter(a[1..], keep)) + Filter(b, keep);
    }
  }

  /** Filtering twice with the same test is filtering once. */
  lemma {:induction false} FilterIdempotent<T>(s: seq<T>, keep: T -> bool)
    ensures Filter(Filter(s, keep), keep) == Filter(s, keep)
  {
    if s != [] {
      FilterIdempotent(s[1..], keep);
      var f := Filter(s, keep);
      if keep(s[0]) {
        assert f == [s[0]] + Filter(s[1..], keep);
        assert f[0] == s[0] && f[1..] == Filter(s[1..], keep);
        assert Filter(f, keep) == [f[0]] + Filter(f[1..], keep);
      } else {
        assert f == Filter(s[1..], keep);
      }
    }
  }

  /** The length of a filter is the number of elements that pass, counted one list at a time. */
  lemma {:induction false} FilterLengthAll<T>(s: seq<T>, keep: T -> bool)
    ensures |Filter(s, keep)| == |s| <==> forall i :: 0 <= i < |s| ==> keep(s[i])
  {
    if s != [] {
      FilterLengthAll(s[1..], keep);
      if !keep(s[0]) {
        assert |Filter(s, keep)| < |s|;
      }
    }
  }

  /** `s.map(f)`. */
  function Map<T, U>(s: seq<T>, f: T -> U): (r: seq<U>)
    ensures |r| == |s|
    ensures forall i :: 0 <= i < |s| ==> r[i] == f(s[i])
  {
    if s == [] then [] else [f(s[0])] + Map(s[1..], f)
  }

  /** `s.findIndex(p)` with `-1` as `None`: the first position whose element satisfies `p`. */
  function FirstIndex<T>(s: seq<T>, p: T -> bool): (r: Option<nat>)
    ensures r.Some? ==> r.value < |s| && p(s[r.value]) && forall j :: 0 <= j < r.value ==> !p(s[j])
    ensures r.None? <==> forall j :: 0 <= j < |s| ==> !p(s[j])
  {
    if s == [] then None
    else if p(s[0]) then Some(0)
    else match FirstIndex(s[1..], p)
      case None => None
      case Some(k) => Some(k + 1)
  }
}
