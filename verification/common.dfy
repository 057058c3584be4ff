/** Small value wrappers shared by every module of the model. */
module Common {

  /** A value that may be missing: JavaScript's `null` / `undefined` for an optional field. */
  datatype Option<+T> = None | Some(value: T) {
    /** `value || fallback` for a field that may be missing. */
    function GetOr(fallback: T): T {
      if Some? then value else fallback
    }
  }

  /** The outcome of an operation that can fail with one of a fixed set of errors. */
  datatype Result<+T, +E> = Ok(value: T) | Err(error: E)

  /** `xs.filter(p)`: the elements satisfying `p`, in their original order. */
  function Filter<T(!new)>(xs: seq<T>, p: T -> bool): (r: seq<T>)
    ensures |r| <= |xs|
    ensures forall x :: x in r <==> x in xs && p(x)
    ensures forall i :: 0 <= i < |r| ==> p(r[i])
  {
    if xs == [] then []
    else (if p(xs[0]) then [xs[0]] else []) + Filter(xs[1..], p)
  }

  /** Filtering distributes over concatenation. */
  lemma {:induction false} FilterAppend<T(!new)>(xs: seq<T>, ys: seq<T>, p: T -> bool)
    ensures Filter(xs + ys, p) == Filter(xs, p) + Filter(ys, p)
  {
    if xs == [] {
      assert xs + ys == ys;
    } else {
      assert (xs + ys)[1..] == xs[1..] + ys;
      FilterAppend(xs[1..], ys, p);
    }
  }

  /** A filter that keeps everything is the identity. */
  lemma {:induction false} FilterAll<T(!new)>(xs: seq<T>, p: T -> bool)
    requires forall x :: x in xs ==> p(x)
    ensures Filter(xs, p) == xs
  {
    if xs != [] {
      FilterAll(xs[1..], p);
    }
  }

  /** Keeping the elements `p` accepts and those `q` accepts, when `q` is the negation of `p`, splits the list. */
  lemma {:induction false} FilterPartition<T(!new)>(xs: seq<T>, p: T -> bool, q: T -> bool)
    requires forall x :: q(x) == !p(x)
    ensures |Filter(xs, p)| + |Filter(xs, q)| == |xs|
  {
    if xs != [] {
      FilterPartition(xs[1..], p, q);
    }
  }

  /** No two elements of `xs` share a value of `f`. */
  ghost predicate DistinctBy<T, K>(xs: seq<T>, f: T -> K) {
    forall i, j :: 0 <= i < j < |xs| ==> f(xs[i]) != f(xs[j])
  }

  /** A sublist chosen by a filter keeps the elements' values of `f` distinct. */
  lemma {:induction false} FilterDistinctBy<T(!new), K>(xs: seq<T>, p: T -> bool, f: T -> K)
    requires DistinctBy(xs, f)
    ensures DistinctBy(Filter(xs, p), f)
  {
    if xs != [] {
      var tail := xs[1..];
      assert DistinctBy(tail, f) by {
        forall i, j | 0 <= i < j < |tail|
          ensures f(tail[i]) != f(tail[j])
        {
          assert tail[i] == xs[i + 1] && tail[j] == xs[j + 1];
        }
      }
      FilterDistinctBy(tail, p, f);
      var rest := Filter(tail, p);
      forall y | y in rest
        ensures f(y) != f(xs[0])
      {
        var j :| 0 <= j < |tail| && tail[j] == y;
        assert xs[j + 1] == y;
      }
    }
  }

  /** The set of values `f` takes on the elements of `xs`. */
  ghost function Image<T(!new), K>(xs: seq<T>, f: T -> K): (r: set<K>)
    ensures forall x :: x in xs ==> f(x) in r
    ensures forall k :: k in r ==> exists x :: x in xs && f(x) == k
  {
    set x | x in xs :: f(x)
  }

  /** When `f` tells the elements apart, it takes as many values as there are elements. */
  lemma {:induction false} DistinctImageSize<T(!new), K>(xs: seq<T>, f: T -> K)
    requires DistinctBy(xs, f)
    ensures |Image(xs, f)| == |xs|
  {
    if xs != [] {
      var tail := xs[1..];
      assert DistinctBy(tail, f) by {
        forall i, j | 0 <= i < j < |tail|
          ensures f(tail[i]) != f(tail[j])
        {
          assert tail[i] == xs[i + 1] && tail[j] == xs[j + 1];
        }
      }
      DistinctImageSize(tail, f);
      assert f(xs[0]) !in Image(tail, f) by {
        forall y | y in tail
          ensures f(y) != f(xs[0])
        {
          var j :| 0 <= j < |tail| && tail[j] == y;
          assert xs[j + 1] == y;
        }
      }
      assert Image(xs, f) == Image(tail, f) + {f(xs[0])};
    }
  }
}
