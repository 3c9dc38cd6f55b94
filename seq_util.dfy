/** Generic sequence helpers: the underscore/array operations the sidebar uses
    (`_.map`, `Array.prototype.filter`, `_.difference`, `filter(Boolean)`),
    stated as functions with the facts the navigation model relies on. */
module SeqUtil {

  datatype Option<T> = None | Some(value: T)

  /** `_.map`: one result per element, in order. */
  function Map<A, B>(s: seq<A>, f: A -> B): (r: seq<B>)
    ensures |r| == |s|
    ensures forall i :: 0 <= i < |s| ==> r[i] == f(s[i])
    decreases |s|
  {
    if s == [] then [] else [f(s[0])] + Map(s[1..], f)
  }

  /** Order-preserving filter. */
  function Filter<T(==)>(s: seq<T>, p: T -> bool): (r: seq<T>)
    ensures |r| <= |s|
    decreases |s|
  {
    if s == [] then []
    else if p(s[0]) then [s[0]] + Filter(s[1..], p)
    else Filter(s[1..], p)
  }

  /** `_.difference(xs, ys)`: the elements of `xs` not in `ys`, in the order of `xs`. */
  function Difference<T(==)>(xs: seq<T>, ys: seq<T>): (r: seq<T>)
    ensures |r| <= |xs|
  {
    Filter(xs, x => x !in ys)
  }

  /** `filter(Boolean)` over a mapped array: drop the absent entries. */
  function Compact<T>(xs: seq<Option<T>>): (r: seq<T>)
    ensures |r| <= |xs|
    decreases |xs|
  {
    if xs == [] then []
    else match xs[0]
      case Some(v) => [v] + Compact(xs[1..])
      case None => Compact(xs[1..])
  }

  /** `a` is `b` with some elements removed, the rest kept in order. */
  predicate IsSubsequence<T(==)>(a: seq<T>, b: seq<T>)
    decreases |b|
  {
    if b == [] then a == []
    else IsSubsequence(a, b[1..]) || (a != [] && a[0] == b[0] && IsSubsequence(a[1..], b[1..]))
  }

  /** A hint for the prover, which does not regroup concatenations by itself. */
  lemma AppendAssociative<T>(a: seq<T>, b: seq<T>, c: seq<T>)
    ensures (a + b) + c == a + (b + c)
  {
  }

  /** An element survives the filter exactly when it is in the input and
      passes the test. */
  lemma {:induction false} FilterMembership<T>(s: seq<T>, p: T -> bool, x: T)
    ensures x in Filter(s, p) <==> x in s && p(x)
    decreases |s|
  {
    if s != [] {
      FilterMembership(s[1..], p, x);
      assert s == [s[0]] + s[1..];
    }
  }

  /** Filter keeps the input order. */
  lemma {:induction false} FilterIsSubsequence<T>(s: seq<T>, p: T -> bool)
    ensures IsSubsequence(Filter(s, p), s)
    decreases |s|
  {
    if s != [] {
      FilterIsSubsequence(s[1..], p);
    }
  }

  /** Two tests that agree on the elements of `s` filter it alike. */
  lemma {:induction false} FilterCongruent<T>(s: seq<T>, p: T -> bool, q: T -> bool)
    requires forall x :: x in s ==> p(x) == q(x)
    ensures Filter(s, p) == Filter(s, q)
    decreases |s|
  {
    if s != [] {
      FilterCongruent(s[1..], p, q);
    }
  }

  /** An element is in `_.difference(xs, ys)` exactly when it is in `xs` and not in `ys`. */
  lemma DifferenceMembership<T>(xs: seq<T>, ys: seq<T>, x: T)
    ensures x in Difference(xs, ys) <==> x in xs && x !in ys
  {
    FilterMembership(xs, y => y !in ys, x);
  }

  /** Everything in `_.difference(xs, ys)` comes from `xs`. */
  lemma DifferenceWithin<T>(xs: seq<T>, ys: seq<T>)
    ensures forall x :: x in Difference(xs, ys) ==> x in xs
  {
    forall x | x in Difference(xs, ys) {
      DifferenceMembership(xs, ys, x);
    }
  }
}
