/** Order-preserving list operations the reducers are built from, with the
    algebraic facts the metric proofs rely on. */
module Seqs {

  /** The order-preserving subsequence of `s` whose elements satisfy `p`. */
  function Filter<T>(p: T -> bool, s: seq<T>): (r: seq<T>)
    ensures |r| <= |s|
    ensures forall i :: 0 <= i < |r| ==> r[i] in s && p(r[i])
    ensures forall i :: 0 <= i < |s| && p(s[i]) ==> s[i] in r
  {
    if s == [] then []
    else (if p(s[0]) then [s[0]] else []) + Filter(p, s[1..])
  }

  /** `f` applied to every element, in order. */
  function Map<T, U>(f: T -> U, s: seq<T>): (r: seq<U>)
    ensures |r| == |s|
    ensures forall i :: 0 <= i < |s| ==> r[i] == f(s[i])
  {
    if s == [] then [] else [f(s[0])] + Map(f, s[1..])
  }

  /** The sum of `f` over the elements of `s`. */
  function Sum<T>(f: T -> int, s: seq<T>): int
  {
    if s == [] then 0 else f(s[0]) + Sum(f, s[1..])
  }

  /** The set of values `f` takes on the elements of `s`. */
  function Image<T, U>(f: T -> U, s: seq<T>): (r: set<U>)
    ensures forall i :: 0 <= i < |s| ==> f(s[i]) in r
    ensures forall y :: y in r ==> exists i :: 0 <= i < |s| && f(s[i]) == y
    ensures |r| <= |s|
  {
    if s == [] then {} else {f(s[0])} + Image(f, s[1..])
  }

  /** The elements of `s` without repetition, in order of first occurrence. */
  function Distinct<T(==)>(s: seq<T>): (r: seq<T>)
    ensures forall i :: 0 <= i < |r| ==> r[i] in s
    ensures forall i :: 0 <= i < |s| ==> s[i] in r
    ensures forall i, j :: 0 <= i < j < |r| ==> r[i] != r[j]
  {
    if s == [] then []
    else
      var init := s[..|s| - 1];
      var last := s[|s| - 1];
      assert s == init + [last];
      var r := Distinct(init);
      if last in r then r else r + [last]
  }

  lemma {:induction false} FilterAppend<T>(p: T -> bool, a: seq<T>, b: seq<T>)
    ensures Filter(p, a + b) == Filter(p, a) + Filter(p, b)
  {
    if a == [] {
      assert a + b == b;
    } else {
      assert (a + b)[1..] == a[1..] + b;
      FilterAppend(p, a[1..], b);
    }
  }

  /** Filtering twice with the same predicate is filtering once. */
  lemma {:induction false} FilterIdempotent<T>(p: T -> bool, s: seq<T>)
    ensures Filter(p, Filter(p, s)) == Filter(p, s)
  {
    if s != [] {
      FilterIdempotent(p, s[1..]);
      var head := if p(s[0]) then [s[0]] else [];
      FilterAppend(p, head, Filter(p, s[1..]));
    }
  }

  /** A filter no element passes leaves nothing. */
  lemma {:induction false} FilterNone<T>(p: T -> bool, s: seq<T>)
    requires forall i :: 0 <= i < |s| ==> !p(s[i])
    ensures Filter(p, s) == []
  {
    if s != [] {
      FilterNone(p, s[1..]);
    }
  }

  /** A filter every element passes leaves the sequence unchanged. */
  lemma {:induction false} FilterKeepsAll<T>(p: T -> bool, s: seq<T>)
    requires forall x :: x in s ==> p(x)
    ensures Filter(p, s) == s
  {
    if s != [] {
      FilterKeepsAll(p, s[1..]);
    }
  }

  lemma {:induction false} MapAppend<T, U>(f: T -> U, a: seq<T>, b: seq<T>)
    ensures Map(f, a + b) == Map(f, a) + Map(f, b)
  {
  }

  lemma {:induction false} SumAppend<T>(f: T -> int, a: seq<T>, b: seq<T>)
    ensures Sum(f, a + b) == Sum(f, a) + Sum(f, b)
  {
    if a == [] {
      assert a + b == b;
    } else {
      assert (a + b)[1..] == a[1..] + b;
      SumAppend(f, a[1..], b);
    }
  }

  /** With non-negative terms, a sum over a filtered subsequence is at most the full sum. */
  lemma {:induction false} SumFilterAtMost<T>(f: T -> int, p: T -> bool, s: seq<T>)
    requires forall x :: x in s ==> f(x) >= 0
    ensures 0 <= Sum(f, Filter(p, s)) <= Sum(f, s)
  {
    if s != [] {
      SumFilterAtMost(f, p, s[1..]);
      var head := if p(s[0]) then [s[0]] else [];
      SumAppend(f, head, Filter(p, s[1..]));
    }
  }

  lemma ImageTail<T, U>(f: T -> U, s: seq<T>)
    requires s != []
    ensures f(s[0]) in Image(f, s)
    ensures Image(f, s[1..]) <= Image(f, s)
  {
  }

  /** A property of every element of both parts holds of every element of
      their concatenation. */
  lemma ConcatAll<T>(a: seq<T>, b: seq<T>, p: T -> bool)
    requires forall i :: 0 <= i < |a| ==> p(a[i])
    requires forall i :: 0 <= i < |b| ==> p(b[i])
    ensures forall i :: 0 <= i < |a + b| ==> p((a + b)[i])
  {
  }

  lemma Assoc<T>(a: seq<T>, b: seq<T>, c: seq<T>)
    ensures a + (b + c) == (a + b) + c
  {
  }

  lemma SplitAt<T>(s: seq<T>, k: nat)
    requires k < |s|
    ensures s == s[..k] + ([s[k]] + s[k + 1..])
  {
  }

  lemma ConcatRegroup<T>(a: seq<T>, b: seq<T>, c: seq<T>, d: seq<T>, e: seq<T>)
    ensures a + (b + c + d) + e == a + b + c + d + e
  {
  }

  /** Summing a 0/1 indicator of `p` counts the elements that satisfy `p`. */
  lemma {:induction false} SumIndicator<T>(f: T -> int, p: T -> bool, s: seq<T>)
    requires forall x :: f(x) == if p(x) then 1 else 0
    ensures Sum(f, s) == |Filter(p, s)|
  {
    if s != [] {
      SumIndicator(f, p, s[1..]);
    }
  }

  lemma {:induction false} ImageAppend<T, U>(f: T -> U, a: seq<T>, b: seq<T>)
    ensures Image(f, a + b) == Image(f, a) + Image(f, b)
  {
    if a == [] {
      assert a + b == b;
    } else {
      assert (a + b)[1..] == a[1..] + b;
      ImageAppend(f, a[1..], b);
    }
  }
}
