/**
 * The array operations the source leans on (filter, find, findIndex, reduce-to-sum),
 * as functions over sequences with the facts the ledger proofs need.
 */
module Lists {
  import opened Wrappers

  /** Array.prototype.filter: the elements satisfying `p`, in their order. */
  function Filter<T>(s: seq<T>, p: T -> bool): (r: seq<T>)
    ensures |r| <= |s|
    ensures forall i :: 0 <= i < |r| ==> r[i] in s && p(r[i])
    ensures forall i :: 0 <= i < |s| && p(s[i]) ==> s[i] in r
    ensures (forall i :: 0 <= i < |s| ==> p(s[i])) ==> r == s
    decreases |s|
  {
    if |s| == 0 then []
    else Filter(s[..|s| - 1], p) + (if p(s[|s| - 1]) then [s[|s| - 1]] else [])
  }

  /** Nothing passes: the filter is empty. */
  lemma {:induction false} FilterNone<T>(s: seq<T>, p: T -> bool)
    requires forall i :: 0 <= i < |s| ==> !p(s[i])
    ensures Filter(s, p) == []
    decreases |s|
  {
    if |s| > 0 {
      FilterNone(s[..|s| - 1], p);
    }
  }

  /** Array.prototype.findIndex, with `None` for -1: the first index whose element satisfies `p`. */
  function FindIndex<T>(s: seq<T>, p: T -> bool): (r: Option<nat>)
    ensures r.Some? ==> r.value < |s| && p(s[r.value])
    ensures r.Some? ==> forall j :: 0 <= j < r.value ==> !p(s[j])
    ensures r.None? <==> forall j :: 0 <= j < |s| ==> !p(s[j])
    decreases |s|
  {
    if |s| == 0 then None
    else if p(s[0]) then Some(0)
    else match FindIndex(s[1..], p)
      case None => None
      case Some(i) => Some(i + 1)
  }

  /** Array.prototype.find, with `None` for undefined. */
  function Find<T>(s: seq<T>, p: T -> bool): (r: Option<T>)
    ensures r.Some? ==> r.value in s && p(r.value)
    ensures r.None? <==> forall i :: 0 <= i < |s| ==> !p(s[i])
  {
    match FindIndex(s, p)
    case None => None
    case Some(i) => Some(s[i])
  }

  /** `list[idx] = f(list[idx])` at the first index satisfying `p`; the list is unchanged when there is none. */
  function UpdateFirst<T>(s: seq<T>, p: T -> bool, f: T -> T): (r: seq<T>)
    ensures |r| == |s|
    ensures FindIndex(s, p).None? ==> r == s
    ensures FindIndex(s, p).Some? ==> r == s[FindIndex(s, p).value := f(s[FindIndex(s, p).value])]
  {
    match FindIndex(s, p)
    case None => s
    case Some(i) => s[i := f(s[i])]
  }

  /** reduce((acc, x) => acc + f(x), 0) */
  function Sum<T>(s: seq<T>, f: T -> real): real
    decreases |s|
  {
    if |s| == 0 then 0.0 else Sum(s[..|s| - 1], f) + f(s[|s| - 1])
  }

  lemma {:induction false} SumAppend<T>(a: seq<T>, b: seq<T>, f: T -> real)
    ensures Sum(a + b, f) == Sum(a, f) + Sum(b, f)
    decreases |b|
  {
    if |b| == 0 {
      assert a + b == a;
    } else {
      var b' := b[..|b| - 1];
      assert (a + b)[..|a + b| - 1] == a + b';
      SumAppend(a, b', f);
    }
  }

  lemma {:induction false} SumMono<T>(s: seq<T>, f: T -> real, g: T -> real)
    requires forall i :: 0 <= i < |s| ==> f(s[i]) <= g(s[i])
    ensures Sum(s, f) <= Sum(s, g)
    decreases |s|
  {
    if |s| > 0 {
      SumMono(s[..|s| - 1], f, g);
    }
  }

  /** Sums over two lists of the same length compare like their elements, pairwise. */
  lemma {:induction false} SumMonoPair<A, B>(s: seq<A>, u: seq<B>, f: A -> real, g: B -> real)
    requires |s| == |u|
    requires forall i :: 0 <= i < |s| ==> f(s[i]) <= g(u[i])
    ensures Sum(s, f) <= Sum(u, g)
    decreases |s|
  {
    if |s| > 0 {
      SumMonoPair(s[..|s| - 1], u[..|u| - 1], f, g);
    }
  }

  lemma SumNonneg<T>(s: seq<T>, f: T -> real)
    requires forall i :: 0 <= i < |s| ==> 0.0 <= f(s[i])
    ensures 0.0 <= Sum(s, f)
  {
    SumMono(s, _ => 0.0, f);
    SumZero(s, _ => 0.0);
  }

  lemma {:induction false} SumZero<T>(s: seq<T>, f: T -> real)
    requires forall i :: 0 <= i < |s| ==> f(s[i]) == 0.0
    ensures Sum(s, f) == 0.0
    decreases |s|
  {
    if |s| > 0 {
      SumZero(s[..|s| - 1], f);
    }
  }

  /** Pulling a constant factor out of a sum: g is f scaled by c. */
  lemma {:induction false} SumScale<T>(s: seq<T>, f: T -> real, g: T -> real, c: real)
    requires forall i :: 0 <= i < |s| ==> g(s[i]) == f(s[i]) * c
    ensures Sum(s, g) == Sum(s, f) * c
    decreases |s|
  {
    if |s| > 0 {
      SumScale(s[..|s| - 1], f, g, c);
    }
  }

  /** A filter and its complement split a sum in two. */
  lemma {:induction false} SumFilterSplit<T>(s: seq<T>, p: T -> bool, q: T -> bool, f: T -> real)
    requires forall x :: q(x) == !p(x)
    ensures Sum(Filter(s, p), f) + Sum(Filter(s, q), f) == Sum(s, f)
    decreases |s|
  {
    if |s| > 0 {
      var s', x := s[..|s| - 1], s[|s| - 1];
      SumFilterSplit(s', p, q, f);
      SumAppend(Filter(s', p), if p(x) then [x] else [], f);
      SumAppend(Filter(s', q), if q(x) then [x] else [], f);
      assert Sum([x], f) == f(x) by {
        assert [x][..0] == [];
      }
    }
  }

  /** Summing over a filter is summing the function that is 0 outside it. */
  lemma {:induction false} SumFilter<T>(s: seq<T>, p: T -> bool, f: T -> real, g: T -> real)
    requires forall x :: g(x) == (if p(x) then f(x) else 0.0)
    ensures Sum(Filter(s, p), f) == Sum(s, g)
    decreases |s|
  {
    if |s| > 0 {
      var s', x := s[..|s| - 1], s[|s| - 1];
      SumFilter(s', p, f, g);
      SumAppend(Filter(s', p), if p(x) then [x] else [], f);
      assert Sum([x], f) == f(x) by {
        assert [x][..0] == [];
      }
    }
  }

  /** The last element enters a sum over a filter exactly when it passes. */
  lemma SumFilterLast<T>(s: seq<T>, p: T -> bool, f: T -> real)
    requires |s| > 0
    ensures Sum(Filter(s, p), f) == Sum(Filter(s[..|s| - 1], p), f) + if p(s[|s| - 1]) then f(s[|s| - 1]) else 0.0
  {
    var x := s[|s| - 1];
    SumAppend(Filter(s[..|s| - 1], p), if p(x) then [x] else [], f);
    assert Sum([x], f) == f(x) by {
      assert [x][..0] == [];
    }
  }

  /** Appending elements that all pass appends them to the filter. */
  lemma {:induction false} FilterAppendPassing<T>(s: seq<T>, t: seq<T>, p: T -> bool)
    requires forall i :: 0 <= i < |t| ==> p(t[i])
    ensures Filter(s + t, p) == Filter(s, p) + t
    decreases |t|
  {
    if |t| == 0 {
      assert s + t == s;
    } else {
      var t' := t[..|t| - 1];
      assert (s + t)[..|s + t| - 1] == s + t';
      FilterAppendPassing(s, t', p);
    }
  }

  /** Filters by predicates that agree everywhere are the same. */
  lemma {:induction false} FilterExt<T>(s: seq<T>, p: T -> bool, q: T -> bool)
    requires forall x :: p(x) == q(x)
    ensures Filter(s, p) == Filter(s, q)
    decreases |s|
  {
    if |s| > 0 {
      FilterExt(s[..|s| - 1], p, q);
    }
  }
}
