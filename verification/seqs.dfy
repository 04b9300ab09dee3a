/** Sequence helpers shared by the scrapers: flattening, counting, Python's `xs[:n]`, subsequences. */
module Seqs {
  import opened Wrappers

  /** Flattens a list of lists in order (the per-page lists of a traversal, say). */
  function Concat<T>(xss: seq<seq<T>>): seq<T> {
    if xss == [] then [] else xss[0] + Concat(xss[1..])
  }

  lemma {:induction false} ConcatAppend<T>(xss: seq<seq<T>>, yss: seq<seq<T>>)
    ensures Concat(xss + yss) == Concat(xss) + Concat(yss)
  {
    if xss == [] {
      assert xss + yss == yss;
    } else {
      assert (xss + yss)[1..] == xss[1..] + yss;
      ConcatAppend(xss[1..], yss);
    }
  }

  /** The values `f` yields on the elements of `xs`, in order, skipping the elements it yields nothing for. */
  function Collect<S, T>(xs: seq<S>, f: S -> Option<T>): (r: seq<T>)
    ensures |r| <= |xs|
  {
    if xs == [] then []
    else (if f(xs[0]).Some? then [f(xs[0]).value] else []) + Collect(xs[1..], f)
  }

  /** A loop over `xs` that appends what `f` yields for each element, skipping the elements it yields nothing for. */
  method CollectEach<S, T>(xs: seq<S>, f: S -> Option<T>) returns (r: seq<T>)
    ensures r == Collect(xs, f)
  {
    r := [];
    for i := 0 to |xs|
      invariant r + Collect(xs[i..], f) == Collect(xs, f)
    {
      var rest := Collect(xs[i + 1..], f);
      assert xs[i..][0] == xs[i] && xs[i..][1..] == xs[i + 1..];
      var y := f(xs[i]);
      if y.Some? {
        assert Collect(xs[i..], f) == [y.value] + rest;
        assert r + ([y.value] + rest) == (r + [y.value]) + rest;
        r := r + [y.value];
      } else {
        assert Collect(xs[i..], f) == [] + rest;
      }
    }
    assert r + [] == r;
  }

  /** Every collected value comes from some element. */
  lemma {:induction false} CollectFrom<S, T>(xs: seq<S>, f: S -> Option<T>)
    ensures forall y :: y in Collect(xs, f) ==> exists i :: 0 <= i < |xs| && f(xs[i]) == Some(y)
  {
    if xs != [] {
      CollectFrom(xs[1..], f);
      forall y | y in Collect(xs, f) ensures exists i :: 0 <= i < |xs| && f(xs[i]) == Some(y) {
        if f(xs[0]) != Some(y) {
          assert y in Collect(xs[1..], f);
          var i :| 0 <= i < |xs[1..]| && f(xs[1..][i]) == Some(y);
          assert f(xs[i + 1]) == Some(y);
        }
      }
    }
  }

  /** How many elements of `xs` satisfy `p`; the loops of the readiness checks count this way. */
  function CountIf<T>(xs: seq<T>, p: T -> bool): nat
    ensures CountIf(xs, p) <= |xs|
  {
    if xs == [] then 0 else CountIf(xs[..|xs| - 1], p) + (if p(xs[|xs| - 1]) then 1 else 0)
  }

  /** The counting loop of the readiness checks: one pass over `xs`, adding one per element that satisfies `p`. */
  method CountWhere<T>(xs: seq<T>, p: T -> bool) returns (n: nat)
    ensures n == CountIf(xs, p)
  {
    n := 0;
    for i := 0 to |xs|
      invariant n == CountIf(xs[..i], p)
    {
      assert xs[..i + 1][..i] == xs[..i];
      if p(xs[i]) {
        n := n + 1;
      }
    }
    assert xs[..|xs|] == xs;
  }

  /** A count is positive exactly when some element satisfies `p`. */
  lemma {:induction false} CountIfPositive<T>(xs: seq<T>, p: T -> bool)
    ensures CountIf(xs, p) > 0 <==> exists x :: x in xs && p(x)
  {
    if xs != [] {
      var init := xs[..|xs| - 1];
      CountIfPositive(init, p);
      assert xs == init + [xs[|xs| - 1]];
      if CountIf(init, p) > 0 {
        var x :| x in init && p(x);
        assert x in xs;
      }
    }
  }

  /** Python's `xs[:n]` for `n >= 0`. */
  function Prefix<T>(xs: seq<T>, n: nat): (r: seq<T>)
    ensures |r| == if |xs| <= n then |xs| else n
    ensures r == xs[..|r|]
  {
    if |xs| <= n then xs else xs[..n]
  }

  /** `sub` keeps some of the elements of `xs`, in their order in `xs`. */
  predicate IsSubsequence<T(==)>(sub: seq<T>, xs: seq<T>)
    decreases |xs|
  {
    if sub == [] then true
    else if xs == [] then false
    else (sub[0] == xs[0] && IsSubsequence(sub[1..], xs[1..])) || IsSubsequence(sub, xs[1..])
  }

  lemma {:induction false} SubsequenceMembers<T>(sub: seq<T>, xs: seq<T>)
    requires IsSubsequence(sub, xs)
    ensures forall x :: x in sub ==> x in xs
    decreases |xs|
  {
    if sub != [] && xs != [] {
      if sub[0] == xs[0] && IsSubsequence(sub[1..], xs[1..]) {
        SubsequenceMembers(sub[1..], xs[1..]);
        forall x | x in sub ensures x in xs {
          if x != sub[0] {
            assert x in sub[1..];
          }
        }
      } else {
        SubsequenceMembers(sub, xs[1..]);
      }
    }
  }

  /** The elements of `xs` that satisfy `p`, in order. */
  function Filter<T>(xs: seq<T>, p: T -> bool): seq<T> {
    if xs == [] then [] else (if p(xs[0]) then [xs[0]] else []) + Filter(xs[1..], p)
  }

  /**
    Filtering keeps every element that satisfies `p`, as many times as it occurs, drops every
    other one, and keeps the order: a subsequence with exactly those multiplicities.
  */
  lemma {:induction false} FilterMeaning<T>(xs: seq<T>, p: T -> bool)
    ensures IsSubsequence(Filter(xs, p), xs)
    ensures forall x :: multiset(Filter(xs, p))[x] == if p(x) then multiset(xs)[x] else 0
  {
    if xs != [] {
      var rest := Filter(xs[1..], p);
      FilterMeaning(xs[1..], p);
      assert xs == [xs[0]] + xs[1..];
      assert multiset(xs) == multiset([xs[0]]) + multiset(xs[1..]);
      if p(xs[0]) {
        assert Filter(xs, p) == [xs[0]] + rest;
        assert Filter(xs, p)[1..] == rest;
        assert multiset(Filter(xs, p)) == multiset([xs[0]]) + multiset(rest);
      } else {
        assert Filter(xs, p) == rest;
        if rest != [] {
          assert IsSubsequence(rest, xs[1..]);
        }
      }
    }
  }
}
