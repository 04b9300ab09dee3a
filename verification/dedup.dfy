/**
  The deduplication every scraper applies: walk the candidate records in order and keep one
  whose title (`key`) is long enough and not yet in the growing set of seen titles, adding its
  title to the set. Titles are compared exactly, as the scrapers compare them.
*/
module Dedup {
  import opened Wrappers
  import opened Seqs

  /** `len(title) > minLen and title not in seen_titles` (`title and ...` is `minLen == 0`). */
  predicate Admits<T>(x: T, key: T -> string, minLen: int, seen: set<string>) {
    |key(x)| > minLen && key(x) !in seen
  }

  /** The records kept, in input order, when the seen set starts as `seen`. */
  function KeepFirst<T>(xs: seq<T>, key: T -> string, minLen: int, seen: set<string>): seq<T> {
    if xs == [] then []
    else if Admits(xs[0], key, minLen, seen) then [xs[0]] + KeepFirst(xs[1..], key, minLen, seen + {key(xs[0])})
    else KeepFirst(xs[1..], key, minLen, seen)
  }

  function KeySet<T(==)>(xs: seq<T>, key: T -> string): set<string> {
    set x | x in xs :: key(x)
  }

  /** No two records of `r` have the same title. */
  predicate DistinctKeys<T>(r: seq<T>, key: T -> string) {
    forall i, j :: 0 <= i < j < |r| ==> key(r[i]) != key(r[j])
  }

  /** Two lists without repeated titles, the second using none of the first's, join without repeats. */
  lemma DistinctAppend<T>(a: seq<T>, b: seq<T>, key: T -> string)
    requires DistinctKeys(a, key) && DistinctKeys(b, key)
    requires forall x :: x in b ==> key(x) !in KeySet(a, key)
    ensures DistinctKeys(a + b, key)
  {
    var r := a + b;
    forall i, j | 0 <= i < j < |r| ensures key(r[i]) != key(r[j]) {
      if j >= |a| && i < |a| {
        assert r[i] == a[i] && key(a[i]) in KeySet(a, key);
        assert r[j] == b[j - |a|] && b[j - |a|] in b;
      } else if j < |a| {
        assert r[i] == a[i] && r[j] == a[j];
      } else {
        assert r[i] == b[i - |a|] && r[j] == b[j - |a|];
      }
    }
  }

  /**
    The dedup invariant: kept titles are long enough, were not seen before, and are pairwise
    distinct.
  */
  lemma {:induction false} KeepFirstUnique<T>(xs: seq<T>, key: T -> string, minLen: int, seen: set<string>)
    ensures forall x :: x in KeepFirst(xs, key, minLen, seen) ==> |key(x)| > minLen && key(x) !in seen
    ensures DistinctKeys(KeepFirst(xs, key, minLen, seen), key)
  {
    if xs != [] {
      var r := KeepFirst(xs, key, minLen, seen);
      if Admits(xs[0], key, minLen, seen) {
        var rest := KeepFirst(xs[1..], key, minLen, seen + {key(xs[0])});
        KeepFirstUnique(xs[1..], key, minLen, seen + {key(xs[0])});
        assert r == [xs[0]] + rest;
        forall i | 0 < i < |r| ensures r[i] == rest[i - 1] && key(r[i]) != key(xs[0]) {
          assert rest[i - 1] in rest;
        }
      } else {
        KeepFirstUnique(xs[1..], key, minLen, seen);
      }
    }
  }

  /** Dedup only filters: the kept records appear in the input, in the input's order. */
  lemma {:induction false} KeepFirstSubsequence<T>(xs: seq<T>, key: T -> string, minLen: int, seen: set<string>)
    ensures IsSubsequence(KeepFirst(xs, key, minLen, seen), xs)
  {
    if xs != [] {
      var r := KeepFirst(xs, key, minLen, seen);
      if Admits(xs[0], key, minLen, seen) {
        KeepFirstSubsequence(xs[1..], key, minLen, seen + {key(xs[0])});
        assert r[0] == xs[0] && r[1..] == KeepFirst(xs[1..], key, minLen, seen + {key(xs[0])});
      } else {
        KeepFirstSubsequence(xs[1..], key, minLen, seen);
        if r != [] {
          assert IsSubsequence(r, xs[1..]);
        }
      }
    }
  }

  /**
    Nothing admissible is lost and the first occurrence wins: a record whose title is long
    enough, was not seen before and does not occur earlier in the input is kept.
  */
  lemma {:induction false} KeepFirstKeepsFirstOccurrence<T>(xs: seq<T>, key: T -> string, minLen: int, seen: set<string>, i: nat)
    requires i < |xs| && Admits(xs[i], key, minLen, seen)
    requires forall j :: 0 <= j < i ==> key(xs[j]) != key(xs[i])
    ensures xs[i] in KeepFirst(xs, key, minLen, seen)
  {
    if i > 0 {
      var seen' := if Admits(xs[0], key, minLen, seen) then seen + {key(xs[0])} else seen;
      assert xs[1..][i - 1] == xs[i];
      KeepFirstKeepsFirstOccurrence(xs[1..], key, minLen, seen', i - 1);
    }
  }

  /** The seen set once `xs` has been walked. */
  function SeenAfter<T>(xs: seq<T>, key: T -> string, minLen: int, seen: set<string>): set<string> {
    if xs == [] then seen
    else if Admits(xs[0], key, minLen, seen) then SeenAfter(xs[1..], key, minLen, seen + {key(xs[0])})
    else SeenAfter(xs[1..], key, minLen, seen)
  }

  /** The seen set grows by exactly the titles of the records kept. */
  lemma {:induction false} SeenAfterKeys<T>(xs: seq<T>, key: T -> string, minLen: int, seen: set<string>)
    ensures SeenAfter(xs, key, minLen, seen) == seen + KeySet(KeepFirst(xs, key, minLen, seen), key)
  {
    if xs == [] {
      assert KeySet([], key) == {};
    } else if Admits(xs[0], key, minLen, seen) {
      var seen' := seen + {key(xs[0])};
      SeenAfterKeys(xs[1..], key, minLen, seen');
      var rest := KeepFirst(xs[1..], key, minLen, seen');
      assert KeySet([xs[0]] + rest, key) == {key(xs[0])} + KeySet(rest, key) by {
        forall k | k in KeySet([xs[0]] + rest, key) ensures k in {key(xs[0])} + KeySet(rest, key) {
          var x :| x in [xs[0]] + rest && key(x) == k;
          if x != xs[0] {
            assert x in rest;
          }
        }
      }
    } else {
      SeenAfterKeys(xs[1..], key, minLen, seen);
    }
  }

  /** Dedup over a concatenation continues, on the second part, from the seen set the first part left. */
  lemma {:induction false} KeepFirstAppend<T>(xs: seq<T>, ys: seq<T>, key: T -> string, minLen: int, seen: set<string>)
    ensures KeepFirst(xs + ys, key, minLen, seen) ==
      KeepFirst(xs, key, minLen, seen) + KeepFirst(ys, key, minLen, SeenAfter(xs, key, minLen, seen))
    ensures SeenAfter(xs + ys, key, minLen, seen) == SeenAfter(ys, key, minLen, SeenAfter(xs, key, minLen, seen))
  {
    if xs == [] {
      assert xs + ys == ys;
    } else {
      assert (xs + ys)[0] == xs[0] && (xs + ys)[1..] == xs[1..] + ys;
      if Admits(xs[0], key, minLen, seen) {
        KeepFirstAppend(xs[1..], ys, key, minLen, seen + {key(xs[0])});
      } else {
        KeepFirstAppend(xs[1..], ys, key, minLen, seen);
      }
    }
  }

  /** Dedup over a page followed by later pages. */
  lemma DedupPages<T>(page: seq<T>, rest: seq<seq<T>>, key: T -> string, minLen: int, seen: set<string>)
    ensures KeepFirst(Concat([page] + rest), key, minLen, seen) ==
      KeepFirst(page, key, minLen, seen) + KeepFirst(Concat(rest), key, minLen, SeenAfter(page, key, minLen, seen))
  {
    assert ([page] + rest)[0] == page && ([page] + rest)[1..] == rest;
    KeepFirstAppend(page, Concat(rest), key, minLen, seen);
  }

  /** One step of a dedup loop over the remaining candidates `xs[i..]`. */
  lemma KeepFirstStep<T>(xs: seq<T>, i: nat, key: T -> string, minLen: int, seen: set<string>)
    requires i < |xs|
    ensures KeepFirst(xs[i..], key, minLen, seen) ==
      if Admits(xs[i], key, minLen, seen) then [xs[i]] + KeepFirst(xs[i + 1..], key, minLen, seen + {key(xs[i])})
      else KeepFirst(xs[i + 1..], key, minLen, seen)
    ensures SeenAfter(xs[i..], key, minLen, seen) ==
      if Admits(xs[i], key, minLen, seen) then SeenAfter(xs[i + 1..], key, minLen, seen + {key(xs[i])})
      else SeenAfter(xs[i + 1..], key, minLen, seen)
  {
    assert xs[i..][0] == xs[i] && xs[i..][1..] == xs[i + 1..];
  }

  /** Dedup of one candidate followed by more. */
  lemma KeepFirstCons<T>(x: T, xs: seq<T>, key: T -> string, minLen: int, seen: set<string>)
    ensures KeepFirst([x] + xs, key, minLen, seen) ==
      if Admits(x, key, minLen, seen) then [x] + KeepFirst(xs, key, minLen, seen + {key(x)})
      else KeepFirst(xs, key, minLen, seen)
  {
    assert ([x] + xs)[0] == x && ([x] + xs)[1..] == xs;
  }

  /** One step of a dedup loop that reads an optional record from each element of `xs[i..]`. */
  lemma CollectStep<S, T>(xs: seq<S>, i: nat, f: S -> Option<T>, key: T -> string, minLen: int, seen: set<string>)
    requires i < |xs|
    ensures var y := f(xs[i]);
      KeepFirst(Collect(xs[i..], f), key, minLen, seen) ==
        if y.Some? && Admits(y.value, key, minLen, seen)
        then [y.value] + KeepFirst(Collect(xs[i + 1..], f), key, minLen, seen + {key(y.value)})
        else KeepFirst(Collect(xs[i + 1..], f), key, minLen, seen)
    ensures var y := f(xs[i]);
      SeenAfter(Collect(xs[i..], f), key, minLen, seen) ==
        if y.Some? && Admits(y.value, key, minLen, seen)
        then SeenAfter(Collect(xs[i + 1..], f), key, minLen, seen + {key(y.value)})
        else SeenAfter(Collect(xs[i + 1..], f), key, minLen, seen)
  {
    assert xs[i..][0] == xs[i] && xs[i..][1..] == xs[i + 1..];
    var y := f(xs[i]);
    var rest := Collect(xs[i + 1..], f);
    if y.Some? {
      assert Collect(xs[i..], f) == [y.value] + rest;
      assert ([y.value] + rest)[0] == y.value && ([y.value] + rest)[1..] == rest;
    } else {
      assert Collect(xs[i..], f) == [] + rest == rest;
    }
  }

  /**
    The dedup loop over elements that may or may not yield a record: read each element's
    record and keep it when its title is long enough and not yet seen.
  */
  method AddCollected<S, T>(all: seq<T>, seen: set<string>, xs: seq<S>, f: S -> Option<T>, key: T -> string, minLen: int)
    returns (all': seq<T>, seen': set<string>)
    ensures all' == all + KeepFirst(Collect(xs, f), key, minLen, seen)
    ensures seen' == SeenAfter(Collect(xs, f), key, minLen, seen)
  {
    all', seen' := all, seen;
    assert xs[0..] == xs;
    for i := 0 to |xs|
      invariant all' + KeepFirst(Collect(xs[i..], f), key, minLen, seen') == all + KeepFirst(Collect(xs, f), key, minLen, seen)
      invariant SeenAfter(Collect(xs[i..], f), key, minLen, seen') == SeenAfter(Collect(xs, f), key, minLen, seen)
    {
      CollectStep(xs, i, f, key, minLen, seen');
      var y := f(xs[i]);
      if y.Some? && |key(y.value)| > minLen && key(y.value) !in seen' {
        var rest := KeepFirst(Collect(xs[i + 1..], f), key, minLen, seen' + {key(y.value)});
        assert (all' + [y.value]) + rest == all' + ([y.value] + rest);
        seen' := seen' + {key(y.value)};
        all' := all' + [y.value];
      }
    }
    assert xs[|xs|..] == [];
  }

  /**
    The dedup loop of every scraper: `if title ... not in seen_titles: seen_titles.add(title);
    all_benefits.append(benefit)` over one batch of candidates.
  */
  method AddNew<T>(all: seq<T>, seen: set<string>, xs: seq<T>, key: T -> string, minLen: int)
    returns (all': seq<T>, seen': set<string>)
    ensures all' == all + KeepFirst(xs, key, minLen, seen)
    ensures seen' == SeenAfter(xs, key, minLen, seen)
  {
    all', seen' := all, seen;
    for i := 0 to |xs|
      invariant all' + KeepFirst(xs[i..], key, minLen, seen') == all + KeepFirst(xs, key, minLen, seen)
      invariant SeenAfter(xs[i..], key, minLen, seen') == SeenAfter(xs, key, minLen, seen)
    {
      KeepFirstStep(xs, i, key, minLen, seen');
      var k := key(xs[i]);
      if |k| > minLen && k !in seen' {
        seen' := seen' + {k};
        all' := all' + [xs[i]];
      }
    }
  }
}
