/** Sequence helpers: occurrence counts, de-duplication and prefixes. */
module Seqs {
  import opened Options

  /** How often `x` occurs in `s`. */
  function Count<T(==)>(s: seq<T>, x: T): nat
  {
    if s == [] then 0 else (if s[0] == x then 1 else 0) + Count(s[1..], x)
  }

  /** `s` without any occurrence of `x`. */
  function RemoveAll<T(==)>(s: seq<T>, x: T): (r: seq<T>)
    ensures |r| <= |s|
  {
    if s == [] then [] else (if s[0] == x then [] else [s[0]]) + RemoveAll(s[1..], x)
  }

  /** The distinct elements of `s`, each at its first occurrence. */
  function Distinct<T(==)>(s: seq<T>): (r: seq<T>)
    decreases |s|
  {
    if s == [] then [] else [s[0]] + Distinct(RemoveAll(s[1..], s[0]))
  }

  predicate NoDuplicates<T(==)>(s: seq<T>)
  {
    forall i, j :: 0 <= i < j < |s| ==> s[i] != s[j]
  }

  /** The first `n` elements of `s`, or all of them when there are fewer (`s[:n]`). */
  function Take<T>(s: seq<T>, n: nat): (r: seq<T>)
    ensures |r| <= n && |r| <= |s|
    ensures |s| >= n ==> |r| == n
    ensures r == s[..|r|]
  {
    if |s| <= n then s else s[..n]
  }

  /** An element occurs in `s` exactly when it has a positive count. */
  lemma {:induction false} CountPositive<T>(s: seq<T>, x: T)
    ensures Count(s, x) > 0 <==> x in s
    ensures Count(s, x) <= |s|
  {
    if s != [] {
      CountPositive(s[1..], x);
    }
  }

  /** Removing `x` drops exactly its occurrences and leaves every other count alone. */
  lemma {:induction false} RemoveAllSpec<T>(s: seq<T>, x: T)
    ensures var r := RemoveAll(s, x);
      && |r| + Count(s, x) == |s|
      && (forall y :: y in r <==> y in s && y != x)
      && (forall y :: y != x ==> Count(r, y) == Count(s, y))
  {
    if s != [] {
      RemoveAllSpec(s[1..], x);
      var r := RemoveAll(s, x);
      var t := RemoveAll(s[1..], x);
      assert forall y :: y in s <==> y == s[0] || y in s[1..];
      if s[0] != x {
        assert r == [s[0]] + t;
        assert r[1..] == t;
      } else {
        assert r == t;
      }
    }
  }

  /** De-duplication keeps every element once and only the elements of `s`. */
  lemma {:induction false} DistinctSpec<T>(s: seq<T>)
    ensures var r := Distinct(s);
      && |r| <= |s|
      && NoDuplicates(r)
      && (forall x :: x in r <==> x in s)
    decreases |s|
  {
    if s != [] {
      var rest := RemoveAll(s[1..], s[0]);
      RemoveAllSpec(s[1..], s[0]);
      DistinctSpec(rest);
      var r := Distinct(s);
      assert r == [s[0]] + Distinct(rest);
      assert forall x :: x in s <==> x == s[0] || x in s[1..];
      forall i, j | 0 <= i < j < |r| ensures r[i] != r[j] {
        if i == 0 {
          assert r[j] in Distinct(rest);
        } else {
          assert r[i] == Distinct(rest)[i - 1] && r[j] == Distinct(rest)[j - 1];
        }
      }
    }
  }

  /** A sequence without duplicates has as many elements as its set of members. */
  lemma {:induction false} NoDuplicatesCard<T>(s: seq<T>)
    requires NoDuplicates(s)
    ensures |set x | x in s| == |s|
  {
    if s != [] {
      var t := s[1..];
      assert NoDuplicates(t) by {
        forall i, j | 0 <= i < j < |t| ensures t[i] != t[j] {
          assert t[i] == s[i + 1] && t[j] == s[j + 1];
        }
      }
      NoDuplicatesCard(t);
      assert s[0] !in t by {
        forall k | 0 <= k < |t| ensures t[k] != s[0] {
          assert t[k] == s[k + 1];
        }
      }
      assert (set x | x in s) == {s[0]} + (set x | x in t);
    }
  }

  /** `nunique()`: the number of distinct elements is the size of the set of members. */
  lemma DistinctCard<T(!new)>(s: seq<T>)
    ensures |Distinct(s)| == |set x | x in s|
  {
    DistinctSpec(s);
    NoDuplicatesCard(Distinct(s));
    var a := set y | y in Distinct(s);
    var b := set y | y in s;
    forall x ensures x in a <==> x in b {
      assert x in Distinct(s) <==> x in s;
    }
    assert a == b;
  }

  /** Counts add up over a concatenation. */
  lemma {:induction false} CountAppend<T>(a: seq<T>, b: seq<T>, x: T)
    ensures Count(a + b, x) == Count(a, x) + Count(b, x)
  {
    if a != [] {
      assert (a + b)[1..] == a[1..] + b;
      CountAppend(a[1..], b, x);
    } else {
      assert a + b == b;
    }
  }

  // ---------------------------------------------------------------- filters

  /** The elements of `s` that satisfy `p`, in order (`[x for x in s if p(x)]`). */
  function Filter<T>(p: T -> bool, s: seq<T>): (r: seq<T>)
  {
    if s == [] then [] else (if p(s[0]) then [s[0]] else []) + Filter(p, s[1..])
  }

  /** The filter keeps exactly the elements that satisfy `p` and never lengthens its input; a
      sequence whose elements all satisfy `p` comes through unchanged. */
  lemma {:induction false} FilterSpec<T>(p: T -> bool, s: seq<T>)
    ensures var r := Filter(p, s);
      && |r| <= |s|
      && (forall x :: x in r <==> x in s && p(x))
      && ((forall i :: 0 <= i < |s| ==> p(s[i])) ==> r == s)
  {
    if s != [] {
      FilterSpec(p, s[1..]);
      assert forall x :: x in s <==> x == s[0] || x in s[1..];
    }
  }

  /** The filter distributes over concatenation. */
  lemma {:induction false} FilterAppend<T>(p: T -> bool, a: seq<T>, b: seq<T>)
    ensures Filter(p, a + b) == Filter(p, a) + Filter(p, b)
  {
    if a != [] {
      assert (a + b)[1..] == a[1..] + b;
      FilterAppend(p, a[1..], b);
    } else {
      assert a + b == b;
    }
  }

  /** The filter keeps every occurrence of an element that satisfies `p` and none of one that
      does not. */
  lemma {:induction false} FilterCount<T>(p: T -> bool, s: seq<T>, x: T)
    ensures Count(Filter(p, s), x) == if p(x) then Count(s, x) else 0
  {
    if s != [] {
      FilterCount(p, s[1..], x);
      var head := if p(s[0]) then [s[0]] else [];
      CountAppend(head, Filter(p, s[1..]), x);
    }
  }

  /** The concatenation of the sequences `f` gives the elements of `s`, in order. */
  function FlatMap<A, B>(f: A -> seq<B>, s: seq<A>): (r: seq<B>)
  {
    if s == [] then [] else FlatMap(f, s[..|s| - 1]) + f(s[|s| - 1])
  }

  lemma FlatMapSingle<A, B>(f: A -> seq<B>, x: A)
    ensures FlatMap(f, [x]) == f(x)
  {
    assert [x][..0] == [];
  }

  /** `FlatMap` distributes over concatenation. */
  lemma {:induction false} FlatMapAppend<A, B>(f: A -> seq<B>, a: seq<A>, b: seq<A>)
    ensures FlatMap(f, a + b) == FlatMap(f, a) + FlatMap(f, b)
    decreases |b|
  {
    if b == [] {
      assert a + b == a;
    } else {
      var b' := b[..|b| - 1];
      assert (a + b)[..|a + b| - 1] == a + b';
      FlatMapAppend(f, a, b');
    }
  }

  /** A part `b` inside `p + (a + b + c) + q` is the slice that starts after `p` and `a`. */
  lemma SliceInside<T>(p: seq<T>, a: seq<T>, b: seq<T>, c: seq<T>, q: seq<T>)
    ensures var all := p + (a + b + c) + q; var start := |p| + |a|;
      && start + |b| <= |all|
      && all[start..start + |b|] == b
      && forall k :: 0 <= k < |b| ==> all[start + k] == b[k]
  {
  }

  /** The position of the first element at or after `i` that satisfies `p`, or `|s|` when
      there is none. */
  function FirstWhere<A>(p: A -> bool, s: seq<A>, i: nat): (k: nat)
    requires i <= |s|
    ensures i <= k <= |s|
    ensures forall j :: i <= j < k ==> !p(s[j])
    ensures k < |s| ==> p(s[k])
    decreases |s| - i
  {
    if i == |s| then i else if p(s[i]) then i else FirstWhere(p, s, i + 1)
  }

  /** The search stops at `i` when nothing before `i` satisfies `p` and `s[i]` does (or `i`
      is the end). */
  lemma FirstWhereIs<A>(p: A -> bool, s: seq<A>, i: nat)
    requires i <= |s| && (forall j :: 0 <= j < i ==> !p(s[j])) && (i < |s| ==> p(s[i]))
    ensures FirstWhere(p, s, 0) == i
  {
  }

  // ---------------------------------------------------------------- partial maps

  /** The position of the first element at or after `i` that `f` rejects, or `|s|` when it
      accepts all of them. */
  function FirstNone<A, B>(f: A -> Option<B>, s: seq<A>, i: nat): (k: nat)
    requires i <= |s|
    ensures i <= k <= |s|
    ensures forall j :: i <= j < k ==> f(s[j]).Some?
    ensures k < |s| ==> f(s[k]).None?
    decreases |s| - i
  {
    if i == |s| then i else if f(s[i]).None? then i else FirstNone(f, s, i + 1)
  }

  /** The values `f` gives the first `n` elements, all of which it accepts. */
  function Values<A, B>(f: A -> Option<B>, s: seq<A>, n: nat): (r: seq<B>)
    requires n <= |s| && forall j :: 0 <= j < n ==> f(s[j]).Some?
    ensures |r| == n
    ensures forall j :: 0 <= j < n ==> r[j] == f(s[j]).value
  {
    if n == 0 then [] else Values(f, s, n - 1) + [f(s[n - 1]).value]
  }

  /** The loop that applies `f` to each element in turn and appends its value, and stops at
      the first element `f` rejects, whose position it reports in `stop` (`|s|` when there is
      none). */
  method CollectUntilNone<A, B>(f: A -> Option<B>, s: seq<A>) returns (values: seq<B>, stop: nat)
    ensures stop == FirstNone(f, s, 0)
    ensures values == Values(f, s, stop)
  {
    values := [];
    var i := 0;
    while i < |s|
      invariant i <= |s|
      invariant forall j :: 0 <= j < i ==> f(s[j]).Some?
      invariant values == Values(f, s, i)
    {
      var v := f(s[i]);
      if v.None? {
        return values, i;
      }
      values := values + [v.value];
      i := i + 1;
    }
    return values, i;
  }
}
