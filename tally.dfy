/** Frequency tables: what pandas' `value_counts()` and `groupby(...).size()` compute, as
    sequences of (value, count) pairs in the order their `to_dict()` lists them. */
module Tallies {
  import opened Seqs
  import opened Sorting

  /** The first components of a table. */
  function Keys<K, V>(r: seq<(K, V)>): (ks: seq<K>)
    ensures |ks| == |r| && forall i :: 0 <= i < |r| ==> ks[i] == r[i].0
  {
    seq(|r|, i requires 0 <= i < |r| => r[i].0)
  }

  /** The counts of a table added up. */
  function SumCounts<K>(r: seq<(K, nat)>): nat
  {
    if r == [] then 0 else r[0].1 + SumCounts(r[1..])
  }

  /** Each distinct element of `s` with its number of occurrences, at its first occurrence. */
  function Tally<T(==)>(s: seq<T>): seq<(T, nat)>
    decreases |s|
  {
    if s == [] then [] else [(s[0], Count(s, s[0]))] + Tally(RemoveAll(s[1..], s[0]))
  }

  /** `value_counts()`: the tally, most frequent first; equally frequent values keep their order
      of first occurrence. */
  function ValueCounts<T(==)>(s: seq<T>): seq<(T, nat)>
  {
    SortBy(Tally(s), CountDesc)
  }

  predicate CountDesc<T>(a: (T, nat), b: (T, nat))
  {
    a.1 >= b.1
  }

  /** `value_counts().head(n)`. */
  function Top<T(==)>(s: seq<T>, n: nat): seq<(T, nat)>
  {
    Take(ValueCounts(s), n)
  }

  /** `groupby(...).size()`: the tally ordered by value, under the order `keyLe` of the values. */
  function GroupSizes<T(==)>(s: seq<T>, keyLe: (T, T) -> bool): seq<(T, nat)>
  {
    SortBy(Tally(s), (a: (T, nat), b: (T, nat)) => keyLe(a.0, b.0))
  }

  // ---------------------------------------------------------------- the tally

  /** The tally lists the distinct elements, each once and with its count, and its counts add
      up to the length of the input. */
  lemma {:induction false} TallySpec<T>(s: seq<T>)
    ensures var r := Tally(s);
      && Keys(r) == Distinct(s)
      && (forall i :: 0 <= i < |r| ==> r[i].1 == Count(s, r[i].0) && r[i].1 > 0)
      && SumCounts(r) == |s|
    decreases |s|
  {
    if s != [] {
      var x := s[0];
      var rest := RemoveAll(s[1..], x);
      RemoveAllSpec(s[1..], x);
      TallySpec(rest);
      var r := Tally(s);
      var t := Tally(rest);
      assert r == [(x, Count(s, x))] + t;
      assert r[1..] == t;
      assert Keys(r) == [x] + Keys(t);
      forall i | 0 <= i < |r| ensures r[i].1 == Count(s, r[i].0) && r[i].1 > 0 {
        if i > 0 {
          var y := t[i - 1].0;
          assert y in Distinct(rest) by { assert Keys(t)[i - 1] == y; }
          DistinctSpec(rest);
        }
      }
    }
  }

  /** The tally holds no pair twice. */
  lemma TallyNoDuplicates<T>(s: seq<T>)
    ensures NoDuplicates(Tally(s))
  {
    var r := Tally(s);
    TallySpec(s);
    DistinctSpec(s);
    forall i, j | 0 <= i < j < |r| ensures r[i] != r[j] {
      assert Keys(r)[i] != Keys(r)[j];
    }
  }

  // ---------------------------------------------------------------- permutations

  /** A sequence without duplicates holds each value at most once. */
  lemma {:induction false} NoDuplicatesMultiplicity<T>(s: seq<T>, x: T)
    requires NoDuplicates(s)
    ensures multiset(s)[x] <= 1
  {
    if s != [] {
      var t := s[1..];
      assert NoDuplicates(t) by {
        forall i, j | 0 <= i < j < |t| ensures t[i] != t[j] {
          assert t[i] == s[i + 1] && t[j] == s[j + 1];
        }
      }
      NoDuplicatesMultiplicity(t, x);
      assert s == [s[0]] + t;
      if x == s[0] {
        assert x !in t by {
          forall k | 0 <= k < |t| ensures t[k] != x {
            assert t[k] == s[k + 1];
          }
        }
      }
    }
  }

  /** A rearrangement of a sequence without duplicates has none either. */
  lemma PermutationNoDuplicates<T>(a: seq<T>, b: seq<T>)
    requires multiset(a) == multiset(b) && NoDuplicates(a)
    ensures NoDuplicates(b)
  {
    forall i, j | 0 <= i < j < |b| ensures b[i] != b[j] {
      if b[i] == b[j] {
        var x := b[i];
        assert b == b[..j] + b[j..];
        assert x in b[..j] && x in b[j..];
        assert multiset(b)[x] == multiset(b[..j])[x] + multiset(b[j..])[x];
        NoDuplicatesMultiplicity(a, x);
        assert false;
      }
    }
  }

  lemma {:induction false} SumCountsInsert<K>(x: (K, nat), r: seq<(K, nat)>, le: ((K, nat), (K, nat)) -> bool)
    ensures SumCounts(Insert(x, r, le)) == x.1 + SumCounts(r)
  {
    if r != [] && !le(x, r[0]) {
      SumCountsInsert(x, r[1..], le);
      assert Insert(x, r, le)[1..] == Insert(x, r[1..], le);
    } else if r != [] {
      assert ([x] + r)[1..] == r;
    }
  }

  /** Sorting a table keeps its total. */
  lemma {:induction false} SumCountsSortBy<K>(r: seq<(K, nat)>, le: ((K, nat), (K, nat)) -> bool)
    ensures SumCounts(SortBy(r, le)) == SumCounts(r)
  {
    if r != [] {
      SumCountsSortBy(r[1..], le);
      SumCountsInsert(r[0], SortBy(r[1..], le), le);
    }
  }

  /** A rearrangement has the same members. */
  lemma PermutationMembers<T>(a: seq<T>, b: seq<T>)
    requires multiset(a) == multiset(b)
    ensures forall x :: x in a <==> x in b
  {
    forall x ensures x in a <==> x in b {
      assert x in a <==> x in multiset(a);
      assert x in b <==> x in multiset(b);
    }
  }

  /** `e` is a value of `s` paired with its count. */
  predicate IsEntry<T(==)>(s: seq<T>, e: (T, nat))
  {
    e.0 in s && e.1 == Count(s, e.0)
  }

  /** The pairs of the tally are the entries of `s`, one for each distinct element. */
  lemma TallyEntries<T>(s: seq<T>)
    ensures forall e :: e in Tally(s) <==> IsEntry(s, e)
  {
    var t := Tally(s);
    TallySpec(s);
    DistinctSpec(s);
    forall e | e in t ensures IsEntry(s, e) {
      var k :| 0 <= k < |t| && t[k] == e;
      assert Keys(t)[k] == e.0;
    }
    forall e | IsEntry(s, e) ensures e in t {
      var k :| 0 <= k < |t| && Keys(t)[k] == e.0;
      assert t[k] == e;
    }
  }

  /** A table whose members are exactly the entries of `s` lists the value of every element
      of `s`. */
  lemma EntriesCover<T>(s: seq<T>, r: seq<(T, nat)>)
    requires forall e :: e in r <==> IsEntry(s, e)
    ensures forall i :: 0 <= i < |r| ==> IsEntry(s, r[i])
    ensures forall x :: x in s ==> x in Keys(r)
  {
    forall x | x in s ensures x in Keys(r) {
      assert IsEntry(s, (x, Count(s, x)));
      var m :| 0 <= m < |r| && r[m] == (x, Count(s, x));
      assert Keys(r)[m] == x;
    }
  }

  /** Entries of one sequence that are pairwise different have pairwise different values. */
  lemma EntriesDistinctKeys<T>(s: seq<T>, r: seq<(T, nat)>)
    requires NoDuplicates(r) && forall i :: 0 <= i < |r| ==> IsEntry(s, r[i])
    ensures NoDuplicates(Keys(r))
  {
    forall i, j | 0 <= i < j < |r| ensures Keys(r)[i] != Keys(r)[j] {
      assert r[i] != r[j];
    }
  }

  /** Any ordering of the tally is still the tally: each distinct element once, with its count,
      and nothing else; the counts add up to the length of the input. */
  lemma SortedTallySpec<T>(s: seq<T>, le: ((T, nat), (T, nat)) -> bool)
    ensures var r := SortBy(Tally(s), le);
      && |r| == |Distinct(s)|
      && NoDuplicates(Keys(r))
      && (forall i :: 0 <= i < |r| ==> r[i].0 in s && r[i].1 == Count(s, r[i].0))
      && (forall x :: x in s ==> x in Keys(r))
      && SumCounts(r) == |s|
  {
    var t := Tally(s);
    var r := SortBy(t, le);
    TallySpec(s);
    assert |t| == |Distinct(s)| by { assert |Keys(t)| == |t|; }
    SumCountsSortBy(t, le);
    SortByPermutes(t, le);
    PermutationMembers(t, r);
    TallyEntries(s);
    EntriesCover(s, r);
    TallyNoDuplicates(s);
    PermutationNoDuplicates(t, r);
    EntriesDistinctKeys(s, r);
  }

  // ---------------------------------------------------------------- value counts

  /** `value_counts()` lists each distinct value once, with its count, most frequent first;
      the counts add up to the length of the input. */
  lemma ValueCountsSpec<T(!new)>(s: seq<T>)
    ensures var r := ValueCounts(s);
      && |r| == |Distinct(s)|
      && NoDuplicates(Keys(r))
      && (forall i :: 0 <= i < |r| ==> r[i].0 in s && r[i].1 == Count(s, r[i].0))
      && (forall x :: x in s ==> x in Keys(r))
      && (forall i, j :: 0 <= i < j < |r| ==> r[i].1 >= r[j].1)
      && SumCounts(r) == |s|
  {
    SortedTallySpec(s, CountDesc);
    SortBySorted(Tally(s), CountDesc);
  }

  /** `value_counts().head(n)`: at most `n` values with their true counts, most frequent
      first, and no value left out occurs more often than any value listed; fewer than `n`
      are listed only when every value is. */
  lemma TopSpec<T(!new)>(s: seq<T>, n: nat)
    ensures var r := Top(s, n);
      && |r| <= n
      && NoDuplicates(Keys(r))
      && (forall i :: 0 <= i < |r| ==> r[i].0 in s && r[i].1 == Count(s, r[i].0))
      && (forall i, j :: 0 <= i < j < |r| ==> r[i].1 >= r[j].1)
      && (forall x :: x in s && x !in Keys(r) ==>
            |r| == n && forall i :: 0 <= i < |r| ==> r[i].1 >= Count(s, x))
  {
    ValueCountsSpec(s);
    TablePrefix(s, ValueCounts(s), n);
  }

  /** The first `n` pairs of a frequency table, most frequent first, are distinct, true and
      ordered, and every value left out occurs no more often than the ones kept. */
  lemma TablePrefix<T>(s: seq<T>, full: seq<(T, nat)>, n: nat)
    requires NoDuplicates(Keys(full))
    requires forall i :: 0 <= i < |full| ==> full[i].0 in s && full[i].1 == Count(s, full[i].0)
    requires forall x :: x in s ==> x in Keys(full)
    requires forall i, j :: 0 <= i < j < |full| ==> full[i].1 >= full[j].1
    ensures var r := Take(full, n);
      && |r| <= n
      && NoDuplicates(Keys(r))
      && (forall i :: 0 <= i < |r| ==> r[i].0 in s && r[i].1 == Count(s, r[i].0))
      && (forall i, j :: 0 <= i < j < |r| ==> r[i].1 >= r[j].1)
      && (forall x :: x in s && x !in Keys(r) ==>
            |r| == n && forall i :: 0 <= i < |r| ==> r[i].1 >= Count(s, x))
  {
    var r := Take(full, n);
    assert forall k :: 0 <= k < |r| ==> r[k] == full[k];
    forall i, j | 0 <= i < j < |r| ensures Keys(r)[i] != Keys(r)[j] {
      assert Keys(full)[i] != Keys(full)[j];
    }
    forall x | x in s && x !in Keys(r)
      ensures |r| == n && forall i :: 0 <= i < |r| ==> r[i].1 >= Count(s, x)
    {
      var m :| 0 <= m < |full| && Keys(full)[m] == x;
      assert m >= |r|;
    }
  }

  // ---------------------------------------------------------------- group sizes

  /** `groupby(...).size()` lists each distinct value once, with its count, in strictly
      increasing order of the values; the counts add up to the length of the input. */
  lemma GroupSizesSpec<T(!new)>(s: seq<T>, keyLe: (T, T) -> bool)
    requires Total(keyLe) && Transitive(keyLe)
    ensures var r := GroupSizes(s, keyLe);
      && |r| == |Distinct(s)|
      && (forall i :: 0 <= i < |r| ==> r[i].0 in s && r[i].1 == Count(s, r[i].0))
      && (forall x :: x in s ==> x in Keys(r))
      && (forall i, j :: 0 <= i < j < |r| ==> keyLe(r[i].0, r[j].0) && r[i].0 != r[j].0)
      && SumCounts(r) == |s|
  {
    var le := (a: (T, nat), b: (T, nat)) => keyLe(a.0, b.0);
    var r := GroupSizes(s, keyLe);
    assert Total(le) by {
      forall a: (T, nat), b: (T, nat) ensures le(a, b) || le(b, a) {
        assert keyLe(a.0, b.0) || keyLe(b.0, a.0);
      }
    }
    assert Transitive(le) by {
      forall a: (T, nat), b: (T, nat), c: (T, nat) | le(a, b) && le(b, c) ensures le(a, c) {
        assert keyLe(a.0, b.0) && keyLe(b.0, c.0);
      }
    }
    SortedTallySpec(s, le);
    SortBySorted(Tally(s), le);
    forall i, j | 0 <= i < j < |r| ensures keyLe(r[i].0, r[j].0) && r[i].0 != r[j].0 {
      assert le(r[i], r[j]);
      assert Keys(r)[i] != Keys(r)[j];
    }
  }
}
