/** Ordering helpers: Python's comparison of strings, and the stable sort that `list.sort`,
    `sorted` and the pandas sorts used by the pipeline perform. */
module Sorting {

  /** Python's `a <= b` on str: code point by code point, a proper prefix first. */
  predicate LexLe(a: string, b: string)
    decreases |a|
  {
    a == [] || (b != [] && (a[0] < b[0] || (a[0] == b[0] && LexLe(a[1..], b[1..]))))
  }

  lemma {:induction false} LexLeTotal(a: string, b: string)
    ensures LexLe(a, b) || LexLe(b, a)
    decreases |a|
  {
    if a != [] && b != [] && a[0] == b[0] {
      LexLeTotal(a[1..], b[1..]);
    }
  }

  lemma {:induction false} LexLeTransitive(a: string, b: string, c: string)
    requires LexLe(a, b) && LexLe(b, c)
    ensures LexLe(a, c)
    decreases |a|
  {
    if a != [] && b != [] && c != [] && a[0] == b[0] == c[0] {
      LexLeTransitive(a[1..], b[1..], c[1..]);
    }
  }

  lemma {:induction false} LexLeAntisymmetric(a: string, b: string)
    requires LexLe(a, b) && LexLe(b, a)
    ensures a == b
    decreases |a|
  {
    if a != [] {
      LexLeAntisymmetric(a[1..], b[1..]);
      assert a == [a[0]] + a[1..] && b == [b[0]] + b[1..];
    }
  }

  ghost predicate Total<T(!new)>(le: (T, T) -> bool)
  {
    forall a, b :: le(a, b) || le(b, a)
  }

  ghost predicate Transitive<T(!new)>(le: (T, T) -> bool)
  {
    forall a, b, c :: le(a, b) && le(b, c) ==> le(a, c)
  }

  /** Every element is `le` every later one. */
  predicate SortedBy<T>(s: seq<T>, le: (T, T) -> bool)
  {
    forall i, j :: 0 <= i < j < |s| ==> le(s[i], s[j])
  }

  /** `x` inserted before the first element it is `le`; an element that ties with `x` and is
      already in `s` stays behind it. */
  function Insert<T>(x: T, s: seq<T>, le: (T, T) -> bool): (r: seq<T>)
    ensures |r| == |s| + 1
  {
    if s == [] then [x] else if le(x, s[0]) then [x] + s else [s[0]] + Insert(x, s[1..], le)
  }

  /** The stable sort by `le`: the sorted order in which elements that tie keep their order of
      appearance in `s`. */
  function SortBy<T>(s: seq<T>, le: (T, T) -> bool): (r: seq<T>)
    ensures |r| == |s|
  {
    if s == [] then [] else Insert(s[0], SortBy(s[1..], le), le)
  }

  /** The elements of `s` that tie with `z`, in order. */
  function TiesWith<T>(s: seq<T>, z: T, le: (T, T) -> bool): seq<T>
  {
    if s == [] then [] else (if le(s[0], z) && le(z, s[0]) then [s[0]] else []) + TiesWith(s[1..], z, le)
  }

  lemma {:induction false} InsertPermutes<T>(x: T, s: seq<T>, le: (T, T) -> bool)
    ensures multiset(Insert(x, s, le)) == multiset([x] + s)
  {
    if s != [] && !le(x, s[0]) {
      InsertPermutes(x, s[1..], le);
      assert s == [s[0]] + s[1..];
      calc {
        multiset(Insert(x, s, le));
        multiset([s[0]]) + multiset(Insert(x, s[1..], le));
        multiset([s[0]]) + multiset([x]) + multiset(s[1..]);
        multiset([x]) + multiset(s);
      }
    }
  }

  /** The sort is a permutation of its input. */
  lemma {:induction false} SortByPermutes<T>(s: seq<T>, le: (T, T) -> bool)
    ensures multiset(SortBy(s, le)) == multiset(s)
  {
    if s != [] {
      SortByPermutes(s[1..], le);
      InsertPermutes(s[0], SortBy(s[1..], le), le);
      assert s == [s[0]] + s[1..];
    }
  }

  lemma {:induction false} InsertSorted<T(!new)>(x: T, s: seq<T>, le: (T, T) -> bool)
    requires Total(le) && Transitive(le) && SortedBy(s, le)
    ensures SortedBy(Insert(x, s, le), le)
  {
    if s != [] && !le(x, s[0]) {
      var t := s[1..];
      InsertSorted(x, t, le);
      InsertPermutes(x, t, le);
      var r := Insert(x, s, le);
      var u := Insert(x, t, le);
      assert r == [s[0]] + u;
      forall k | 0 <= k < |u| ensures le(s[0], u[k]) {
        assert u[k] in multiset([x] + t);
        if u[k] != x {
          var m :| 0 <= m < |t| && t[m] == u[k];
          assert t[m] == s[m + 1];
        }
      }
    }
  }

  /** The sort orders its input, for a total and transitive `le`. */
  lemma {:induction false} SortBySorted<T(!new)>(s: seq<T>, le: (T, T) -> bool)
    requires Total(le) && Transitive(le)
    ensures SortedBy(SortBy(s, le), le)
  {
    if s != [] {
      SortBySorted(s[1..], le);
      InsertSorted(s[0], SortBy(s[1..], le), le);
    }
  }

  lemma {:induction false} TiesWithAppend<T>(a: seq<T>, b: seq<T>, z: T, le: (T, T) -> bool)
    ensures TiesWith(a + b, z, le) == TiesWith(a, z, le) + TiesWith(b, z, le)
  {
    if a != [] {
      assert (a + b)[1..] == a[1..] + b;
      TiesWithAppend(a[1..], b, z, le);
    } else {
      assert a + b == b;
    }
  }

  lemma {:induction false} InsertStable<T(!new)>(x: T, s: seq<T>, z: T, le: (T, T) -> bool)
    requires Transitive(le)
    ensures TiesWith(Insert(x, s, le), z, le) == TiesWith([x] + s, z, le)
  {
    if s != [] && !le(x, s[0]) {
      InsertStable(x, s[1..], z, le);
      TiesWithAppend([s[0]], Insert(x, s[1..], le), z, le);
      TiesWithAppend([x], s[1..], z, le);
      TiesWithAppend([x], s, z, le);
      assert s == [s[0]] + s[1..];
      TiesWithAppend([s[0]], s[1..], z, le);
      if le(x, z) && le(z, x) {
        // s[0] cannot tie with z: it would then tie with x, and `le(x, s[0])` would hold
        assert !(le(s[0], z) && le(z, s[0]));
      } else {
        assert TiesWith([x], z, le) == [];
      }
    }
  }

  /** The sort is stable: the elements that tie with any `z` come out in the order they went in. */
  lemma {:induction false} SortByStable<T(!new)>(s: seq<T>, z: T, le: (T, T) -> bool)
    requires Transitive(le)
    ensures TiesWith(SortBy(s, le), z, le) == TiesWith(s, z, le)
  {
    if s != [] {
      SortByStable(s[1..], z, le);
      InsertStable(s[0], SortBy(s[1..], le), z, le);
      TiesWithAppend([s[0]], SortBy(s[1..], le), z, le);
      TiesWithAppend([s[0]], s[1..], z, le);
      assert s == [s[0]] + s[1..];
    }
  }
}
