/** Filtering and stable sorting of sequences, as JavaScript's filter and sort do them. */
module StableSort {

  function Filter<T(!new)>(s: seq<T>, keep: T -> bool): (kept: seq<T>)
    ensures forall x :: x in kept <==> x in s && keep(x)
  {
    if s == [] then []
    else
      var front := Filter(s[..|s| - 1], keep);
      assert s == s[..|s| - 1] + [s[|s| - 1]];
      if keep(s[|s| - 1]) then front + [s[|s| - 1]] else front
  }

  lemma {:induction false} FilterAppend<T(!new)>(s: seq<T>, t: seq<T>, keep: T -> bool)
    ensures Filter(s + t, keep) == Filter(s, keep) + Filter(t, keep)
    decreases |t|
  {
    if t == [] {
      assert s + t == s;
    } else {
      assert (s + t)[..|s + t| - 1] == s + t[..|t| - 1];
      FilterAppend(s, t[..|t| - 1], keep);
    }
  }

  lemma {:induction false} FilterSame<T(!new)>(s: seq<T>, f: T -> bool, g: T -> bool)
    requires forall x :: f(x) == g(x)
    ensures Filter(s, f) == Filter(s, g)
  {
    if s != [] {
      FilterSame(s[..|s| - 1], f, g);
    }
  }

  lemma {:induction false} FilterTwice<T(!new)>(s: seq<T>, f: T -> bool, g: T -> bool, both: T -> bool)
    requires forall x :: both(x) <==> f(x) && g(x)
    ensures Filter(Filter(s, f), g) == Filter(s, both)
  {
    if s != [] {
      FilterTwice(s[..|s| - 1], f, g, both);
      if f(s[|s| - 1]) {
        var front := Filter(s[..|s| - 1], f);
        assert (front + [s[|s| - 1]])[..|front|] == front;
      }
    }
  }

  lemma FilterNext<T(!new)>(s: seq<T>, n: nat, keep: T -> bool)
    requires n < |s|
    ensures Filter(s[..n + 1], keep) == Filter(s[..n], keep) + if keep(s[n]) then [s[n]] else []
  {
    assert s[..n + 1][..n] == s[..n];
  }

  /** A comparator's total preorder: le(x, y) when x need not come after y. */
  ghost predicate TotalPreorder<T(!new)>(le: (T, T) -> bool) {
    && (forall x, y :: le(x, y) || le(y, x))
    && (forall x, y, z :: le(x, y) && le(y, z) ==> le(x, z))
  }

  ghost predicate Sorted<T(!new)>(s: seq<T>, le: (T, T) -> bool) {
    forall i, j | 0 <= i < j < |s| :: le(s[i], s[j])
  }

  /** Insert x after every element that need not come after it. */
  function Insert<T(!new)>(s: seq<T>, x: T, le: (T, T) -> bool): seq<T> {
    if s == [] then [x]
    else if le(s[|s| - 1], x) then s + [x]
    else Insert(s[..|s| - 1], x, le) + [s[|s| - 1]]
  }

  function Sort<T(!new)>(s: seq<T>, le: (T, T) -> bool): seq<T> {
    if s == [] then [] else Insert(Sort(s[..|s| - 1], le), s[|s| - 1], le)
  }

  lemma {:induction false} InsertPermutes<T(!new)>(s: seq<T>, x: T, le: (T, T) -> bool)
    ensures multiset(Insert(s, x, le)) == multiset(s) + multiset{x}
  {
    if s != [] && !le(s[|s| - 1], x) {
      InsertPermutes(s[..|s| - 1], x, le);
      assert s == s[..|s| - 1] + [s[|s| - 1]];
    }
  }

  lemma {:induction false} SortPermutes<T(!new)>(s: seq<T>, le: (T, T) -> bool)
    ensures multiset(Sort(s, le)) == multiset(s)
    ensures |Sort(s, le)| == |s|
    ensures forall x :: x in Sort(s, le) <==> x in s
  {
    if s != [] {
      SortPermutes(s[..|s| - 1], le);
      InsertPermutes(Sort(s[..|s| - 1], le), s[|s| - 1], le);
      assert s == s[..|s| - 1] + [s[|s| - 1]];
    }
    SameMembers(Sort(s, le), s);
  }

  lemma SameMembers<T(!new)>(s: seq<T>, t: seq<T>)
    requires multiset(s) == multiset(t)
    ensures |s| == |t|
    ensures forall x :: x in s <==> x in t
  {
    assert |multiset(s)| == |multiset(t)|;
    forall x ensures x in s <==> x in t {
      assert x in s <==> x in multiset(s);
      assert x in t <==> x in multiset(t);
    }
  }

  lemma AppendSorted<T(!new)>(s: seq<T>, y: T, le: (T, T) -> bool)
    requires Sorted(s, le) && forall x | x in s :: le(x, y)
    ensures Sorted(s + [y], le)
  {
    var all := s + [y];
    forall i, j | 0 <= i < j < |all| ensures le(all[i], all[j]) {
      if j < |s| {
        assert le(s[i], s[j]);
      } else {
        assert s[i] in s;
      }
    }
  }

  lemma {:induction false} InsertSorts<T(!new)>(s: seq<T>, x: T, le: (T, T) -> bool)
    requires TotalPreorder(le) && Sorted(s, le)
    ensures Sorted(Insert(s, x, le), le)
  {
    if s == [] {
    } else if le(s[|s| - 1], x) {
      forall y | y in s ensures le(y, x) {
        LastIsGreatest(s, le, y);
      }
      AppendSorted(s, x, le);
    } else {
      var front, last := s[..|s| - 1], s[|s| - 1];
      InsertSorts(front, x, le);
      InsertPermutes(front, x, le);
      forall y | y in Insert(front, x, le) ensures le(y, last) {
        assert y in multiset(Insert(front, x, le));
        assert y in front || y == x;
        if y in front {
          LastIsGreatest(s, le, y);
        }
      }
      AppendSorted(Insert(front, x, le), last, le);
    }
  }

  lemma LastIsGreatest<T(!new)>(s: seq<T>, le: (T, T) -> bool, y: T)
    requires TotalPreorder(le) && Sorted(s, le) && y in s
    ensures le(y, s[|s| - 1])
  {
    var i :| 0 <= i < |s| && s[i] == y;
    if i < |s| - 1 {
      assert le(s[i], s[|s| - 1]);
    }
  }

  lemma {:induction false} SortSorts<T(!new)>(s: seq<T>, le: (T, T) -> bool)
    requires TotalPreorder(le)
    ensures Sorted(Sort(s, le), le)
  {
    if s != [] {
      SortSorts(s[..|s| - 1], le);
      InsertSorts(Sort(s[..|s| - 1], le), s[|s| - 1], le);
    }
  }

  /** The elements that tie with x. */
  function Ties<T(!new)>(x: T, le: (T, T) -> bool): T -> bool {
    y => le(x, y) && le(y, x)
  }

  lemma {:induction false} InsertKeepsTies<T(!new)>(s: seq<T>, x: T, y: T, le: (T, T) -> bool)
    requires TotalPreorder(le) && Sorted(s, le)
    ensures Filter(Insert(s, x, le), Ties(y, le)) == Filter(s + [x], Ties(y, le))
  {
    if s != [] && !le(s[|s| - 1], x) {
      var front, last := s[..|s| - 1], s[|s| - 1];
      InsertKeepsTies(front, x, y, le);
      assert Insert(s, x, le)[..|Insert(s, x, le)| - 1] == Insert(front, x, le);
      assert (s + [x])[..|s|] == s && (front + [x])[..|front|] == front;
      assert !(Ties(y, le)(x) && Ties(y, le)(last));
    }
  }

  /** Elements that tie keep their order. */
  lemma {:induction false} SortIsStable<T(!new)>(s: seq<T>, y: T, le: (T, T) -> bool)
    requires TotalPreorder(le)
    ensures Filter(Sort(s, le), Ties(y, le)) == Filter(s, Ties(y, le))
  {
    if s != [] {
      var front, last := s[..|s| - 1], s[|s| - 1];
      SortIsStable(front, y, le);
      SortSorts(front, le);
      InsertKeepsTies(Sort(front, le), last, y, le);
      FilterAppend(Sort(front, le), [last], Ties(y, le));
      FilterAppend(front, [last], Ties(y, le));
      assert s == front + [last];
    }
  }

  /** No two different elements tie. */
  ghost predicate NoTies<T(!new)>(s: seq<T>, le: (T, T) -> bool) {
    forall x, y | x in s && y in s && le(x, y) && le(y, x) :: x == y
  }

  /** Without ties there is only one sorted arrangement of the same elements. */
  lemma {:induction false} SortedIsUnique<T(!new)>(s: seq<T>, t: seq<T>, le: (T, T) -> bool)
    requires Sorted(s, le) && Sorted(t, le) && multiset(s) == multiset(t) && NoTies(s, le)
    ensures s == t
  {
    SameMembers(s, t);
    if s != [] {
      SameFirst(s, t, le);
      TailMultiset(s);
      TailMultiset(t);
      assert NoTies(s[1..], le);
      SortedIsUnique(s[1..], t[1..], le);
      assert s == [s[0]] + s[1..] && t == [t[0]] + t[1..];
    }
  }

  lemma TailMultiset<T(!new)>(s: seq<T>)
    requires s != []
    ensures multiset(s[1..]) == multiset(s) - multiset{s[0]}
  {
    assert s == [s[0]] + s[1..];
  }

  lemma SameFirst<T(!new)>(s: seq<T>, t: seq<T>, le: (T, T) -> bool)
    requires s != [] && t != [] && s[0] in t && t[0] in s
    requires Sorted(s, le) && Sorted(t, le) && NoTies(s, le)
    ensures s[0] == t[0]
  {
    FirstIsLeast(s, le, t[0]);
    FirstIsLeast(t, le, s[0]);
  }

  lemma FirstIsLeast<T(!new)>(s: seq<T>, le: (T, T) -> bool, x: T)
    requires Sorted(s, le) && x in s
    ensures x == s[0] || le(s[0], x)
  {
    var i :| 0 <= i < |s| && s[i] == x;
    if i > 0 {
      assert le(s[0], s[i]);
    }
  }

  /** Sorting commutes with a change of elements that keeps the order. */
  lemma {:induction false} SortImages<T(!new), U(!new)>(s: seq<T>, t: seq<U>, f: T -> U, le: (T, T) -> bool, leU: (U, U) -> bool)
    requires |s| == |t| && forall i | 0 <= i < |s| :: t[i] == f(s[i])
    requires forall x, y :: leU(f(x), f(y)) == le(x, y)
    ensures |Sort(t, leU)| == |Sort(s, le)| && forall i | 0 <= i < |Sort(s, le)| :: Sort(t, leU)[i] == f(Sort(s, le)[i])
  {
    if s != [] {
      var n := |s| - 1;
      SortImages(s[..n], t[..n], f, le, leU);
      InsertImages(Sort(s[..n], le), Sort(t[..n], leU), s[n], f, le, leU);
    }
  }

  lemma {:induction false} InsertImages<T(!new), U(!new)>(s: seq<T>, t: seq<U>, x: T, f: T -> U, le: (T, T) -> bool, leU: (U, U) -> bool)
    requires |s| == |t| && forall i | 0 <= i < |s| :: t[i] == f(s[i])
    requires forall x, y :: leU(f(x), f(y)) == le(x, y)
    ensures |Insert(t, f(x), leU)| == |Insert(s, x, le)|
    ensures forall i | 0 <= i < |Insert(s, x, le)| :: Insert(t, f(x), leU)[i] == f(Insert(s, x, le)[i])
  {
    if s != [] && !le(s[|s| - 1], x) {
      InsertImages(s[..|s| - 1], t[..|s| - 1], x, f, le, leU);
    }
  }

  // ---------- distinct elements ----------

  ghost predicate Distinct<T(!new)>(s: seq<T>) {
    forall i, j | 0 <= i < j < |s| :: s[i] != s[j]
  }

  lemma {:induction false} DistinctCounts<T(!new)>(s: seq<T>)
    ensures Distinct(s) <==> forall x :: multiset(s)[x] <= 1
  {
    if s != [] {
      var front, last := s[..|s| - 1], s[|s| - 1];
      assert s == front + [last];
      DistinctCounts(front);
      if last in front {
        assert multiset(s)[last] >= 2;
      } else {
        assert multiset(front)[last] == 0;
        assert Distinct(front) ==> Distinct(s);
      }
      if !Distinct(front) {
        var x :| multiset(front)[x] > 1;
        assert multiset(s)[x] > 1;
      }
    }
  }

  lemma DistinctPermuted<T(!new)>(s: seq<T>, t: seq<T>)
    requires Distinct(s) && multiset(s) == multiset(t)
    ensures Distinct(t)
  {
    DistinctCounts(s);
    DistinctCounts(t);
  }

  lemma {:induction false} FilterKeepsDistinct<T(!new)>(s: seq<T>, keep: T -> bool)
    requires Distinct(s)
    ensures Distinct(Filter(s, keep))
  {
    if s != [] {
      var front, last := s[..|s| - 1], s[|s| - 1];
      FilterKeepsDistinct(front, keep);
      assert last !in front;
    }
  }

  lemma DistinctMultiset<T(!new)>(s: seq<T>, t: seq<T>)
    requires Distinct(s) && Distinct(t) && forall x :: x in s <==> x in t
    ensures multiset(s) == multiset(t)
  {
    DistinctCounts(s);
    DistinctCounts(t);
    forall x ensures multiset(s)[x] == multiset(t)[x] {
      assert x in s <==> x in multiset(s);
      assert x in t <==> x in multiset(t);
    }
  }
}
