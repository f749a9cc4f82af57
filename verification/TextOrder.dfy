/** The order in which sort() arranges strings, and the sorted sequence of a set of strings. */
module TextOrder {
  import opened LexOrder
  import opened StableSort

  function Codes(s: string): seq<int> {
    seq(|s|, i requires 0 <= i < |s| => s[i] as int)
  }

  predicate Leq(a: string, b: string) {
    LexLeq(Codes(a), Codes(b))
  }

  lemma LeqTotal(a: string, b: string)
    ensures Leq(a, b) || Leq(b, a)
    ensures Leq(a, b) && Leq(b, a) ==> a == b
  {
    LexTotal(Codes(a), Codes(b));
    if Codes(a) == Codes(b) {
      assert |Codes(a)| == |Codes(b)|;
      forall i | 0 <= i < |a| ensures a[i] == b[i] {
        assert Codes(a)[i] == Codes(b)[i];
      }
    }
  }

  lemma LeqTransitive(a: string, b: string, c: string)
    requires Leq(a, b) && Leq(b, c)
    ensures Leq(a, c)
  {
    LexTransitive(Codes(a), Codes(b), Codes(c));
  }

  lemma LeqIsTotalPreorder()
    ensures TotalPreorder(Leq)
  {
    forall x, y ensures Leq(x, y) || Leq(y, x) {
      LeqTotal(x, y);
    }
    forall x, y, z | Leq(x, y) && Leq(y, z) ensures Leq(x, z) {
      LeqTransitive(x, y, z);
    }
  }

  lemma LeqHasNoTies(s: seq<string>)
    ensures NoTies(s, Leq)
  {
    forall x, y | x in s && y in s && Leq(x, y) && Leq(y, x) ensures x == y {
      LeqTotal(x, y);
    }
  }

  /** A proper prefix, or smaller where they first differ. */
  ghost predicate Smaller(a: string, b: string) {
    a < b || exists i | 0 <= i < |a| && i < |b| :: a[..i] == b[..i] && a[i] < b[i]
  }

  lemma SmallerCodes(a: string, b: string)
    requires Smaller(a, b)
    ensures LexSmaller(Codes(a), Codes(b))
  {
    if a < b {
      assert Codes(a) == Codes(b)[..|a|];
    } else {
      var i :| 0 <= i < |a| && i < |b| && a[..i] == b[..i] && a[i] < b[i];
      assert Codes(a)[..i] == Codes(a[..i]) && Codes(b)[..i] == Codes(b[..i]);
    }
  }

  lemma NotSmaller(a: string, b: string)
    requires Leq(a, b)
    ensures !Smaller(b, a)
  {
    LexNotSmaller(Codes(a), Codes(b));
    if Smaller(b, a) {
      SmallerCodes(b, a);
    }
  }

  // ---------- the sorted sequence of a set ----------

  ghost predicate IsLeast(m: string, s: set<string>) {
    m in s && forall x | x in s :: Leq(m, x)
  }

  lemma {:induction false} LeastExists(s: set<string>)
    requires s != {}
    ensures exists m :: IsLeast(m, s)
    decreases |s|
  {
    var x :| x in s;
    LeqTotal(x, x);
    if s == {x} {
      assert IsLeast(x, s);
    } else {
      assert s - {x} != {};
      LeastExists(s - {x});
      var m :| IsLeast(m, s - {x});
      LeqTotal(x, m);
      if Leq(x, m) {
        forall y | y in s ensures Leq(x, y) {
          if y != x {
            LeqTransitive(x, m, y);
          }
        }
        assert IsLeast(x, s);
      } else {
        assert IsLeast(m, s);
      }
    }
  }

  ghost function Least(s: set<string>): (m: string)
    requires s != {}
    ensures IsLeast(m, s)
  {
    LeastExists(s);
    var m :| IsLeast(m, s);
    m
  }

  ghost function SortedSeq(s: set<string>): (t: seq<string>)
    ensures forall x :: x in t <==> x in s
    ensures |t| == |s|
    decreases |s|
  {
    if s == {} then []
    else
      var m := Least(s);
      [m] + SortedSeq(s - {m})
  }

  lemma {:induction false} SortedSeqIsSorted(s: set<string>)
    ensures Sorted(SortedSeq(s), Leq) && Distinct(SortedSeq(s))
    decreases |s|
  {
    if s != {} {
      var m := Least(s);
      var rest := SortedSeq(s - {m});
      SortedSeqIsSorted(s - {m});
      forall x | x in rest ensures Leq(m, x) && x != m {}
      ConsSorted(m, rest);
    }
  }

  lemma ConsSorted(m: string, rest: seq<string>)
    requires Sorted(rest, Leq) && Distinct(rest) && forall x | x in rest :: Leq(m, x) && x != m
    ensures Sorted([m] + rest, Leq) && Distinct([m] + rest)
  {
    var all := [m] + rest;
    forall i, j | 0 <= i < j < |all| ensures Leq(all[i], all[j]) && all[i] != all[j] {
      assert all[j] == rest[j - 1];
      if i > 0 {
        assert all[i] == rest[i - 1];
      }
    }
  }

  /** Sorting any listing of a set without repetition gives the same sequence. */
  lemma SortGivesSortedSeq(listed: seq<string>, s: set<string>)
    requires Distinct(listed) && forall x :: x in listed <==> x in s
    ensures Sort(listed, Leq) == SortedSeq(s)
  {
    LeqIsTotalPreorder();
    SortSorts(listed, Leq);
    SortPermutes(listed, Leq);
    SortedSeqIsSorted(s);
    DistinctMultiset(listed, SortedSeq(s));
    LeqHasNoTies(Sort(listed, Leq));
    SortedIsUnique(Sort(listed, Leq), SortedSeq(s), Leq);
  }
}
