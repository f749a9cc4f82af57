/** Singleton sets: the rows of a query that must return exactly one. */
module SetBasics {
  /** Neither empty nor a singleton. */
  lemma Several<T(!new)>(s: set<T>)
    ensures s != {} && |s| != 1 <==> exists a, b :: a in s && b in s && a != b
  {
    if a, b :| a in s && b in s && a != b {
      assert s == {a} + (s - {a});
      assert b in s - {a};
    } else if c :| c in s {
      assert s == {c};
    }
  }


  lemma SoleExists<T>(s: set<T>)
    requires |s| == 1
    ensures exists x :: s == {x}
  {
    var x :| x in s;
    assert |s - {x}| == 0;
    assert s == {x};
  }

  function Sole<T>(s: set<T>): (x: T)
    requires |s| == 1
    ensures s == {x}
  {
    SoleExists(s);
    var x :| x in s;
    x
  }

  lemma SubsetSize<T>(a: set<T>, b: set<T>)
    requires a <= b
    ensures |a| <= |b|
    ensures |a| == |b| ==> a == b
  {
    assert b == a + (b - a);
  }

  lemma AtMostOne<T>(s: set<T>, x: T, y: T)
    requires |s| <= 1 && x in s && y in s
    ensures x == y
  {
    SubsetSize({x}, s);
  }
}
