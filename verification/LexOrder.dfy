/** The lexicographic order on sequences of code units, in which JavaScript compares strings. */
module LexOrder {

  /** A proper prefix comes first. */
  predicate LexLeq(a: seq<int>, b: seq<int>) {
    a == [] || (b != [] && (a[0] < b[0] || (a[0] == b[0] && LexLeq(a[1..], b[1..]))))
  }

  lemma {:induction false} LexTotal(a: seq<int>, b: seq<int>)
    ensures LexLeq(a, b) || LexLeq(b, a)
    ensures LexLeq(a, b) && LexLeq(b, a) ==> a == b
  {
    if a != [] && b != [] {
      LexTotal(a[1..], b[1..]);
      assert a == [a[0]] + a[1..] && b == [b[0]] + b[1..];
    }
  }

  lemma {:induction false} LexTransitive(a: seq<int>, b: seq<int>, c: seq<int>)
    requires LexLeq(a, b) && LexLeq(b, c)
    ensures LexLeq(a, c)
  {
    if a != [] && a[0] == b[0] == c[0] {
      LexTransitive(a[1..], b[1..], c[1..]);
    }
  }

  /** A proper prefix, or smaller where they first differ. */
  ghost predicate LexSmaller(a: seq<int>, b: seq<int>) {
    a < b || exists i | 0 <= i < |a| && i < |b| :: a[..i] == b[..i] && a[i] < b[i]
  }

  lemma {:induction false} SmallerFrom(a: seq<int>, b: seq<int>, k: nat)
    requires k <= |a| && k <= |b| && a[..k] == b[..k]
    requires k == |a| || (k < |b| && a[k] < b[k])
    ensures LexLeq(a, b)
    decreases k
  {
    if k > 0 {
      assert a[0] == a[..k][0] == b[..k][0] == b[0];
      assert a[1..][..k - 1] == a[..k][1..] && b[1..][..k - 1] == b[..k][1..];
      SmallerFrom(a[1..], b[1..], k - 1);
    }
  }

  lemma LexNotSmaller(a: seq<int>, b: seq<int>)
    requires LexLeq(a, b)
    ensures !LexSmaller(b, a)
  {
    LexTotal(a, b);
    if b < a {
      SmallerFrom(b, a, |b|);
    }
    if i :| 0 <= i < |b| && i < |a| && b[..i] == a[..i] && b[i] < a[i] {
      SmallerFrom(b, a, i);
    }
  }
}
