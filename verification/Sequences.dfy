/** map and flatMap over sequences. */
module Sequences {

  function MapSeq<T, R>(s: seq<T>, f: T --> R): (r: seq<R>)
    requires forall x | x in s :: f.requires(x)
    ensures |r| == |s|
    ensures forall i | 0 <= i < |s| :: r[i] == f(s[i])
  {
    if s == [] then [] else MapSeq(s[..|s| - 1], f) + [f(s[|s| - 1])]
  }

  function FlatMap<T(!new), R(!new)>(s: seq<T>, f: T -> seq<R>): (r: seq<R>)
    ensures forall y :: y in r <==> exists x | x in s :: y in f(x)
  {
    if s == [] then []
    else
      var front := FlatMap(s[..|s| - 1], f);
      assert s == s[..|s| - 1] + [s[|s| - 1]];
      front + f(s[|s| - 1])
  }

  lemma MapSame<T(!new), R(!new)>(s: seq<T>, f: T --> R, g: T --> R)
    requires forall x | x in s :: f.requires(x) && g.requires(x) && f(x) == g(x)
    ensures MapSeq(s, f) == MapSeq(s, g)
  {
    forall i | 0 <= i < |s| ensures MapSeq(s, f)[i] == MapSeq(s, g)[i] {
      assert s[i] in s;
    }
  }

  lemma {:induction false} FlatMapSame<T(!new), R(!new)>(s: seq<T>, f: T -> seq<R>, g: T -> seq<R>)
    requires forall x | x in s :: f(x) == g(x)
    ensures FlatMap(s, f) == FlatMap(s, g)
  {
    if s != [] {
      assert s == s[..|s| - 1] + [s[|s| - 1]];
      FlatMapSame(s[..|s| - 1], f, g);
    }
  }

  lemma FlatMapEmpty<T(!new), R(!new)>(s: seq<T>, f: T -> seq<R>)
    ensures FlatMap(s, f) != [] <==> exists x | x in s :: f(x) != []
  {
    if FlatMap(s, f) != [] {
      assert FlatMap(s, f)[0] in FlatMap(s, f);
    }
    if x :| x in s && f(x) != [] {
      assert f(x)[0] in f(x);
      assert f(x)[0] in FlatMap(s, f);
    }
  }

  lemma MapSeqNext<T(!new), R(!new)>(s: seq<T>, n: nat, f: T --> R)
    requires n < |s| && forall x | x in s :: f.requires(x)
    ensures MapSeq(s[..n + 1], f) == MapSeq(s[..n], f) + [f(s[n])]
  {
    assert s[..n + 1][..n] == s[..n];
  }

  lemma FlatMapNext<T(!new), R(!new)>(s: seq<T>, n: nat, f: T -> seq<R>)
    requires n < |s|
    ensures FlatMap(s[..n + 1], f) == FlatMap(s[..n], f) + f(s[n])
  {
    assert s[..n + 1][..n] == s[..n];
  }
}
