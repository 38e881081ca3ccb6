/** Facts about sequences of anything. */
module Sequences {

  lemma Associate<T>(a: seq<T>, b: seq<T>, c: seq<T>)
    ensures (a + b) + c == a + (b + c)
  {
  }

  /** Different members of b cannot outnumber it. */
  lemma {:induction false} NotMore<T>(a: seq<T>, b: seq<T>)
    requires forall x :: x in a ==> x in b
    requires forall i, j :: 0 <= i < j < |a| ==> a[i] != a[j]
    ensures |a| <= |b|
  {
    if a != [] {
      assert a[0] in b;
      var j :| 0 <= j < |b| && b[j] == a[0];
      var c := b[..j] + b[j + 1..];
      forall x | x in a[1..] ensures x in c {
        assert x in a;
        assert b == b[..j] + [a[0]] + b[j + 1..];
      }
      NotMore(a[1..], c);
    }
  }
}
