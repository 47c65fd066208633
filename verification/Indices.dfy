/** Ascending lists of positions, which say what was picked from a list and in what order. */
module Indices {

  predicate Ascending(indices: seq<nat>) {
    forall x, y | 0 <= x < y < |indices| :: indices[x] < indices[y]
  }

  lemma AscendingGrows(indices: seq<nat>, n: nat)
    requires Ascending(indices) && forall i | i in indices :: i < n
    ensures Ascending(indices + [n])
    ensures forall i :: i in indices + [n] <==> i in indices || i == n
  {
    forall x | 0 <= x < |indices|
      ensures indices[x] < n
    {
      assert indices[x] in indices;
    }
  }

  lemma {:induction false} AscendingIsUnique(a: seq<nat>, b: seq<nat>)
    requires Ascending(a) && Ascending(b) && forall i: nat :: i in a <==> i in b
    ensures a == b
  {
    assert (a != [] ==> a[0] in a) && (b != [] ==> b[0] in b);
    if a != [] && b != [] {
      var m, n := |a| - 1, |b| - 1;
      assert a[m] in b && b[n] in a;
      assert a[m] == b[n];
      forall i: nat
        ensures i in a[..m] <==> i in b[..n]
      {
        assert i in a <==> i in a[..m] || i == a[m];
        assert i in b <==> i in b[..n] || i == b[n];
      }
      AscendingIsUnique(a[..m], b[..n]);
    }
  }
}
