/** Facts about sequences and finite ranges shared by the other modules. */
module Sequences {

  predicate NoDup<T(==)>(l: seq<T>) {
    forall j, k :: 0 <= j < k < |l| ==> l[j] != l[k]
  }

  ghost function Below(n: nat): (r: set<nat>)
    ensures |r| == n
    ensures forall i: nat :: i in r <==> i < n
  {
    if n == 0 then {} else Below(n - 1) + {n - 1}
  }

  ghost function Elements<T>(l: seq<T>): set<T> {
    set x | x in l
  }

  lemma {:induction false} ElementsOfNoDup<T>(l: seq<T>)
    requires NoDup(l)
    ensures |Elements(l)| == |l|
  {
    if l == [] {
      assert Elements(l) == {};
    } else {
      var t := l[..|l| - 1];
      ElementsOfNoDup(t);
      assert l == t + [l[|l| - 1]];
      assert Elements(l) == Elements(t) + {l[|l| - 1]};
    }
  }

  lemma SubsetSize<T>(a: set<T>, b: set<T>)
    requires a <= b
    ensures |a| <= |b|
  {
    assert b == a + (b - a);
  }
}
