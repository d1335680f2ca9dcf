/**
 What several components share: optional values, the order of std::pair, the first
 element of an ordered container, and sizes.
 */
module Collections {
  datatype Option<T> = None | Some(value: T)

  type Pair = (nat, nat)

  // Lexicographic, as std::pair compares.
  predicate Before(a: Pair, b: Pair) {
    a.0 < b.0 || (a.0 == b.0 && a.1 < b.1)
  }

  function Min(a: int, b: int): int {
    if a < b then a else b
  }

  function Max(a: int, b: int): int {
    if a < b then b else a
  }

  ghost predicate Distinct<T(!new)>(s: seq<T>) {
    forall i, j :: 0 <= i < j < |s| ==> s[i] != s[j]
  }

  function KeySet<T(==)>(keys: seq<T>): set<T> {
    set k | k in keys
  }

  predicate IsLeast(s: set<nat>, x: nat) {
    x in s && forall y :: y in s ==> x <= y
  }

  predicate IsLeastPair(s: set<Pair>, x: Pair) {
    x in s && forall y :: y in s && y != x ==> Before(x, y)
  }

  lemma LeastExists(s: set<nat>)
    requires s != {}
    ensures exists x :: IsLeast(s, x)
  {
    var x :| x in s;
    while exists y :: y in s && y < x
      invariant x in s
      decreases x
    {
      var y :| y in s && y < x;
      x := y;
    }
    assert IsLeast(s, x);
  }

  lemma LeastPairExists(s: set<Pair>)
    requires s != {}
    ensures exists x :: IsLeastPair(s, x)
  {
    var x :| x in s;
    while exists y :: y in s && Before(y, x)
      invariant x in s
      decreases x.0, x.1
    {
      var y :| y in s && Before(y, x);
      x := y;
    }
    assert IsLeastPair(s, x);
  }

  lemma {:induction false} SubsetSize<T>(a: set<T>, b: set<T>)
    requires a <= b
    ensures |a| <= |b|
    decreases b
  {
    if b != {} {
      var x :| x in b;
      SubsetSize(a - {x}, b - {x});
      assert x in a ==> a == (a - {x}) + {x};
    }
  }
}
