/** Order-preserving sublists: `a` is obtained from `b` by leaving elements
    out, which is what `filter` and the first-wins de-duplication produce. */
module Sequences {

  /** `a` is `b` with some elements left out, the rest kept in order. */
  ghost predicate IsSubsequence<T>(a: seq<T>, b: seq<T>)
    decreases |b|
  {
    if a == [] then true
    else if b == [] then false
    else if a[|a| - 1] == b[|b| - 1] then IsSubsequence(a[..|a| - 1], b[..|b| - 1])
    else IsSubsequence(a, b[..|b| - 1])
  }

  lemma {:induction false} SubsequenceMembers<T>(a: seq<T>, b: seq<T>)
    requires IsSubsequence(a, b)
    ensures |a| <= |b|
    ensures forall x :: x in a ==> x in b
    decreases |b|
  {
    if a != [] {
      assert b != [];
      if a[|a| - 1] == b[|b| - 1] {
        SubsequenceMembers(a[..|a| - 1], b[..|b| - 1]);
        assert a == a[..|a| - 1] + [a[|a| - 1]];
        assert b == b[..|b| - 1] + [b[|b| - 1]];
      } else {
        SubsequenceMembers(a, b[..|b| - 1]);
        assert b == b[..|b| - 1] + [b[|b| - 1]];
      }
    }
  }

  /** A longer list still contains the sublist. */
  lemma {:induction false} SubsequenceDropLast<T>(a: seq<T>, b: seq<T>, x: T)
    requires IsSubsequence(a, b)
    ensures IsSubsequence(a, b + [x])
    decreases |b|, 1
  {
    var bx := b + [x];
    assert bx[..|bx| - 1] == b;
    if a != [] && a[|a| - 1] == x {
      SubsequenceLoosen(a[..|a| - 1], a, b);
    }
  }

  lemma {:induction false} SubsequenceLoosen<T>(a0: seq<T>, a: seq<T>, b: seq<T>)
    requires a != [] && a0 == a[..|a| - 1] && IsSubsequence(a, b)
    ensures IsSubsequence(a0, b)
    decreases |b|, 0
  {
    if a0 != [] {
      assert b != [];
      var b0 := b[..|b| - 1];
      if a[|a| - 1] == b[|b| - 1] {
        SubsequenceDropLast(a0, b0, b[|b| - 1]);
        assert b0 + [b[|b| - 1]] == b;
      } else {
        SubsequenceLoosen(a0, a, b0);
        SubsequenceDropLast(a0, b0, b[|b| - 1]);
        assert b0 + [b[|b| - 1]] == b;
      }
    }
  }
}
