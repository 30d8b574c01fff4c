/** Sequences without repetition, edits at one position, and sizes of finite sets. */
module Sequences {

  ghost predicate NoDup<T>(q: seq<T>) {
    forall i, j :: 0 <= i < j < |q| ==> q[i] != q[j]
  }

  function InsertAt<T>(s: seq<T>, k: nat, x: T): seq<T>
    requires k <= |s|
  {
    s[..k] + [x] + s[k..]
  }

  function Without<T>(s: seq<T>, k: nat): seq<T>
    requires k < |s|
  {
    s[..k] + s[k + 1..]
  }

  lemma InsertAtIs<T>(s: seq<T>, k: nat, x: T, j: nat)
    requires k <= |s| && j <= |s|
    ensures |InsertAt(s, k, x)| == |s| + 1
    ensures InsertAt(s, k, x)[j] == if j < k then s[j] else if j == k then x else s[j - 1]
  {
  }

  lemma WithoutIs<T>(s: seq<T>, k: nat, j: nat)
    requires k < |s| && j < |s| - 1
    ensures |Without(s, k)| == |s| - 1 && Without(s, k)[j] == s[if j < k then j else j + 1]
  {
  }

  function Elements<T(==, !new)>(q: seq<T>): (r: set<T>)
    ensures forall x :: x in r <==> x in q
  {
    set x | x in q
  }

  /** The numbers below `n`. */
  function Below(n: nat): (r: set<nat>)
    ensures |r| == n && forall x: nat :: x in r <==> x < n
  {
    if n == 0 then {} else Below(n - 1) + {n - 1}
  }

  lemma {:induction false} NoDupSize<T(!new)>(q: seq<T>)
    requires NoDup(q)
    ensures |Elements(q)| == |q|
  {
    if q != [] {
      NoDupSize(q[1..]);
      assert Elements(q) == Elements(q[1..]) + {q[0]};
    }
  }

  lemma FullSubset<T>(a: set<T>, b: set<T>)
    requires a <= b && |a| == |b|
    ensures a == b
  {
    assert b == a + (b - a);
  }

  lemma ConcatAssoc<T>(a: seq<T>, b: seq<T>, c: seq<T>)
    ensures a + (b + c) == (a + b) + c
  {
  }

  lemma AnyOf<T>(a: set<T>) returns (x: T)
    requires a != {}
    ensures x in a
  {
    x :| x in a;
  }
}
