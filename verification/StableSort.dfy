/** Ordered insertion into a sequence, and the stable sort that repeated insertion computes.
    Comparison functions return a negative, zero or positive number, as in the C library. */
module StableSort {
  import opened Sequences

  /** A comparison function callers may pass: consistent in both directions, and a total preorder. */
  ghost predicate Comparison<T(!new)>(cmp: (T, T) -> int) {
    && (forall x, y :: cmp(x, y) <= 0 <==> cmp(y, x) >= 0)
    && (forall x, y, z :: cmp(x, y) <= 0 && cmp(y, z) <= 0 ==> cmp(x, z) <= 0)
  }

  /** The same comparison asked with the arguments swapped, as the singly linked list does. */
  function Flip<T>(cmp: (T, T) -> int): (T, T) -> int {
    (x, y) => -cmp(y, x)
  }

  /** Before the first element that is strictly greater. */
  function Insert<T>(s: seq<T>, x: T, cmp: (T, T) -> int): seq<T> {
    if s == [] then [x]
    else if cmp(s[0], x) <= 0 then [s[0]] + Insert(s[1..], x, cmp)
    else [x] + s
  }

  /** Inserting the elements of a sequence one after the other into an empty list. */
  function InsertAll<T>(s: seq<T>, cmp: (T, T) -> int): seq<T> {
    if s == [] then [] else Insert(InsertAll(s[..|s| - 1], cmp), s[|s| - 1], cmp)
  }

  ghost predicate Sorted<T>(s: seq<T>, cmp: (T, T) -> int) {
    forall i, j :: 0 <= i < j < |s| ==> cmp(s[i], s[j]) <= 0
  }

  /** The elements that compare equal to `p`, in order. */
  function Class<T>(s: seq<T>, p: T, cmp: (T, T) -> int): seq<T> {
    if s == [] then []
    else if cmp(s[0], p) == 0 then [s[0]] + Class(s[1..], p, cmp)
    else Class(s[1..], p, cmp)
  }

  /** Sorted, and elements that compare equal keep the order they had. */
  ghost predicate StableSortOf<T(!new)>(r: seq<T>, s: seq<T>, cmp: (T, T) -> int) {
    Sorted(r, cmp) && forall p :: Class(r, p, cmp) == Class(s, p, cmp)
  }

  // ----- Insertion --------------------------------------------------------------------------

  lemma {:induction false} SameInsertion<T(!new)>(s: seq<T>, x: T, cmp: (T, T) -> int)
    requires Comparison(cmp)
    ensures Insert(s, x, Flip(cmp)) == Insert(s, x, cmp)
  {
    if s != [] {
      SameInsertion(s[1..], x, cmp);
    }
  }

  /** Where an element goes in, told by position. */
  lemma {:induction false} InsertSplits<T>(s: seq<T>, k: nat, x: T, cmp: (T, T) -> int)
    requires k <= |s| && (forall j :: 0 <= j < k ==> cmp(s[j], x) <= 0) && (k < |s| ==> cmp(s[k], x) > 0)
    ensures Insert(s, x, cmp) == InsertAt(s, k, x)
  {
    if k > 0 {
      InsertSplits(s[1..], k - 1, x, cmp);
      assert s == [s[0]] + s[1..];
    }
  }

  lemma {:induction false} InsertElements<T>(s: seq<T>, x: T, cmp: (T, T) -> int)
    ensures multiset(Insert(s, x, cmp)) == multiset(s) + multiset{x}
    ensures |Insert(s, x, cmp)| == |s| + 1
  {
    if s != [] {
      InsertElements(s[1..], x, cmp);
      assert s == [s[0]] + s[1..];
    }
  }

  lemma SortedCons<T>(x: T, s: seq<T>, cmp: (T, T) -> int)
    requires Sorted(s, cmp) && forall j :: 0 <= j < |s| ==> cmp(x, s[j]) <= 0
    ensures Sorted([x] + s, cmp)
  {
  }

  lemma {:induction false} InsertSorted<T(!new)>(s: seq<T>, x: T, cmp: (T, T) -> int)
    requires Comparison(cmp) && Sorted(s, cmp)
    ensures Sorted(Insert(s, x, cmp), cmp)
  {
    if s != [] {
      if cmp(s[0], x) <= 0 {
        var rest := Insert(s[1..], x, cmp);
        InsertSorted(s[1..], x, cmp);
        InsertElements(s[1..], x, cmp);
        forall j | 0 <= j < |rest| ensures cmp(s[0], rest[j]) <= 0 {
          assert rest[j] in multiset(rest);
          assert rest[j] in s[1..] || rest[j] == x;
        }
        hide Sorted, Comparison, Insert;
        SortedCons(s[0], rest, cmp);
      } else {
        assert cmp(s[0], s[0]) <= 0;
        assert forall j :: 0 <= j < |s| ==> cmp(x, s[0]) <= 0 && cmp(s[0], s[j]) <= 0;
        SortedCons(x, s, cmp);
      }
    }
  }

  /** The new element goes behind everything that compares equal to it. */
  lemma {:induction false} InsertStable<T(!new)>(s: seq<T>, x: T, p: T, cmp: (T, T) -> int)
    requires Comparison(cmp) && Sorted(s, cmp)
    ensures Class(Insert(s, x, cmp), p, cmp) == if cmp(x, p) == 0 then Class(s, p, cmp) + [x] else Class(s, p, cmp)
  {
    if s != [] {
      if cmp(s[0], x) <= 0 {
        InsertStable(s[1..], x, p, cmp);
      } else if cmp(x, p) == 0 {
        NoneAbove(s, p, cmp);
      }
    }
  }

  /** A sorted sequence that starts above `p` has nothing equal to `p`. */
  lemma {:induction false} NoneAbove<T(!new)>(s: seq<T>, p: T, cmp: (T, T) -> int)
    requires Comparison(cmp) && Sorted(s, cmp) && (s == [] || cmp(s[0], p) > 0)
    ensures Class(s, p, cmp) == []
  {
    if |s| > 1 {
      assert cmp(s[0], s[1]) <= 0;
      NoneAbove(s[1..], p, cmp);
    }
  }

  lemma InsertAllSnoc<T>(s: seq<T>, x: T, cmp: (T, T) -> int)
    ensures InsertAll(s + [x], cmp) == Insert(InsertAll(s, cmp), x, cmp)
  {
    assert (s + [x])[..|s|] == s;
  }

  // ----- The sort ---------------------------------------------------------------------------

  lemma {:induction false} ClassSnoc<T>(s: seq<T>, x: T, p: T, cmp: (T, T) -> int)
    ensures Class(s + [x], p, cmp) == if cmp(x, p) == 0 then Class(s, p, cmp) + [x] else Class(s, p, cmp)
  {
    if s == [] {
      assert s + [x] == [x];
    } else {
      assert (s + [x])[1..] == s[1..] + [x];
      ClassSnoc(s[1..], x, p, cmp);
    }
  }

  /** Repeated ordered insertion, with either order of arguments, computes the stable sort. */
  lemma {:induction false} InsertAllSorts<T(!new)>(s: seq<T>, cmp: (T, T) -> int)
    requires Comparison(cmp)
    ensures StableSortOf(InsertAll(s, cmp), s, cmp)
    ensures InsertAll(s, Flip(cmp)) == InsertAll(s, cmp)
    ensures multiset(InsertAll(s, cmp)) == multiset(s)
  {
    if s != [] {
      var init, x := s[..|s| - 1], s[|s| - 1];
      assert s == init + [x];
      InsertAllSorts(init, cmp);
      SameInsertion(InsertAll(init, cmp), x, cmp);
      InsertSorted(InsertAll(init, cmp), x, cmp);
      InsertElements(InsertAll(init, cmp), x, cmp);
      forall p ensures Class(InsertAll(s, cmp), p, cmp) == Class(s, p, cmp) {
        InsertStable(InsertAll(init, cmp), x, p, cmp);
        ClassSnoc(init, x, p, cmp);
      }
    }
  }

  lemma {:induction false} ClassHas<T>(s: seq<T>, p: T, cmp: (T, T) -> int, k: nat)
    requires k < |s| && cmp(s[k], p) == 0
    ensures Class(s, p, cmp) != []
  {
    if k > 0 && cmp(s[0], p) != 0 {
      ClassHas(s[1..], p, cmp, k - 1);
    }
  }

  lemma {:induction false} ClassFrom<T>(s: seq<T>, p: T, cmp: (T, T) -> int) returns (k: nat)
    requires Class(s, p, cmp) != []
    ensures k < |s| && s[k] == Class(s, p, cmp)[0] && cmp(s[k], p) == 0
  {
    if cmp(s[0], p) == 0 {
      k := 0;
    } else {
      var j := ClassFrom(s[1..], p, cmp);
      k := j + 1;
    }
  }

  /** The head of a sorted sequence is the first of its class, and no other class comes below it. */
  lemma SameHead<T(!new)>(a: seq<T>, b: seq<T>, cmp: (T, T) -> int)
    requires Comparison(cmp) && Sorted(a, cmp) && Sorted(b, cmp) && a != []
    requires forall p :: Class(a, p, cmp) == Class(b, p, cmp)
    ensures b != [] && a[0] == b[0]
  {
    assert cmp(a[0], a[0]) == 0;
    ClassHas(a, a[0], cmp, 0);
    var k := ClassFrom(b, a[0], cmp);
    assert cmp(b[0], b[0]) == 0;
    ClassHas(b, b[0], cmp, 0);
    var j := ClassFrom(a, b[0], cmp);
    assert cmp(b[0], b[k]) <= 0 && cmp(a[0], a[j]) <= 0;
    assert cmp(b[0], a[0]) == 0;
  }

  lemma TailClass<T>(a: seq<T>, b: seq<T>, p: T, cmp: (T, T) -> int)
    requires a != [] && b != [] && a[0] == b[0] && Class(a, p, cmp) == Class(b, p, cmp)
    ensures Class(a[1..], p, cmp) == Class(b[1..], p, cmp)
  {
    if cmp(a[0], p) == 0 {
      assert Class(a, p, cmp)[1..] == Class(a[1..], p, cmp);
      assert Class(b, p, cmp)[1..] == Class(b[1..], p, cmp);
    }
  }

  /** There is only one stable sort of a sequence. */
  lemma {:induction false} StableSortUnique<T(!new)>(a: seq<T>, b: seq<T>, cmp: (T, T) -> int)
    requires Comparison(cmp) && Sorted(a, cmp) && Sorted(b, cmp)
    requires forall p :: Class(a, p, cmp) == Class(b, p, cmp)
    ensures a == b
  {
    if a == [] && b != [] {
      SameHead(b, a, cmp);
    } else if a != [] {
      SameHead(a, b, cmp);
      assert Sorted(a[1..], cmp) && Sorted(b[1..], cmp);
      hide Class, Sorted, Comparison;
      forall p ensures Class(a[1..], p, cmp) == Class(b[1..], p, cmp) {
        TailClass(a, b, p, cmp);
      }
      StableSortUnique(a[1..], b[1..], cmp);
      assert a == [a[0]] + a[1..] && b == [b[0]] + b[1..];
    }
  }
}
