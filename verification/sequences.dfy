/** The array primitives the car list and the stock are built on:
    `indexOf` (strict equality, which is reference identity for the
    objects stored here) and the `splice(index, 1)` it guards. */
module Sequences {

  /** `s` holds no element twice. */
  ghost predicate NoDup<T>(s: seq<T>) {
    forall x :: x in s ==> multiset(s)[x] <= 1
  }

  /** `s` without its first occurrence of `x`; `s` itself when `x` is absent. */
  function RemoveFirst<T(==)>(s: seq<T>, x: T): (r: seq<T>)
    ensures |r| == if x in s then |s| - 1 else |s|
    ensures forall y :: y in r ==> y in s
  {
    if s == [] then []
    else if s[0] == x then s[1..]
    else [s[0]] + RemoveFirst(s[1..], x)
  }

  /** Linear search from the front: the first index holding `x`, or -1. */
  method IndexOf<T(==)>(s: seq<T>, x: T) returns (index: int)
    ensures -1 <= index < |s|
    ensures index == -1 <==> x !in s
    ensures 0 <= index ==> s[index] == x && x !in s[..index]
  {
    index := 0;
    while index < |s|
      invariant 0 <= index <= |s|
      invariant x !in s[..index]
    {
      if s[index] == x {
        return;
      }
      index := index + 1;
    }
    assert s[..index] == s;
    index := -1;
  }

  /** Removing an absent element changes nothing. */
  lemma {:induction false} RemoveFirstAbsent<T>(s: seq<T>, x: T)
    requires x !in s
    ensures RemoveFirst(s, x) == s
  {
    if s != [] {
      assert s[0] in s;
      RemoveFirstAbsent(s[1..], x);
      assert [s[0]] + s[1..] == s;
    }
  }

  /** When `k` is the first index of `x`, removal splices out exactly index `k`. */
  lemma {:induction false} RemoveFirstAt<T>(s: seq<T>, x: T, k: nat)
    requires k < |s| && s[k] == x && x !in s[..k]
    ensures RemoveFirst(s, x) == s[..k] + s[k + 1..]
  {
    if k > 0 {
      assert s[0] in s[..k];
      var t := s[1..];
      assert t[..k - 1] == s[1..k];
      assert forall y :: y in t[..k - 1] ==> y in s[..k];
      RemoveFirstAt(t, x, k - 1);
      assert s[..k] == [s[0]] + t[..k - 1];
      assert s[k + 1..] == t[k..];
    }
  }

  /** Removal takes away one copy of `x` when there is one, and nothing else. */
  lemma {:induction false} RemoveFirstCount<T>(s: seq<T>, x: T)
    ensures multiset(RemoveFirst(s, x)) == multiset(s) - multiset{x}
  {
    if s != [] {
      assert s == [s[0]] + s[1..];
      if s[0] != x {
        RemoveFirstCount(s[1..], x);
      }
    }
  }

  /** Removing an element of `s` from `s + t` leaves `t` alone. */
  lemma {:induction false} RemoveFirstAppend<T>(s: seq<T>, t: seq<T>, x: T)
    requires x in s
    ensures RemoveFirst(s + t, x) == RemoveFirst(s, x) + t
  {
    assert (s + t)[0] == s[0];
    if s[0] == x {
      assert (s + t)[1..] == s[1..] + t;
    } else {
      assert (s + t)[1..] == s[1..] + t;
      RemoveFirstAppend(s[1..], t, x);
    }
  }

  /** In a sequence without duplicates, removal keeps exactly the other elements. */
  lemma RemoveFirstMembers<T>(s: seq<T>, x: T, y: T)
    requires NoDup(s)
    ensures y in RemoveFirst(s, x) <==> y in s && y != x
  {
    var r := RemoveFirst(s, x);
    RemoveFirstCount(s, x);
    assert y in r <==> multiset(r)[y] > 0;
    assert y in s <==> multiset(s)[y] > 0;
    if x in s {
      assert multiset(s)[x] <= 1;
    }
  }

  /** Removing an element from the front part of a duplicate-free `s + t`
      keeps it duplicate-free; that element was not in `t`. */
  lemma NoDupAfterRemove<T>(s: seq<T>, t: seq<T>, x: T)
    requires NoDup(s + t)
    ensures NoDup(s) && NoDup(RemoveFirst(s, x) + t)
    ensures x in s ==> x !in t
  {
    var r := RemoveFirst(s, x);
    RemoveFirstCount(s, x);
    assert multiset(s + t) == multiset(s) + multiset(t);
    assert multiset(r + t) == multiset(r) + multiset(t);
    forall y | y in s ensures multiset(s)[y] <= 1 {
      assert y in s + t;
    }
    forall y | y in r + t ensures multiset(r + t)[y] <= 1 {
      if y in r {
        assert multiset(r)[y] > 0;
        assert y in s + t;
      } else {
        assert y in s + t;
      }
    }
    if x in s {
      assert x in s + t;
      assert multiset(s)[x] >= 1;
    }
  }

  /** One call on a list or the stock: `addCar(item)` or `removeCar(item)`. */
  datatype Op<T> = AddOp(item: T) | RemoveOp(item: T)

  /** The contents after one call: `push` for an add, `indexOf` + `splice`
      for a remove. */
  function Step<T(==)>(s: seq<T>, op: Op<T>): seq<T> {
    match op
    case AddOp(c) => s + [c]
    case RemoveOp(c) => RemoveFirst(s, c)
  }

  /** The contents after the calls `ops`, made in order from contents `s`. */
  function Replay<T(==)>(ops: seq<Op<T>>, s: seq<T>): seq<T>
    decreases |ops|
  {
    if ops == [] then s else Replay(ops[1..], Step(s, ops[0]))
  }
}
