/** The stock adapter: one stock array with add, remove-by-identity and a
    read accessor, and what any sequence of those calls leaves in it. */
module Stock {
  import opened Sequences
  import opened Cars

  class CarStockAdapter {
    var stock: seq<Item>

    /** The stock starts empty. */
    constructor ()
      ensures stock == []
    {
      stock := [];
    }

    /** `push`: the car goes to the end. */
    method AddCar(c: Item)
      modifies this
      ensures stock == old(stock) + [c]
    {
      stock := stock + [c];
    }

    /** `indexOf`, then `splice(index, 1)` and the removal log line when the
        index is not -1; `removed` says whether that happened. */
    method RemoveCar(c: Item) returns (removed: bool)
      modifies this
      ensures removed <==> c in old(stock)
      ensures stock == RemoveFirst(old(stock), c)
      ensures !removed ==> stock == old(stock)
      ensures multiset(stock) == multiset(old(stock)) - multiset{c}
    {
      var index := IndexOf(stock, c);
      RemoveFirstCount(stock, c);
      if index > -1 {
        RemoveFirstAt(stock, c, index);
        stock := stock[..index] + stock[index + 1..];
        removed := true;
      } else {
        RemoveFirstAbsent(stock, c);
        removed := false;
      }
    }

    /** Makes the calls `ops` in order through `AddCar` and `RemoveCar`;
        the stock ends as `Replay` says. */
    method Perform(ops: seq<Op<Item>>)
      modifies this
      ensures stock == Replay(ops, old(stock))
    {
      var i := 0;
      while i < |ops|
        invariant 0 <= i <= |ops|
        invariant Replay(ops[i..], stock) == Replay(ops, old(stock))
      {
        assert ops[i..][1..] == ops[i + 1..];
        if ops[i].AddOp? {
          AddCar(ops[i].item);
        } else {
          var _ := RemoveCar(ops[i].item);
        }
        i := i + 1;
      }
    }

    /** The current contents, in order. */
    method GetStock() returns (s: seq<Item>)
      ensures s == stock
    {
      s := stock;
    }
  }

  /** The cars `ops` adds, in the order it adds them. */
  function AddedBy(ops: seq<Op<Item>>): seq<Item>
    decreases |ops|
  {
    if ops == [] then []
    else (if ops[0].AddOp? then [ops[0].item] else []) + AddedBy(ops[1..])
  }

  /** Whether `x` is in the stock after `ops`, given whether it was before:
      an add of `x` puts it there, a remove of `x` takes it out, other calls
      leave it as it was. */
  function Live(ops: seq<Op<Item>>, x: Item, present: bool): bool
    decreases |ops|
  {
    if ops == [] then present
    else Live(ops[1..], x, if ops[0].AddOp? then present || ops[0].item == x
                           else present && ops[0].item != x)
  }

  /** Whether `x` is in the stock after `ops` run from contents `s`. */
  predicate Remains(ops: seq<Op<Item>>, s: seq<Item>, x: Item) {
    Live(ops, x, x in s)
  }

  /** The elements of `xs`, in order, that remain after `ops` run from `s`. */
  function Survivors(xs: seq<Item>, ops: seq<Op<Item>>, s: seq<Item>): (r: seq<Item>)
    decreases |xs|
  {
    if xs == [] then []
    else (if Remains(ops, s, xs[0]) then [xs[0]] else []) + Survivors(xs[1..], ops, s)
  }

  /** A car that is never added stays out once it is out. */
  lemma {:induction false} NeverAddedStaysOut(ops: seq<Op<Item>>, x: Item)
    requires x !in AddedBy(ops)
    ensures !Live(ops, x, false)
    decreases |ops|
  {
    if ops != [] {
      assert AddedBy(ops) == (if ops[0].AddOp? then [ops[0].item] else []) + AddedBy(ops[1..]);
      NeverAddedStaysOut(ops[1..], x);
    }
  }

  /** Two presence rules that agree on every car keep the same survivors. */
  lemma {:induction false} SurvivorsAgree(xs: seq<Item>, ops1: seq<Op<Item>>, s1: seq<Item>, ops2: seq<Op<Item>>, s2: seq<Item>)
    requires forall x :: Remains(ops1, s1, x) == Remains(ops2, s2, x)
    ensures Survivors(xs, ops1, s1) == Survivors(xs, ops2, s2)
    decreases |xs|
  {
    if xs != [] {
      SurvivorsAgree(xs[1..], ops1, s1, ops2, s2);
    }
  }

  /** Deleting a car that does not remain changes no survivor. */
  lemma {:induction false} SurvivorsSkipGone(xs: seq<Item>, y: Item, ops: seq<Op<Item>>, s: seq<Item>)
    requires !Remains(ops, s, y)
    ensures Survivors(RemoveFirst(xs, y), ops, s) == Survivors(xs, ops, s)
    decreases |xs|
  {
    if xs != [] && xs[0] != y {
      SurvivorsSkipGone(xs[1..], y, ops, s);
      assert ([xs[0]] + RemoveFirst(xs[1..], y))[1..] == RemoveFirst(xs[1..], y);
    }
  }

  /** Any sequence of calls, each adding a car at most once, leaves in the
      stock the cars it held and the cars added, in insertion order, minus
      those removed since they were put there. */
  lemma {:induction false} ReplayKeepsInsertionOrder(ops: seq<Op<Item>>, s: seq<Item>)
    requires NoDup(s + AddedBy(ops))
    ensures Replay(ops, s) == Survivors(s + AddedBy(ops), ops, s)
    decreases |ops|
  {
    if ops == [] {
      assert s + AddedBy(ops) == s;
      SurvivorsOfPresent(s, s);
    } else {
      var rest := ops[1..];
      var a := AddedBy(rest);
      var y := ops[0].item;
      if ops[0].AddOp? {
        assert AddedBy(ops) == [y] + a;
        assert s + AddedBy(ops) == (s + [y]) + a;
        ReplayKeepsInsertionOrder(rest, s + [y]);
        forall x ensures Remains(rest, s + [y], x) == Remains(ops, s, x) {
          assert (x in s + [y]) == (x in s || y == x);
        }
        SurvivorsAgree(s + AddedBy(ops), rest, s + [y], ops, s);
      } else {
        var r := RemoveFirst(s, y);
        assert AddedBy(ops) == a;
        NoDupAfterRemove(s, a, y);
        ReplayKeepsInsertionOrder(rest, r);
        forall x ensures Remains(rest, r, x) == Remains(ops, s, x) {
          RemoveFirstMembers(s, y, x);
        }
        SurvivorsAgree(r + a, rest, r, ops, s);
        if y in s {
          RemoveFirstAppend(s, a, y);
          NeverAddedStaysOut(rest, y);
          SurvivorsSkipGone(s + a, y, ops, s);
        } else {
          RemoveFirstAbsent(s, y);
        }
      }
    }
  }

  /** With no calls, every car of the stock remains. */
  lemma {:induction false} SurvivorsOfPresent(xs: seq<Item>, s: seq<Item>)
    requires forall x :: x in xs ==> x in s
    ensures Survivors(xs, [], s) == xs
    decreases |xs|
  {
    if xs != [] {
      SurvivorsOfPresent(xs[1..], s);
    }
  }
}
