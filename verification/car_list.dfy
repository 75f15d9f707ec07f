/** The composite car list and the permission-checking proxy in front of it. */
module Listing {
  import opened Text
  import opened Sequences
  import opened Cars

  /** The descriptions of `items`, in list order (the `map` step). */
  function Descriptions(items: seq<Item>): (ds: seq<string>)
    ensures |ds| == |items|
    ensures forall i :: 0 <= i < |items| ==> ds[i] == Describe(items[i])
  {
    seq(|items|, i requires 0 <= i < |items| => Describe(items[i]))
  }

  /** The description of a whole list: every item's description, in order,
      separated by ", ". */
  function ListDescription(items: seq<Item>): (r: string)
    ensures r == "" <==> items == []
  {
    var ds := Descriptions(items);
    JoinEmptyIff(ds, ", ");
    Join(ds, ", ")
  }

  /** Appending a car extends the description by ", " and that car's
      description, or makes it just that description on an empty list. */
  lemma DescriptionAfterAppend(items: seq<Item>, c: Item)
    ensures ListDescription(items + [c]) ==
      if items == [] then Describe(c) else ListDescription(items) + ", " + Describe(c)
  {
    assert Descriptions(items + [c]) == Descriptions(items) + [Describe(c)];
    JoinAppend(Descriptions(items), Describe(c), ", ");
  }

  /** The description of a list made of two non-empty runs is the two runs'
      descriptions separated by ", ": what is left around a removed car
      is described in its old order. */
  lemma DescriptionOfConcat(a: seq<Item>, b: seq<Item>)
    requires a != [] && b != []
    ensures ListDescription(a + b) == ListDescription(a) + ", " + ListDescription(b)
  {
    assert Descriptions(a + b) == Descriptions(a) + Descriptions(b);
    JoinConcat(Descriptions(a), Descriptions(b), ", ");
  }

  /** A list of two cars is described as the first car's description,
      ", ", then the second's. */
  lemma DescriptionOfTwo(i1: Item, i2: Item)
    ensures ListDescription([i1, i2]) == Describe(i1) + ", " + Describe(i2)
  {
    DescriptionAfterAppend([], i1);
    assert [] + [i1] == [i1];
    DescriptionAfterAppend([i1], i2);
    assert [i1] + [i2] == [i1, i2];
  }

  /** Two year-decorated cars, a 2020 Dacia Logan and a 2021 Renault Clio,
      are described as "Dacia Logan (2020), Renault Clio (2021)". */
  lemma TwoDecoratedCars(d1: YearDecorator, d2: YearDecorator)
    requires d1.car.make == "Dacia" && d1.car.model == "Logan" && d1.car.year == 2020
    requires d2.car.make == "Renault" && d2.car.model == "Clio" && d2.car.year == 2021
    ensures ListDescription([YearItem(d1), YearItem(d2)]) == "Dacia Logan (2020), Renault Clio (2021)"
  {
    DescriptionOfTwo(YearItem(d1), YearItem(d2));
    DaciaLogan(d1);
    RenaultClio(d2);
  }

  class CarList {
    var cars: seq<Item>

    constructor ()
      ensures cars == []
    {
      cars := [];
    }

    /** `push`: the car goes to the end. */
    method AddCar(c: Item)
      modifies this
      ensures cars == old(cars) + [c]
      ensures |cars| == |old(cars)| + 1 && cars[..|old(cars)|] == old(cars)
    {
      cars := cars + [c];
    }

    /** `indexOf`, then `splice(index, 1)` when the index is not -1. */
    method RemoveCar(c: Item)
      modifies this
      ensures cars == RemoveFirst(old(cars), c)
      ensures c !in old(cars) ==> cars == old(cars)
      ensures c in old(cars) ==> |cars| == |old(cars)| - 1
      ensures multiset(cars) == multiset(old(cars)) - multiset{c}
    {
      var index := IndexOf(cars, c);
      RemoveFirstCount(cars, c);
      if index > -1 {
        RemoveFirstAt(cars, c, index);
        cars := cars[..index] + cars[index + 1..];
      } else {
        RemoveFirstAbsent(cars, c);
      }
    }

    /** Makes the calls `ops` in order through `AddCar` and `RemoveCar`;
        the list ends as `Replay` says. */
    method Perform(ops: seq<Op<Item>>)
      modifies this
      ensures cars == Replay(ops, old(cars))
    {
      var i := 0;
      while i < |ops|
        invariant 0 <= i <= |ops|
        invariant Replay(ops[i..], cars) == Replay(ops, old(cars))
      {
        assert ops[i..][1..] == ops[i + 1..];
        if ops[i].AddOp? {
          AddCar(ops[i].item);
        } else {
          RemoveCar(ops[i].item);
        }
        i := i + 1;
      }
    }

    /** The descriptions of the cars, in list order, joined by ", "; the
        empty string for an empty list and only then. */
    function Description(): (r: string)
      reads this
      ensures r == "" <==> cars == []
      ensures r == ListDescription(cars)
    {
      ListDescription(cars)
    }
  }

  /** What a proxy call reports in place of its log line. */
  datatype Outcome = Added | Removed | Denied

  /** Owns a car list and forwards changes to it only when the permission
      check passes. The check is the `permitted` flag given at construction. */
  class CarListProxy {
    const carList: CarList
    const permitted: bool

    constructor (permitted: bool)
      ensures fresh(carList) && carList.cars == []
      ensures this.permitted == permitted
    {
      carList := new CarList();
      this.permitted := permitted;
    }

    /** The proxy as written: its permission check always passes. */
    constructor Default()
      ensures fresh(carList) && carList.cars == []
      ensures CheckPermissions()
    {
      carList := new CarList();
      permitted := true;
    }

    /** The permission decision: the policy given at construction. */
    predicate CheckPermissions() {
      permitted
    }

    /** Granted: exactly `CarList.addCar`, reported as Added.
        Denied: the list is untouched, reported as Denied. */
    method AddCar(c: Item) returns (outcome: Outcome)
      modifies carList
      ensures CheckPermissions() ==> outcome == Added && carList.cars == old(carList.cars) + [c]
      ensures !CheckPermissions() ==> outcome == Denied && carList.cars == old(carList.cars)
    {
      if CheckPermissions() {
        carList.AddCar(c);
        outcome := Added;
      } else {
        outcome := Denied;
      }
    }

    /** Granted: exactly `CarList.removeCar`, reported as Removed even when
        the car was not in the list. Denied: the list is untouched. */
    method RemoveCar(c: Item) returns (outcome: Outcome)
      modifies carList
      ensures CheckPermissions() ==> outcome == Removed && carList.cars == RemoveFirst(old(carList.cars), c)
      ensures !CheckPermissions() ==> outcome == Denied && carList.cars == old(carList.cars)
    {
      if CheckPermissions() {
        carList.RemoveCar(c);
        outcome := Removed;
      } else {
        outcome := Denied;
      }
    }
  }

  /** Adding a car to a new list and removing it again leaves the list
      described as the empty string. */
  method AddThenRemove(c: Item) returns (description: string)
    ensures description == ""
  {
    var list := new CarList();
    list.AddCar(c);
    list.RemoveCar(c);
    description := list.Description();
  }
}
