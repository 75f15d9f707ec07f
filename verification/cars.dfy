/** The car record and the decorators that extend its description.
    Cars and decorators are objects: the list and the stock hold references
    to them and remove them by identity, so they are classes here. None of
    their fields is ever reassigned, so the fields are `const` and reading
    a description can change nothing. */
module Cars {
  import opened Text

  class Car {
    const make: string
    const model: string
    const year: int

    /** No validation: any strings and any year are stored as given. */
    constructor (make: string, model: string, year: int)
      ensures this.make == make && this.model == model && this.year == year
    {
      this.make := make;
      this.model := model;
      this.year := year;
    }

    /** The make, one space, then the model, neither of them trimmed. */
    function Description(): (r: string)
      ensures |r| == |make| + 1 + |model|
      ensures r[..|make|] == make && r[|make|] == ' ' && r[|make| + 1..] == model
    {
      make + " " + model
    }
  }

  /** The plain decorator: it keeps a reference to a car and describes
      itself exactly as that car does. */
  class CarDecorator {
    const car: Car

    constructor (car: Car)
      ensures this.car == car
    {
      this.car := car;
    }

    function Description(): (r: string)
      ensures r == car.Description()
    {
      car.Description()
    }
  }

  /** The year decorator. Its year is the wrapped car's own `year` field,
      so what it wraps is a `Car`, never another decorator. */
  class YearDecorator {
    const car: Car

    constructor (car: Car)
      ensures this.car == car
    {
      this.car := car;
    }

    /** The car's description, then " (", then the canonical numeral of
        the car's year, then ")". Canonical numerals are unique
        (`CanonicalIsWritten`), so this fixes the whole string. */
    function Description(): (r: string)
      ensures var d := car.Description();
        |r| >= |d| + 4 &&
        r[..|d|] == d && r[|d|..|d| + 2] == " (" && r[|r| - 1] == ')' &&
        CanonicalNumeral(r[|d| + 2..|r| - 1]) && NumeralValue(r[|d| + 2..|r| - 1]) == car.year
    {
      var d := car.Description();
      var y := IntToString(car.year);
      var r := d + " (" + y + ")";
      IntToStringRoundTrip(car.year);
      assert r[|d| + 2..|r| - 1] == y;
      r
    }
  }

  /** Anything the list and the stock hold: a reference to a car or to one
      of its decorators. Two items are equal exactly when they refer to the
      same object, which is JavaScript's `===` on objects. */
  datatype Item =
    | CarItem(car: Car)
    | DecoratorItem(decorator: CarDecorator)
    | YearItem(yearDecorator: YearDecorator)

  /** What `getDescription()` returns for an item; never empty, since every
      description contains at least the space between make and model. */
  function Describe(item: Item): (r: string)
    ensures |r| > 0
  {
    match item
    case CarItem(c) => c.Description()
    case DecoratorItem(d) => d.Description()
    case YearItem(y) => y.Description()
  }

  /** A Dacia Logan from 2020 is described as "Dacia Logan" and, through
      the year decorator, as "Dacia Logan (2020)". */
  lemma DaciaLogan(d: YearDecorator)
    requires d.car.make == "Dacia" && d.car.model == "Logan" && d.car.year == 2020
    ensures d.car.Description() == "Dacia Logan"
    ensures d.Description() == "Dacia Logan (2020)"
  {
  }

  /** A Renault Clio from 2021, through the year decorator, is described as
      "Renault Clio (2021)". */
  lemma RenaultClio(d: YearDecorator)
    requires d.car.make == "Renault" && d.car.model == "Clio" && d.car.year == 2021
    ensures d.Description() == "Renault Clio (2021)"
  {
  }
}
