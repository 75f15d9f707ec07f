# Car stock core — a Dafny model

This project models the in-memory car stock logic of a small browser form
application (`app.js`). The application builds four object-oriented patterns
around a list of cars:

- **Car** — a record of make, model and year. It is described as `make + " " + model`.
- **Decorators** — `CarDecorator` forwards the wrapped car's description.
  `YearDecorator` appends `" (" + year + ")"`, reading the year straight from
  the wrapped car's `year` field.
- **CarList** (composite) — an ordered list with three operations:
  - `addCar`, which pushes a car onto the end;
  - `removeCar`, which uses `indexOf` and `splice` to remove the first entry
    that is the very same object;
  - `getDescription`, which joins the items' descriptions with `", "`.
- **CarListProxy** — owns a `CarList`. It forwards `addCar` and `removeCar`
  only when `checkPermissions()` holds.
- **CarStockAdapter** — the stock store, with the same add and
  remove-by-identity operations plus `getStock`.

Modules, one per component:

| file | module | contents |
|---|---|---|
| `text.dfy` | `Text` | the decimal numeral written for an integral year and a parser that reads it back; `Join` (`Array.prototype.join`) and its laws |
| `sequences.dfy` | `Sequences` | the `indexOf` search loop; `RemoveFirst`, the contents after `indexOf` + `splice(index, 1)`; its laws; `Replay`, the contents after a sequence of add and remove calls |
| `cars.dfy` | `Cars` | the `Car`, `CarDecorator` and `YearDecorator` classes; `Item`, a reference to any of them; `Describe` |
| `car_list.dfy` | `Listing` | the `CarList` and `CarListProxy` classes; the proxy's `Outcome`; the laws of the list's description |
| `stock.dfy` | `Stock` | the `CarStockAdapter` class; a reference semantics for any sequence of stock calls |

Cars and decorators are classes whose fields are all `const`. The list and
the stock hold `Item` values, and each `Item` wraps one of those references.
Equality of items is therefore equality of references, which is what
JavaScript's `indexOf` (strict equality on objects) compares. Two cars with
equal fields are still different items.

The stock is a singleton closure in the source. Here it is an ordinary
class instance that starts empty. The proxy's permission check is hard-coded
to `true` in the source. Here it is the `permitted` flag given to the
constructor; the `Default` constructor sets it to `true`, as the source does.
Each proxy call returns `Added`, `Removed` or `Denied` where the source
writes a log line. The proxy reports `Removed` whenever permission is
granted, even if the car was not in the list. The source logs its removal
message unconditionally in that branch, and the model keeps that behaviour.

`YearDecorator` reads `this.car.year` (app.js:53), so it works only on a
`Car`. Stacking decorators is not supported, and both decorators here wrap a
`Car`.

## Model

| member | source | states |
|---|---|---|
| `Text.NatToStringRoundTrip` | app.js:53 | the numeral of a natural number is a non-empty digit string with no leading zero, and reading it back gives the number |
| `Text.IntToString` | app.js:53 | the string written for an integral year is a canonical numeral (no leading zero, no `-0`) that starts with `-` exactly for a negative year |
| `Text.IntToStringRoundTrip` | app.js:53 | the numeral written for an integral year is canonical and denotes exactly that year, negative years included |
| `Text.DigitsAreWritten` | app.js:53 | a digit string without a leading zero is exactly the numeral written for the number it denotes |
| `Text.CanonicalIsWritten` | app.js:53 | every canonical numeral is the one written for its value, so two canonical numerals with the same value are the same string |
| `Text.Join` | app.js:75 | the joined string's length is the parts' total length plus one separator between each two parts, and it starts with the first part |
| `Text.JoinConcat` | app.js:75 | joining two non-empty runs of parts equals the two joined runs with one separator between them |
| `Text.JoinAppend` | app.js:75 | joining one more part adds the separator and the part at the end, or gives just the part when there were none |
| `Text.JoinEmptyIff` | app.js:75 | when no part is empty, the joined string is empty exactly when there are no parts |
| `Sequences.IndexOf` | app.js:66 | the search returns -1 exactly when the element is absent; otherwise it returns an index holding the element with no earlier occurrence |
| `Sequences.RemoveFirst` | app.js:66-68 | after `indexOf` + `splice(index, 1)` the sequence is one shorter when the element was present and of equal length otherwise, and holds nothing that was not there before |
| `Sequences.RemoveFirstAbsent` | app.js:65-70 | removing an element that is not present leaves the sequence unchanged |
| `Sequences.RemoveFirstAt` | app.js:65-70 | when `k` is the first index of the element, removal equals splicing out index `k`; everything else keeps its order |
| `Sequences.RemoveFirstCount` | app.js:65-70 | removal takes away exactly one copy of the element when present, and nothing else (multiset) |
| `Sequences.RemoveFirstAppend` | app.js:10-16 | removing an element of the front part of `s + t` leaves `t` in place |
| `Sequences.RemoveFirstMembers` | app.js:10-16 | in a sequence without duplicates, what remains after removal is every other element |
| `Sequences.NoDupAfterRemove` | app.js:10-16 | removal keeps a duplicate-free stock duplicate-free; a car present before the later additions is not among them |
| `Cars.Car.constructor` | app.js:25-29 | stores make, model and year as given, without validation |
| `Cars.Car.Description` | app.js:31-33 | the description is the make, one space, then the model; its length is their lengths plus one |
| `Cars.CarDecorator.constructor` | app.js:37-39 | keeps a reference to the wrapped car |
| `Cars.CarDecorator.Description` | app.js:41-43 | describes itself exactly as the wrapped car does |
| `Cars.YearDecorator.constructor` | app.js:46-48 | keeps a reference to the wrapped car |
| `Cars.YearDecorator.Description` | app.js:52-54 | starts with the wrapped car's description, then `" ("`, then the canonical numeral denoting the wrapped car's `year`, then `")"`; with `Text.CanonicalIsWritten` this fixes the whole string |
| `Cars.Describe` | app.js:74 | the description of any item is non-empty |
| `Cars.DaciaLogan` | app.js:31-54 | a 2020 Dacia Logan is described as `Dacia Logan`, and decorated as `Dacia Logan (2020)` |
| `Cars.RenaultClio` | app.js:52-54 | a decorated 2021 Renault Clio is described as `Renault Clio (2021)` |
| `Listing.Descriptions` | app.js:73-75 | one description per item, in list order |
| `Listing.ListDescription` | app.js:72-76 | the list's description is empty exactly when the list is empty |
| `Listing.DescriptionAfterAppend` | app.js:61-76 | after an append the description grows by `", "` and the new car's description, or is just that description for a list that was empty |
| `Listing.DescriptionOfConcat` | app.js:65-76 | a list made of two non-empty runs is described as the runs' descriptions joined by `", "`, so the cars around a removed one keep their order in the description |
| `Listing.DescriptionOfTwo` | app.js:72-76 | a two-car list is described as the first description, `", "`, then the second |
| `Listing.TwoDecoratedCars` | app.js:52-76 | a list of a decorated 2020 Dacia Logan and a decorated 2021 Renault Clio is described as `Dacia Logan (2020), Renault Clio (2021)` |
| `Listing.CarList.constructor` | app.js:57-59 | a new list is empty |
| `Listing.CarList.AddCar` | app.js:61-63 | the new contents are the old ones with the car at the end; the earlier cars keep their positions |
| `Listing.CarList.RemoveCar` | app.js:65-70 | the new contents are the old ones without the first occurrence of that very object; no change when it is absent; one car fewer when present; the multiset loses exactly one copy |
| `Listing.CarList.Description` | app.js:72-76 | reading the description changes nothing; it is the joined descriptions of the current cars and is empty only for an empty list |
| `Listing.CarList.Perform` | app.js:61-70 | making the calls `ops` in order through `AddCar` and `RemoveCar` leaves the list as `Replay` computes |
| `Listing.CarListProxy.constructor` | app.js:79-81 | the proxy owns a fresh, empty list; its permission decision is the given flag |
| `Listing.CarListProxy.Default` | app.js:104-107 | the proxy as written: `CheckPermissions` (the policy flag given at construction) always passes |
| `Listing.CarListProxy.AddCar` | app.js:83-91 | granted: exactly the list's `addCar` effect, reported as `Added`; denied: the list is unchanged, reported as `Denied` |
| `Listing.CarListProxy.RemoveCar` | app.js:94-102 | granted: exactly the list's `removeCar` effect, reported as `Removed`; denied: the list is unchanged, reported as `Denied` |
| `Listing.AddThenRemove` | app.js:57-76 | adding a car to a new list and then removing it leaves a list whose description is `""` |
| `Stock.CarStockAdapter.constructor` | app.js:2-3 | the stock starts empty |
| `Stock.CarStockAdapter.AddCar` | app.js:6-9 | the new stock is the old one with the car at the end |
| `Stock.CarStockAdapter.RemoveCar` | app.js:10-16 | `removed` holds exactly when the car was in the stock; the new stock lacks the first occurrence of that object; no change when it is absent; the multiset loses exactly one copy |
| `Stock.CarStockAdapter.Perform` | app.js:2-21 | making the calls `ops` in order through `AddCar` and `RemoveCar` leaves the stock as `Replay` computes, so `Stock.ReplayKeepsInsertionOrder` speaks of the class itself |
| `Stock.CarStockAdapter.GetStock` | app.js:17-19 | returns the current contents in order |
| `Stock.NeverAddedStaysOut` | app.js:2-21 | a car that no call adds cannot reappear in the stock once it is out |
| `Stock.SurvivorsAgree` | app.js:2-21 | two presence rules that agree on every car select the same cars |
| `Stock.SurvivorsSkipGone` | app.js:2-21 | deleting a car that does not remain changes nothing among the survivors |
| `Stock.SurvivorsOfPresent` | app.js:2-21 | with no calls made, every car already in the stock remains |
| `Stock.ReplayKeepsInsertionOrder` | app.js:2-21 | after any sequence of add and remove calls, with each car added at most once, the stock holds the original and added cars in insertion order, minus those removed since they were put there |

`CarStockAdapter.Perform` and `CarList.Perform` prove that making a
sequence of calls on the stock or on a list gives the contents
`Sequences.Replay` computes. So `ReplayKeepsInsertionOrder` describes any
sequence of stock calls, and any sequence of `CarList` calls, in which each
car is added at most once. A car that is added, removed and added again is
outside that lemma; `Replay` still gives its contents.

## Left out

- `CarController` (app.js:110-155) is left out: DOM lookups, event listeners, `form.reset`, the `<li>` markup and the `innerHTML` assignment are all display glue.
- The form parsing is left out: `trim`, `parseInt` and the truthiness test on make, model and year. A year here is any integer; NaN and fractional years are not modelled.
- The `console.log` calls are left out. The proxy's messages become its `Outcome` result. The stock's conditional removal message becomes `RemoveCar`'s `removed` flag. The stock's add message has no counterpart.
- `Cars.YearDecorator.Description`: writes the year as the exact decimal numeral of an unbounded integer. The model agrees with JavaScript for every year of magnitude at most 2^53. Above that, many integers are not JavaScript numbers at all. Some that are print differently: JavaScript writes the shortest digits that round-trip (2^60 becomes 1152921504606847000), and uses exponent notation from 10^21.
- `Stock.CarStockAdapter.GetStock`: returns the contents as a value. The source returns the live array itself, so a caller could change the stock through it; that aliasing is not modelled.
- Prototype inheritance is not modelled: `YearDecorator` is its own class rather than a subtype of `CarDecorator`. Both wrap a `Car` and have the behaviour shown above.
- The stock's closure-based singleton is not modelled; any number of independent stock instances can be made.
- List items are cars and decorators only; a `CarList` held inside another list is not modelled. Such a nested empty list would describe as `""`, so `Cars.Describe`'s non-empty result and `Listing.ListDescription`'s "empty exactly when the list is empty" rely on this.
