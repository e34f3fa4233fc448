# Dice and dice sets, modelled in Dafny

This project models a small Java library of tabletop dice. A `Die` has a
face count (`sides`, at least four, fixed at construction) and a face
`value` in `[1, sides]` that only `roll()` changes. A `DiceSet` is an array
of at least two dice that all share one face count. It can be built from a
count (every die showing 1) or from explicit starting values. It reports a
descriptor such as `5d20`, the sum of its values, each value, a list of the
values and a textual form such as `[2][5][2][3]`. It can roll all of its
dice or a single one.

Files, one module each:

- `Outcomes.dfy`: `Option`, `Result` and the three reasons the Java code
  throws `IllegalArgumentException` (`TooFewSides`, `TooFewDice`,
  `IllegalValue`).
- `Text.dfy`: the decimal text Java writes when an `int` is concatenated
  to a string, its parser, the round-trip lemma, and a first-occurrence
  search used by the parsers.
- `Die.dfy`: `Die.java`. The class `Die` has a `const sides` (Java `final`),
  a mutable `value` and the invariant `Valid()`: `4 <= sides && 1 <= value <= sides`.
- `DiceSet.dfy`: `DiceSet.java`. The class `DiceSet` holds `const dice:
  array<Die?>`. Java's `new Die[n]` starts out full of nulls, so the slots are
  nullable. `Valid()` says the array has at least two slots, every slot holds
  a valid die, all dice have the first die's sides, and no die is stored
  twice. The last condition gives the frame of `rollIndividual`.
  The module also holds the value-level specification: `SumOf`, `Render`
  with its parser, `DescriptorText` with its parser, the validation
  functions and `SameDistribution`.

How the model treats the Java code:

- Construction failures are `Err` results of static factory methods:
  `Die.Create`, `DiceSet.FromCount` and `DiceSet.FromValues`. The error
  reason says which check fired. The count constructor checks the dice
  count before the sides. The values constructor checks the sides, then the
  number of values, then each value, through the `Die` constructor. The
  model keeps both orders.
- Java's `new DiceSet(s, n)` resolves to the count constructor and
  `new DiceSet(s, v1, v2, ...)` to the varargs one. They are the two named
  factories `FromCount` and `FromValues`. They fill a fresh array in a loop,
  as the Java constructors do, and hand it to the constructor `Adopt`.
- The random draw `random.nextInt(sides)` is a parameter `draw` with
  `0 <= draw < sides`. `RollAll` takes one draw per die, in array order.
- `sides` never changes: it is a `const`. `value` changes only in `Roll`,
  the only member with `modifies` on a die. The getters and `toString` are
  functions, so they modify nothing.
- `values()` returns a `seq<int>`. A sequence is a value, so it cannot
  share state with the set, and changing it later cannot affect the set.

## Model

| member | source | states |
|---|---|---|
| `Text.NatToString` | Die.java:63 | the decimal text of a natural number is non-empty, all digits, and has no leading zero unless the number is 0 |
| `Text.IntToString` | Die.java:63 | Java's text of an `int` is non-empty and made only of digits and `-`, so it never contains `[`, `]` or `d` |
| `Text.IntToStringRoundTrip` | Die.java:63 | parsing the text of any int gives that int back |
| `Text.IntToStringInjective` | DiceSet.java:52 | two ints with the same text are equal |
| `Dies.DieError` | Die.java:21-30 | no error exactly when `sides >= 4` and `1 <= value <= sides`; `TooFewSides` exactly when `sides < 4`, which is checked first; `IllegalValue` exactly when the sides are fine and the value is below 1 or above `sides` |
| `Dies.Die.constructor` | Die.java:21-33 | when no check fails, the new die is valid and stores exactly the given sides and value |
| `Dies.Die.Create` | Die.java:21-33 | fails exactly when the die would be invalid, with the reason of the first failing check; otherwise gives a fresh valid die with the given sides and value |
| `Dies.Die.Roll` | Die.java:35-41 | with the draw in `[0, sides)` the new value is draw + 1, lies in `[1, sides]`, is returned, and the die stays valid |
| `Dies.Die.GetSides` | Die.java:43-48 | returns the face count, which is at least 4 |
| `Dies.Die.GetValue` | Die.java:50-55 | returns the current value, which lies in `[1, sides]` |
| `Dies.Die.ToString` | Die.java:57-64 | the text starts with `[`, ends with `]`, and reads back as the current value |
| `Dies.DieTextRoundTrip` | Die.java:57-64 | the text `[v]` of any value reads back as `v` |
| `DiceSets.CountError` | DiceSet.java:17-23 | no error exactly when there are at least 2 dice and at least 4 sides; `TooFewDice` exactly when the count is below 2, checked first |
| `DiceSets.ValuesError` | DiceSet.java:34-44 | no error exactly when sides >= 4, there are at least 2 values and every value is a face; `TooFewSides` exactly when sides < 4; an `IllegalValue` error names a value the Die constructor rejects |
| `DiceSets.DiceSet.Sides` | DiceSet.java:3-9 | the common face count is at least 4 and every die has it |
| `DiceSets.DiceSet.Adopt` | DiceSet.java:9 | the new set holds exactly the given well-formed array |
| `DiceSets.DiceSet.FromCount` | DiceSet.java:11-28 | fails exactly as `CountError` says; otherwise a valid set of exactly `numberOfDice` fresh, distinct dice, each with the given sides and value 1 |
| `DiceSets.DiceSet.FromValues` | DiceSet.java:30-45 | fails exactly as `ValuesError` says; otherwise a valid set of fresh, distinct dice with the given sides whose values are the given values, in order |
| `DiceSets.DiceSet.Descriptor` | DiceSet.java:47-53 | the descriptor is `<count>d<sides>` and reads back as the dice count and the common face count |
| `DiceSets.DescriptorRoundTrip` | DiceSet.java:47-53 | every descriptor text reads back as its count and sides |
| `DiceSets.DiceSet.Sum` | DiceSet.java:55-64 | the result is the sum of the current values, and lies between the dice count and the dice count times the sides |
| `DiceSets.SumBounds` | DiceSet.java:55-64 | n values in `[1, sides]` sum to between n and n * sides |
| `DiceSets.SumOfAppend` | DiceSet.java:58-63 | the sum of a concatenation is the sum of the sums |
| `DiceSets.DiceSet.RollAll` | DiceSet.java:66-73 | every die k now shows draws[k] + 1; the set stays valid and keeps its length and face count |
| `DiceSets.DiceSet.RollIndividual` | DiceSet.java:75-80 | die i shows draw + 1, every other die keeps its value, the value list changes only at i, and the sum changes by the difference |
| `DiceSets.SumOfUpdate` | DiceSet.java:75-80 | replacing one value changes the sum by the new value minus the old |
| `DiceSets.DiceSet.GetIndividual` | DiceSet.java:82-87 | returns entry i of the current values, which lies in `[1, sides]` |
| `DiceSets.DiceSet.Values` | DiceSet.java:89-98 | returns the current values, one per die, in array order, each equal to `GetIndividual` at its index |
| `DiceSets.DiceSet.HasSameDistribution` | DiceSet.java:100-105 | true exactly when both sets have the same dice count, the same sides and the same multiset of values; such sets have equal sums |
| `DiceSets.SameDistributionIsEquivalence` | DiceSet.java:100-105 | equal distribution is reflexive, symmetric and transitive |
| `DiceSets.SumOfPermutation` | DiceSet.java:100-105 | value lists with the same multiset have the same sum, whatever their order |
| `DiceSets.DiceSet.IsIdenticalTo` | DiceSet.java:106-108 | as written it is true whenever the documented relation holds (it is true always) |
| `DiceSets.IsIdenticalToCounterexample` | DiceSet.java:100-108 | six-sided sets showing 1, 2, 3 and 1, 2, 2 are called identical although their distributions differ |
| `DiceSets.DiceSet.ToString` | DiceSet.java:110-120 | the text is each die's `[v]` in array order, without separator, and reads back as the values |
| `DiceSets.RenderAppend` | DiceSet.java:115-118 | adding one die to the end adds its `[v]` to the end of the text |
| `DiceSets.RenderRoundTrip` | DiceSet.java:110-120 | the text of any value list reads back as that list |
| `DiceSets.TextExamples` | DiceSet.java:110-113 | the documented examples: a die showing 5 is `[5]`, values 2, 5, 2, 3 give `[2][5][2][3]`, five 20-sided dice give `5d20` |

## Left out

- The random generator (Die.java:10): the draw is a parameter, so the model says nothing about uniformity or which faces eventually appear.
- Thread safety of the shared generator: the model is single-threaded.
- `SIX_SIDED_DIE_EMOJI` (Die.java:11): unused by the library.
- Exception message text and exception classes: a failure is an `Err` with the reason only.
- DiceSets.DiceSet.Sum: integers are unbounded, so Java's 32-bit wrap-around of the running total is not modelled.
- DiceSets.DiceSet.RollIndividual: requires `0 <= i < count`; the Java `ArrayIndexOutOfBoundsException` for other indices is not modelled.
- DiceSets.DiceSet.GetIndividual: requires `0 <= i < count`, for the same reason.
- `ArrayList` in `values()`: the result is a `seq<int>`, so copy independence holds because sequences are values, not because a new object is allocated.
- A `null` argument to `isIdenticalTo` or a `null` varargs array: Dafny references here are non-null.

## Findings

| source | as written | input that shows it | evidently intended | confidence | as-written member | corrected member |
|---|---|---|---|---|---|---|
| DiceSet.java:100-108 | `isIdenticalTo` returns `true` for any argument | six-sided sets from values 1, 2, 3 and 1, 2, 2: the answer is true, but the value 3 occurs once in the first and never in the second | true exactly when the dice count, the sides and the multiset of values are equal | high; not executed | `DiceSets.DiceSet.IsIdenticalTo`, `DiceSets.IsIdenticalToCounterexample` | `DiceSets.DiceSet.HasSameDistribution` |
