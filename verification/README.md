# Relations and functions over sample points

A model of the core of the `knowledge_toolkit` math package: the
set-of-pairs `Relation` and the `Function` built on top of it.

- `Relations` (relation.dfy) is a relation generic over the pair
  components. It is a duplicate-free set of `(x, y)` pairs. It has the
  projections `domain` and `range` and the pair-swapping `inverse`. It has
  the vertical line test `is_function` (`|domain| == |pairs|`) and the
  horizontal line test `is_one_to_one` (`|range| == |pairs|`), both on
  cardinalities exactly as the code computes them. It has the two lookups
  `get_value_for` and `get_all_values_for`. The older draft in
  `src/algebra/relation.py` has the same constructor, `domain` and `range`,
  so the same members model it.
- `Functions` (functions.dfy) models a function over the integers. It is a
  relation that passes the vertical line test, an optional rule, and the
  cached symmetry classification. It covers construction (which refuses a
  relation that is not a function), evaluation, the `identity` and
  `constant` factories, `compose`, the six shifts, stretches and
  reflections, and `check_symmetry`.
- `Examples` (examples.dfy) proves the concrete facts that the repository's
  tests and its demo script state, as statements about the model.
- `Wrappers` (wrappers.dfy) holds `Option` and `Result`.

Modelling choices:

- A raised exception is a `Result` failure. The constructor's `ValueError`
  is `Failure(NotAFunction)`.
- A Python value that may be `None` is an `Option`.
- `get_value_for` returns the second component of the first matching pair in set iteration order.
  Here that is a nondeterministic choice (`Relations.GetValueFor`, a
  method using `:|`). When the relation is a function, only one choice
  exists, and `Relations.ValueFor` is that deterministic value. Evaluation
  uses it.
- A rule is `Option<int> -> Option<int>`. Its argument is `None` where
  Python passes `None` to a function: `compose` does this when the inner
  function has no value, because `f(g(x))` then evaluates `f(None)`. Its
  result is `None` where the evaluation has no value. That happens when a
  rule-less lookup falls through (`Functions.ApplyAt` at `None`). It also
  happens where Python would raise `TypeError` on arithmetic with `None`,
  as in `None + k`. So the identity's rule passes `None` through, the
  constant's rule gives its constant, and an arithmetic rule gives `None`.
- A constructed `Function` always satisfies `Valid()`, which is the
  vertical line test of its relation. Every operation on a `Function`
  requires it, because the constructor refuses a relation that fails it.
- `check_symmetry` mutates the object's cache. Here it is a method that
  returns the function with the cache set. Python's `all(...)` is the
  method `Functions.All`, which walks the set in arbitrary order and stops
  at the first failure.

`inverse` never loses pairs: swapping is injective, and `Relations.Inverse`
proves the cardinality is preserved. The constructor tests in `Math/tests/algebra_test/test_function.py:9-17`
expect a non-function to construct and read an `is_function` attribute
that `Function` does not have. The model follows the constructor's check
at `Math/core/functions.py:28-29` instead.

## Model

| member | source | states |
|---|---|---|
| Relations.FromList | Math/core/relation.py:12-13 | `None` or an empty list gives no pairs; otherwise a pair is stored exactly when it occurs in the list, so duplicates collapse, and there are at most as many pairs as list entries |
| Relations.Domain | Math/core/relation.py:47-50 | x is in the domain exactly when some pair has first component x; the domain is no larger than the pair set |
| Relations.Range | Math/core/relation.py:52-55 | y is in the range exactly when some pair has second component y; the range is no larger than the pair set |
| Relations.ImageCardinality | Math/core/relation.py:47-55 | a set's image under a map is no larger than the set, and equally large exactly when the map is injective on it; this is the counting fact behind both line tests |
| Relations.Inverse | Math/core/relation.py:57-60 | `(y, x)` is in the inverse exactly when `(x, y)` is in the relation, and the inverse has exactly as many pairs (it never shrinks) |
| Relations.InverseInvolution | Math/core/relation.py:57-60 | inverting twice gives back the original relation |
| Relations.IsFunction | Math/core/relation.py:62-65 | the vertical line test (domain as large as the pair set) holds exactly when no two distinct pairs share a first component |
| Relations.IsOneToOne | Math/core/relation.py:67-70 | the horizontal line test (range as large as the pair set) holds exactly when no two distinct pairs share a second component |
| Relations.InverseDomainIsRange | Math/core/relation.py:47-60 | the inverse's domain is the original range |
| Relations.InverseRangeIsDomain | Math/core/relation.py:47-60 | the inverse's range is the original domain |
| Relations.InverseIsFunctionIffOneToOne | Math/core/relation.py:57-70 | the inverse passes the vertical line test exactly when the relation passes the horizontal one |
| Relations.InverseIsOneToOneIffFunction | Math/core/relation.py:57-70 | the inverse passes the horizontal line test exactly when the relation passes the vertical one |
| Relations.GetAllValuesFor | Math/core/relation.py:30-45 | the result holds exactly the y paired with x, and is empty (not an error) exactly when x is outside the domain |
| Relations.GetValueFor | Math/core/relation.py:15-28 | returns some y paired with x when x is in the domain, and `None` (the loop falls through) when it is not; on a function, that y is the unique one |
| Relations.ValueFor | Math/core/relation.py:15-28 | on a function, the lookup is present exactly on the domain, and `Some(y)` exactly when `(x, y)` is a pair |
| Relations.AllValuesOfFunction | Math/core/relation.py:15-45 | on a function, all values for x are the empty set off the domain and the single looked-up value on it |
| Functions.New | Math/core/functions.py:20-36 | construction fails exactly when the relation fails the vertical line test; otherwise it keeps relation and rule unchanged, with no symmetry cached |
| Functions.Apply | Math/core/functions.py:38-49 | with a rule, evaluation is the rule at any input, also off the samples; without one, it is present exactly on the domain, and is `Some(v)` exactly when `(x, v)` is a sample |
| Functions.ApplyAt | Math/core/functions.py:38-49 | evaluation at an argument that may be `None`: an integer evaluates as `Apply` does; with a rule the result is the rule at the argument; without one it is `Some(v)` exactly when the argument is an integer paired with v, so `None` finds no pair and falls through (Math/core/relation.py:22-25) |
| Functions.ReturnSymmetryType | Math/core/functions.py:51-54 | the cached name: `None` exactly while nothing is classified, and "even", "odd" or "neither" exactly for the matching classification |
| Functions.GraphIsFunction | Math/core/functions.py:56-81 | the samples `[(x, g(x)) for x in range(a, b)]` are exactly the points `(x, g(x))` with `a <= x < b`, and they pass the vertical line test |
| Functions.Identity | Math/core/functions.py:56-67 | defaults `a = 0`, `b = 1`; always constructs; the samples are `(x, x)` for `a <= x < b`; it evaluates to x everywhere and passes `None` through |
| Functions.Constant | Math/core/functions.py:69-81 | defaults `c = 0`, `a = 0`, `b = 1`; always constructs; the samples are `(x, c)` for `a <= x < b`; it evaluates to c everywhere, also at `None` |
| Functions.Compose | Math/core/functions.py:83-90 | always constructs with the outer function's samples; evaluates to `f(g(x))`, and to `f(None)` where `g(x)` has no value |
| Functions.VerticalShift | Math/core/functions.py:101-110 | same samples; evaluates to `f(x) + k` |
| Functions.HorizontalShift | Math/core/functions.py:112-121 | same samples; evaluates to `f(x - h)` |
| Functions.VerticalStretch | Math/core/functions.py:123-132 | same samples; evaluates to `f(x) * a` |
| Functions.HorizontalStretch | Math/core/functions.py:134-143 | same samples; evaluates to `f(x * b)` |
| Functions.ReflectOverXAxis | Math/core/functions.py:145-152 | same samples; evaluates to `-f(x)` |
| Functions.ReflectOverYAxis | Math/core/functions.py:154-161 | same samples; evaluates to `f(-x)` |
| Functions.VerticalShiftRoundTrip | Math/core/functions.py:101-110 | shifting up by k and then by -k restores every value |
| Functions.HorizontalShiftRoundTrip | Math/core/functions.py:112-121 | shifting right by h and then by -h restores every value |
| Functions.StretchByOne | Math/core/functions.py:123-143 | stretching by 1, vertically or horizontally, changes no value |
| Functions.VerticalStretchByMinusOne | Math/core/functions.py:123-152 | a vertical stretch by -1 evaluates like the reflection over the x-axis |
| Functions.HorizontalStretchByMinusOne | Math/core/functions.py:134-161 | a horizontal stretch by -1 evaluates like the reflection over the y-axis |
| Functions.VerticalStretchesMultiply | Math/core/functions.py:123-132 | stretching vertically by a and then by b evaluates like one stretch by a * b |
| Functions.HorizontalStretchesMultiply | Math/core/functions.py:134-143 | stretching horizontally by a and then by b evaluates like one stretch by a * b |
| Functions.ReflectOverXAxisInvolution | Math/core/functions.py:145-152 | reflecting over the x-axis twice restores every value |
| Functions.ReflectOverYAxisInvolution | Math/core/functions.py:154-161 | reflecting over the y-axis twice restores every value |
| Functions.ComposeIdentity | Math/core/functions.py:83-90 | composing with the identity on either side evaluates like the function itself, at every input |
| Functions.ComposeConstant | Math/core/functions.py:83-90 | composing after the constant c evaluates to `f(c)` everywhere |
| Functions.ConstantAfterAnything | Math/core/functions.py:69-90 | the constant c composed after any function evaluates to c everywhere, also where the inner function has no value (see "## Left out" for inner functions that raise in Python) |
| Functions.All | Math/core/functions.py:169-172 | the early-exit walk over a set answers true exactly when every element satisfies the test |
| Functions.CheckSymmetry | Math/core/functions.py:163-174 | samples and rule unchanged, and afterwards `return_symmetry_type` gives a name: "even" exactly when `f(x) == f(-x)` on the whole domain, else "odd" exactly when `f(-x) == -f(x)` there, else "neither" |
| Examples.Sampled | testing.py:5-9 | the test pattern `Function(Relation([(x, r(x)) for x in range(-5, 6)]), rule=r)` constructs, evaluates to `r(x)`, has domain `-5 <= x < 6`, and gives no value at `None` |
| Examples.DuplicatesCollapse | Math/tests/algebra_test/test_relation.py:5-15 | `[(1, 3), (2, 4), (1, 5), (1, 3)]` stores the three distinct pairs |
| Examples.DomainOfSamples | Math/tests/algebra_test/test_relation.py:50-58 | the domain of those pairs is `{1, 2}` |
| Examples.RangeOfSamples | Math/tests/algebra_test/test_relation.py:101-107 | the range of those pairs is `{3, 4, 5}` |
| Examples.RepeatedInputIsNotAFunction | Math/core/relation.py:62-65 | those pairs repeat the input 1, so they fail the vertical line test |
| Examples.OrderIndependence | tests/algebra_test/test_relation.py:79-89 | two lists with the same entries, in any order and with any repetition, give the same relation, domain and range |
| Examples.InverseOfSamples | Math/tests/algebra_test/test_relation.py:198-204 | the inverse of `{(1, 3), (2, 4), (3, 5), (4, 6)}` is `{(3, 1), (4, 2), (5, 3), (6, 4)}` |
| Examples.DistinctInputs | Math/core/relation.py:62-65 | four pairs at four distinct inputs share no input |
| Examples.SwappedSamplesAreAFunction | Math/tests/algebra_test/test_relation.py:224-228 | `{(3, 1), (4, 2), (5, 3), (6, 4)}` passes the vertical line test |
| Examples.InverseOfOneToOneIsFunction | Math/tests/algebra_test/test_relation.py:224-228 | the inverse of `{(1, 3), (2, 4), (3, 5), (4, 6)}` is a function |
| Examples.InverseOfManyToOne | Math/tests/algebra_test/test_relation.py:231-235 | the inverse of `{(1, 4), (2, 4), (3, 5), (4, 6)}` is not a function |
| Examples.LookupSamplesAreAFunction | Math/tests/algebra_test/test_relation.py:238-243 | `{(1, 4), (2, 4), (3, 5), (4, 6)}` passes the vertical line test |
| Examples.LookupFound | Math/tests/algebra_test/test_relation.py:238-243 | in those samples the lookup gives 4 for 2 and 5 for 3 |
| Examples.LookupMissing | Math/core/relation.py:22-25 | in those samples the lookup for 7 falls through and gives nothing |
| Examples.ConstructionRefusesRepeatedInput | Math/core/functions.py:28-29 | `Function(Relation([(1, 2), (2, 3), (1, 5)]))` fails construction |
| Examples.ConstructionAcceptsDistinctInputs | Math/core/functions.py:20-36 | `Function(Relation([(1, 2), (2, 3)]))` constructs |
| Examples.ComposeSampled | Math/tests/algebra_test/test_function.py:27-37 | composing two sampled arithmetic rules evaluates to the composed rule at every input |
| Examples.ComposeSampledAt | Math/tests/algebra_test/test_function.py:27-37 | the same law at one given input |
| Examples.SquareAfterSuccessor | Math/tests/algebra_test/test_function.py:27-37 | x² after x + 1 gives 9, 1 and 1 at 2, 0 and -2 |
| Examples.ShiftAfterItself | Math/tests/algebra_test/test_function.py:40-48 | x - 3 after itself gives -4, -13 and -1 at 2, -7 and 5 |
| Examples.SquareAfterIdentity | Math/tests/algebra_test/test_function.py:51-61 | the identity gives 2 at 2; x² after the identity gives 4, 10000 and 16 at 2, 100 and -4 |
| Examples.ConstantAfterCube | Math/tests/algebra_test/test_function.py:64-72 | `Function.constant(7)`, with its default range, gives 7 at 1 and, after x³, 7 at 9 |
| Examples.ConstantAfterMissingValue | Math/core/functions.py:83-90 | `Function.constant(7)` after a rule-less function sampled only at 1 gives 7 at 5, where the inner lookup has no value |
| Examples.EvenRule | Math/core/functions.py:169-170 | a sampled rule with `r(-x) == r(x)` everywhere is even |
| Examples.OddRule | Math/core/functions.py:171-172 | a sampled rule with `r(-x) == -r(x)` everywhere is odd |
| Examples.SquareIsEven | testing.py:5-11 | x² over `range(-5, 6)` is even |
| Examples.CubeIsNotEven | testing.py:8-12 | x³ over `range(-5, 6)` is not even |
| Examples.CubeIsOdd | testing.py:8-12 | x³ over `range(-5, 6)` is odd |
| Examples.ClassifySamples | testing.py:5-12 | running the classification on x² and on x³ over `range(-5, 6)` stores the names "even" and "odd" |
| Examples.LineIsNeither | Math/core/functions.py:163-174 | x + 1 over `range(-5, 6)` is neither even nor odd |
| Examples.ZeroIsEvenAndOdd | Math/core/functions.py:163-174 | the zero constant is both even and odd, so the 'even' test, which comes first, decides |

## Left out

- Set iteration order is not modelled. Which pair `get_value_for` returns first is a nondeterministic choice, and `all(...)` visits the domain in an arbitrary order.
- The `except` branches of the two lookups raise only when a stored item is not a pair. The model's pairs are always pairs, so those branches do not exist here.
- Python's `TypeError` on `None + k`, `None * a`, `-None` and similar is modelled as an absent value (`None`). A raised error and a returned `None` are therefore the same value here, and a later step can turn that absent value into a result. The three lines below name where this differs from the program.
- Functions.Compose: when evaluating the inner function raises in Python (a transformation of a rule-less function evaluated off its samples, say `g.vertical_shift(1)` at an unsampled x), `self(other(x))` raises; the model instead passes `None` to the outer function and gives whatever that yields.
- Functions.ConstantAfterAnything: for the same reason the constant c after an inner function that raises in Python gives c in the model, while the program raises.
- Functions.CheckSymmetry: when `f(x)`, `f(-x)` or `-f(x)` raises in Python during the even or the odd test (a shifted, stretched or reflected rule-less function whose domain is not symmetric), `check_symmetry` raises; the model compares absent values instead and stores a classification, usually "neither".
- Only integer-valued functions are modelled. The tests also use mixed strings, ints and floats in relations; `Relations` is generic over the component types, but floating point and Python's cross-type equality (`1 == 1.0` merging in a set) are not modelled.
- A Python rule may be any callable and may raise. Here a rule is a total map from `Option<int>` to `Option<int>`.
- `func_arithmetic`, `intervals_of_increase`, `intervals_of_decrease`, `is_increasing`, `is_decreasing` and `is_constant` are empty stubs, so they are not modelled. `symmetry_type()` returns a constant `True` and is not modelled. The interval and monotonicity cache fields that the constructor sets to `None` are not modelled either.
- Relations are immutable values. Python's `Function` keeps a reference to the caller's `Relation`, every transformation shares it, and `pairs` is a public mutable set; mutating it after construction could break the vertical line test without a new check. Aliasing and mutation of `pairs` are not modelled.
- `Math/algebra/linearFunction.py` is not part of this model. It relies on floating-point slope and intercept, its constructor does not pass a relation, and the rest of it is stubs.
- `Math/src/algebra/functions.py` is not part of this model. It is an abandoned draft of the same class that calls a lookup that does not exist.
- The large-data test (500 distinct pairs plus 250 repeats) is covered generically: `Relations.FromList` and `Functions.GraphIsFunction` state membership and the vertical line test for every sampled range. The exact count of 500 is not proved for that literal.
- The stale constructor tests at `Math/tests/algebra_test/test_function.py:9-17` contradict the constructor and are not modelled.
