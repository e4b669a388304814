# Stairs: a verified model of a step-function engine

A `Stairs` object is a real-valued step function on the real line. It has:

- an initial value, which holds on `(-inf, first step point)`;
- a strictly increasing sequence of step points;
- an orientation `closed`. With `left` (the default), the value at a step point already includes its jump. With `right`, the jump applies only strictly after the point.

`layer(start, end, value)` changes an object in place: it adds `value` on `[start, end)`, or on `(start, end]` when right-closed. A missing bound means unbounded on that side. All other operations return new step functions or numbers:

- arithmetic: `+`, `*`, `/`;
- pairwise minimum and maximum;
- relational operators, with 0/1-valued results;
- `make_boolean`, `~`, `&` and `|`;
- `diff`;
- aggregation of a collection;
- limits, `values_in_range`, `min` and `max`;
- `integral` and `mean`.

The behaviour modelled is the behaviour the two test files `tests/test_stairs.py` and `tests/test_stairs_module_dates.py` assert. The implementation module `staircase/stairs.py` is not part of this model. Each operation is therefore defined as the tests pin it, and proved once for all inputs. Each test's concrete fixtures are then built and checked against the values the test expects.

Representation (module `StepFunction`, `step_function.dfy`):

- A `StepFn(initial, closed, steps)` stores the accumulated value at each step point.
- The `step_changes` mapping of the tests (point ↦ delta) is derived from it by `StepChanges`, and `Accumulate` inverts it.
- A store is *canonical* (`Canonical`) when its points strictly increase and every step really changes the value. Canonical stores are unique: two canonical functions with the same values are `Identical` (`UniqueRepresentation`, `Extensionality`).
- Evaluation at a finite point `x` depends on `closed`. Left-closed functions take the right limit; right-closed functions take the left limit (`Eval`, `LimitAt`). `Evaluate` adds `-inf` and `+inf`.

The modules:

- `Layering`: the pure meaning of `layer`.
- `StairsObject`: the mutable `Stairs` class. Its `Layer` method updates the stored steps in a loop, and `Call` is a binary search.
- `SortedPoints`: the sorted point union `_get_union_of_points`.
- `Merging`: the breakpoint-merging engine that every binary operator and `aggregate` use.
- `Algebra`: the operators.
- `Aggregation`: `aggregate`.
- `Sampling`: `limit`, `values_in_range`, `min` and `max`.
- `Integration`: `integral` and `mean`.
- `LayerCases`, `Fixtures`, `OperandFixtures`, `ArithmeticFixtures`, `LogicFixtures` and `DateFixtures`: the fixtures `s1`–`s4`, `IS1` and `IS2`, and the tests' expected values.

Axis and values:

- The axis is the reals. In the date tests, the day `2020-01-d` is the number `d`, and `2020-01-02 12:00` is `2.5`.
- A `NaN` bound for `layer` is `None`.
- A `NaN` result (the mean over a zero-width domain, a quotient by a function that takes the value 0) is `None`.
- Every fixture value is a dyadic rational, so Dafny's `real` reproduces most asserted numbers exactly. The exceptions are the quotient in `test_divide` and the three means in `test_mean1` and `test_mean2` (-11/56, -1/24 and -11/24). The test asserts their rounded decimals, and the model states the exact rationals.

Aggregation:

- The aggregating function is a parameter `seq<real> -> real`.
- `MeanOf` is `np.mean` of the tests.
- The collection of functions is a `seq`, whatever container the caller used.

## Model

| member | source | states |
|---|---|---|
| StairsObject.Stairs.constructor | tests/test_stairs.py:88-119 | a new object is canonical with no step points, its value is the initial value everywhere, and `Stairs(0)` is the constant 0 |
| StairsObject.Stairs.Copy | tests/test_stairs.py:288-293 | `copy()` is a fresh object whose function is identical to the original's |
| StairsObject.CopyIsIndependent | tests/test_stairs.py:296-302 | layering `[1, 2)` on a copy leaves the original unchanged and makes the copy differ from it |
| StairsObject.Stairs.Layer | tests/test_stairs.py:123-152 | `layer(start, end, value)` changes the store in place to the canonical form of the old function plus `value` on the layer's interval |
| StairsObject.Stairs.LayerMany | tests/test_stairs.py:305-330 | vectorised `layer` with missing bounds equals applying the triples one at a time, in order |
| StairsObject.Stairs.Call | tests/test_stairs.py:109-119 | calling the object at a finite point, `-inf` or `+inf` (binary search) returns the value the step function has there |
| StepFunction.LimitAt | tests/test_stairs.py:858-879 | definition of `limit(x, side)`: the right side includes the jump at `x` and the left side excludes it; its meaning is stated by `Sampling.LimitMeaning` and `StepFunction.JumpAtBreakpoint` |
| StepFunction.Evaluate | tests/test_stairs.py:109-152 | definition of calling a function at a finite point, at `-inf` (the initial value) or at `+inf` (the last stored value); `StairsObject.Stairs.Call` is proved against it |
| StepFunction.StepChanges | tests/test_stairs.py:951-1054 | definition of `step_changes` (the jump at each step point, in order); `StepFunction.AccumulateStepChanges` proves it loses nothing |
| StepFunction.Identical | tests/test_stairs.py:288-302 | `identical` of canonical functions holds exactly when they have the same orientation and the same value at every point |
| StepFunction.UniqueRepresentation | tests/test_stairs.py:88-90 | two canonical stores with the same values everywhere have the same initial value and the same steps |
| StepFunction.Extensionality | tests/test_stairs.py:288-293 | canonical functions with the same orientation and the same value at every point are equal |
| StepFunction.IdenticalIffSameValues | tests/test_stairs.py:288-302 | for canonical functions with the same orientation, `identical` holds exactly when the values agree everywhere |
| StepFunction.LeftLimitsDetermineRightLimits | tests/test_stairs.py:858-879 | increasing stores with equal left limits everywhere also have equal right limits |
| StepFunction.AccumulateStepChanges | tests/test_stairs.py:951-1054 | accumulating the `step_changes` deltas from the initial value gives back the stored steps |
| StepFunction.StepChangesNonZero | tests/test_stairs.py:951-970 | a canonical function's `step_changes` has one non-zero delta per step, at that step's point |
| StepFunction.JumpAtBreakpoint | tests/test_stairs.py:858-879 | at the k-th step point the right limit is the stored value, the left limit is the previous value, and they differ by the k-th delta |
| StepFunction.NoJumpOffBreakpoints | tests/test_stairs.py:858-879 | away from step points the left and right limits coincide |
| StepFunction.PruneCanonical | tests/test_stairs.py:155-183 | removing redundant steps from an increasing store gives a canonical store |
| StepFunction.PrunePreservesValues | tests/test_stairs.py:155-183 | removing redundant steps does not change any value |
| StepFunction.PruneCanonicalIsIdentity | tests/test_stairs.py:155-183 | pruning an already canonical store is the identity |
| StepFunction.InsertPointPreservesValues | tests/test_stairs.py:123-152 | inserting a breakpoint that carries the current value does not change the function |
| Layering.LayerCanonical | tests/test_stairs.py:123-285 | the result of a layer on any increasing store is canonical |
| Layering.LayerValues | tests/test_stairs.py:123-152 | after a layer, the value at every point is the old value plus `value` on the layer's interval (half-open on the side `closed` names) |
| Layering.LayerAddsOnInterval | tests/test_stairs.py:123-152 | the result is canonical, keeps the orientation, and its value is the old value plus `v` inside the layer (`[start, end)` when left-closed, so including `start` and excluding `end`) and the old value elsewhere |
| Layering.LayerAtInfinity | tests/test_stairs.py:123-152 | at `-inf` the value changes by `v` only when `start` is unbounded; at `+inf` only when `end` is unbounded |
| Layering.LayerCommutes | tests/test_stairs.py:305-330 | two layers give the same function in either order |
| Layering.LayerAllValues | tests/test_stairs.py:305-330 | layering a sequence of triples adds, at each point, the sum of the values of the layers covering it |
| Layering.LayeredIs | tests/test_stairs.py:26-65 | a canonical function with the values of a sequence of layers is the result of those layers |
| Layering.LayerFn | tests/test_stairs.py:123-285 | definition of the state after `layer(start, end, value)`: the bounds inserted, `value` added on the covered breakpoints, redundant steps removed; its meaning is stated by `Layering.LayerAddsOnInterval` and `Layering.LayerAtInfinity` |
| Layering.LayerEmptyIsIdentity | tests/test_stairs.py:123-152 | a layer whose finite end is not above its finite start leaves a canonical function unchanged |
| LayerCases.OneLayer | tests/test_stairs.py:123-152 | one layer gives exactly the steps at start and end (one step if end is unbounded), with the asserted values at -inf, +inf, start and end |
| LayerCases.TwoLayersValues | tests/test_stairs.py:155-285 | two layers give a canonical function whose value is the initial value plus the values of the layers covering the point |
| LayerCases.AdjacentSameValue | tests/test_stairs.py:155-183 | adjacent layers with equal values merge into two steps at `p1` and `p3` |
| LayerCases.AdjacentDifferentValue | tests/test_stairs.py:186-217 | adjacent layers with different values give three steps at `p1`, `p2` and `p3` |
| LayerCases.Overlapping | tests/test_stairs.py:220-251 | overlapping layers give four steps, with the overlap carrying the sum |
| LayerCases.Nested | tests/test_stairs.py:254-285 | a nested layer gives four steps, with the inner interval carrying the sum |
| SortedPoints.InsertSorted | tests/test_stairs_module_dates.py:43-76 | inserting into a sorted duplicate-free sequence keeps it sorted, and its members are the old ones plus the new point |
| SortedPoints.SortedSet | tests/test_stairs_module_dates.py:43-76 | the sorted set of a sequence is sorted, duplicate-free and has the same members |
| SortedPoints.SortedUnique | tests/test_stairs_module_dates.py:43-76 | two sorted duplicate-free sequences with the same members are equal |
| SortedPoints.UnionOfPoints | tests/test_stairs_module_dates.py:43-76 | the union of the functions' step points is sorted, and a point is in it exactly when it is a step point of one of the functions |
| SortedPoints.GetUnionOfPoints | tests/test_stairs_module_dates.py:43-76 | `_get_union_of_points` is one leading anchor below every point, followed by the sorted union |
| Merging.MergeCanonical | tests/test_stairs_module_dates.py:25-41 | merging at sorted points gives a canonical function whose steps lie at those points |
| Merging.MergeBeforeFirst | tests/test_stairs_module_dates.py:93-121 | before the first merge point, the merged value is the function applied to the initial values |
| Merging.MergeHeld | tests/test_stairs_module_dates.py:124-167 | after a merge point, the sample taken there holds until the next merge point |
| Merging.MergeExact | tests/test_stairs_module_dates.py:93-121 | when every step point of the inputs is a merge point, the merged value at every point is the function of the inputs' values there |
| Merging.Merge | tests/test_stairs_module_dates.py:25-41 | definition of the merge-join: `func` of the initial values, then `func` of the samples at each sorted point, redundant steps removed; its meaning is stated by the `Merging` lemmas above |
| Algebra.Combine | tests/test_stairs.py:951-1054 | definition of every binary operator: both operands merged at the sorted union of their step points, with the result taking the left operand's orientation; its meaning is stated by `Algebra.CombinePointwise` |
| Algebra.MakeBoolean | tests/test_stairs.py:333-340 | definition of `make_boolean` as a map of the values to their indicator of `!= 0`; its meaning is stated by `Algebra.MakeBooleanPointwise` |
| Algebra.Invert | tests/test_stairs.py:343-350 | definition of `~` as a map of the values to their indicator of `== 0`; its meaning is stated by `Algebra.InvertPointwise` |
| Algebra.Shift | tests/test_stairs.py:1065-1083 | definition of the shift of a function by `d` used by `diff`; its meaning is stated by `Algebra.ShiftPointwise` |
| Algebra.Diff | tests/test_stairs.py:1065-1083 | definition of `diff(d)` as the function minus its shift by `d`; its meaning is stated by `Algebra.DiffPointwise` |
| Algebra.CombinePointwise | tests/test_stairs.py:951-1054 | a binary operator's result is canonical, keeps the left operand's orientation, and at every point equals the operator applied to the operands' values |
| Algebra.CombineBreakpoints | tests/test_stairs.py:951-970 | the result has steps only at union points (step points of either operand) |
| Algebra.CombineEval | tests/test_stairs.py:951-1054 | for operands with the same orientation, the result's value and both limits are the operator applied to the operands' |
| Algebra.CombineCommutes | tests/test_stairs.py:951-1054 | symmetric operators (`+`, `*`, min, max, `==`, `!=`, `&`, `\|`) give the same result in either order |
| Algebra.MinMaxPair | tests/test_stairs_module_dates.py:25-41 | `_min_pair`/`_max_pair` take, at every point, the smaller/larger of the two values |
| Algebra.NeverZeroMeaning | tests/test_stairs.py:982-1001 | the divisor test holds exactly when the divisor is non-zero at every point and on both sides of every point |
| Algebra.DivideValues | tests/test_stairs.py:982-1001 | a quotient by a never-zero function is the pointwise quotient |
| Algebra.Divide | tests/test_stairs.py:982-1001 | `f / g` is defined exactly when `g` is nowhere 0, and is then canonical with the orientation of `f` |
| Algebra.MapValuesPointwise | tests/test_stairs.py:333-350 | mapping the values of a function gives a canonical function whose value is the mapped value at every point |
| Algebra.MakeBooleanPointwise | tests/test_stairs.py:333-340 | `make_boolean` is 1 where the function is non-zero and 0 where it is zero, at every point and on every side |
| Algebra.InvertPointwise | tests/test_stairs.py:343-350 | `~s` is 1 where `s` is zero and 0 elsewhere |
| Algebra.InvertComplementsMakeBoolean | tests/test_stairs.py:333-350 | `~s` is `1 - make_boolean(s)` everywhere, and `~~s` is `make_boolean(s)` |
| Algebra.RelationalComplements | tests/test_stairs.py:377-439 | `<=` is the complement of `>`, `>=` the complement of `<`, and `!=` the complement of `==` |
| Algebra.AndOrAreMinMaxOfBooleans | tests/test_stairs.py:353-374 | `&` and `\|` are the minimum and maximum of the two functions made boolean |
| Algebra.CombineWithConstant | tests/test_stairs.py:973-979 | combining with a constant maps every stored value and adds no step |
| Algebra.AddScalar | tests/test_stairs.py:973-979 | `s + c` has the value `s(-inf) + c` at `-inf` and keeps `step_changes` unchanged |
| Algebra.MultiplyScalar | tests/test_stairs.py:1041-1054 | `s * c` with `c != 0` scales the stored values, the value at `-inf` and every delta by `c`, at the same points |
| Algebra.MultiplyByZero | tests/test_stairs.py:1041-1054 | `s * 0` is the constant 0 |
| Algebra.DivideScalar | tests/test_stairs.py:1004-1017 | `s / c` with `c != 0` is defined and divides the value at `-inf` and every delta by `c`, at the same points |
| Algebra.ShiftPointwise | tests/test_stairs.py:1065-1083 | a shift by `d` is canonical and its value at `x` is the original's at `x - d` |
| Algebra.DiffPointwise | tests/test_stairs.py:1065-1083 | `diff(d)` is canonical, with value and both limits equal to `s(x) - s(x - d)` |
| Algebra.CombineIs | tests/test_stairs.py:951-1054 | a canonical function with the operator's values at every point is the operator's result |
| Algebra.MakeBooleanIs | tests/test_stairs.py:333-340 | a canonical function equal to the indicator of `s != 0` everywhere is `make_boolean(s)` |
| Algebra.InvertIs | tests/test_stairs.py:343-350 | a canonical function equal to the indicator of `s == 0` everywhere is `~s` |
| Aggregation.SamplePoints | tests/test_stairs_module_dates.py:124-167 | the sample points used by `aggregate` are sorted and duplicate-free |
| Aggregation.AggregatePointwise | tests/test_stairs_module_dates.py:93-121 | without points, `aggregate` is canonical, steps only at the inputs' step points, and at every point equals the function of the inputs' values |
| Aggregation.AggregateAtSamplePoints | tests/test_stairs_module_dates.py:124-167 | with points, `aggregate` steps only at sample points: before the first it is the function of the initial values, after a sample point the sample is held until the next one |
| Aggregation.AggregateIs | tests/test_stairs_module_dates.py:93-121 | a canonical function with the aggregated values everywhere is the result of `aggregate` |
| Aggregation.Aggregate | tests/test_stairs_module_dates.py:93-167 | definition of `aggregate(collection, func, points)`: a merge at the union of points, or at the sample points; its meaning is stated by `Aggregation.AggregatePointwise` and `Aggregation.AggregateAtSamplePoints` |
| Aggregation.MeanOf | tests/test_stairs_module_dates.py:93-167 | definition of `np.mean` of a collection's values (0 for no values); `Aggregation.MeanOfBounds` states its meaning |
| Aggregation.MeanOfBounds | tests/test_stairs_module_dates.py:93-121 | the mean of a non-empty collection of values times its size is their sum, and it lies between any bounds of the values |
| Sampling.NextBelow | tests/test_stairs.py:858-879 | gives a point below `x` that is at or above every step point below `x` |
| Sampling.LimitMeaning | tests/test_stairs.py:858-879 | `limit(x, right)` is the value just after `x`, `limit(x, left)` the value just before, the value at `x` is the limit on the owning side, and the limits differ only at step points |
| Sampling.StepValueIsRightLimit | tests/test_stairs.py:858-879 | the value stored at a step point is the right limit there |
| Sampling.InsideValues | tests/test_stairs.py:824-855 | lists exactly the values stored at step points strictly inside the range |
| Sampling.ValuesInRange | tests/test_stairs.py:824-855 | `values_in_range(where, closed)` is sorted; `Sampling.ValuesInRangeMeaning` states which values it holds |
| Sampling.ValuesInRangeMeaning | tests/test_stairs.py:824-855 | `values_in_range` is sorted, contains exactly the values attained in the range under the chosen orientation, and is empty exactly when the range contains no point |
| Sampling.Min | tests/test_stairs.py:762-790 | `min` is a least member of `values_in_range`, and is `None` exactly when that is empty |
| Sampling.Max | tests/test_stairs.py:793-821 | `max` is a greatest member of `values_in_range`, and is `None` exactly when that is empty |
| Sampling.MinMaxMeaning | tests/test_stairs.py:762-821 | `min` and `max` are attained values and bound the function at every point of the range under the chosen orientation |
| Integration.AreaAdditive | tests/test_stairs.py:466-473 | the area over `[a, b]` is the sum of the areas over `[a, m]` and `[m, b]` |
| Integration.AreaBounds | tests/test_stairs.py:476-483 | the area lies between `lo * width` and `hi * width` when the function lies between `lo` and `hi` |
| Integration.Domain | tests/test_stairs.py:466-491 | the domain defaults to first point to last point, and an explicit `where` is taken when it is not reversed |
| Integration.Integral | tests/test_stairs.py:466-473 | `integral(where)` is defined exactly when the domain is |
| Integration.Mean | tests/test_stairs.py:476-491 | `mean(where)` is defined exactly when the domain has positive width (`NaN` otherwise) |
| Integration.MeanTimesWidth | tests/test_stairs.py:476-483 | the mean times the width of the domain is the integral |
| Integration.ConstantIntegral | tests/test_stairs.py:442-463 | a constant `init` integrates to `init * (b - a)` over `(a, b)`, and its mean there is `init` |
| Integration.MeanBounds | tests/test_stairs.py:476-483 | a mean lies between any bounds of the function's values over the interval |
| Integration.RightLimitBetweenMinAndMax | tests/test_stairs.py:762-821 | over `[a, b)`, every right limit lies between the left-closed `min` and `max` |
| Integration.MeanBetweenMinAndMax | tests/test_stairs.py:476-483 | the mean over `(a, b)` lies between the left-closed `min` and `max` there |
| Integration.Area | tests/test_stairs.py:442-473 | definition of the integral of a store over `[a, b]`, segment by segment; its meaning is stated by `Integration.AreaAdditive`, `Integration.AreaBounds` and `Integration.ConstantIntegral` |
| Fixtures.S1Layered | tests/test_stairs.py:26-33 | the five layers of `s1`, on the constant 0, give the canonical store `S1` |
| Fixtures.BuildS1 | tests/test_stairs.py:26-33 | building `s1` by successive in-place `layer` calls on a `Stairs` object gives `S1` |
| Fixtures.S1Integrals | tests/test_stairs.py:466-483 | the integral of `s1` is -2.75, its integral over `(-1, 5.5)` is 3.5, and its mean over `(2, 8)` is 1.125 |
| Fixtures.S1Mean | tests/test_stairs.py:476-478 | the mean of `s1` is exactly -11/56 (≈ -0.19642857) |
| Fixtures.S1Limits | tests/test_stairs.py:858-879 | `limit` of `s1` at [-4, -2, 1, 3] gives [-1.75, -1.75, 0.25, 2.75] on the right and [0, -1.75, -1.75, 0.25] on the left |
| Fixtures.S1ValuesInRange | tests/test_stairs.py:824-855 | `values_in_range` of `s1` for each tested range and `closed` override gives the tested lists |
| Fixtures.S1Minima | tests/test_stairs.py:762-790 | `min` of `s1` for each tested range and override gives the tested value |
| Fixtures.S1Maxima | tests/test_stairs.py:793-821 | `max` of `s1` for each tested range and override gives the tested value |
| Fixtures.IntegralOfHalfLine | tests/test_stairs.py:486-491 | `layer(None, 0)` on 0 has integral 0 and an undefined (`NaN`) mean |
| Fixtures.HalfLineStatistics | tests/test_stairs.py:486-491 | the chained `Stairs(0).layer(None, 0)` on an object, then `integral()` and `mean()` of it, gives 0 and `NaN` (`None`) |
| Fixtures.S1StepChanges | tests/test_stairs.py:951-970 | the `step_changes` of `s1` are the six listed deltas |
| Fixtures.S1TimesThree | tests/test_stairs.py:1041-1054 | `s1 * 3` has `s1`'s deltas, each times 3 |
| Fixtures.S1OverHalf | tests/test_stairs.py:1004-1017 | `s1 / 0.5` is defined and has `s1`'s deltas, each doubled |
| Fixtures.S1PlusThree | tests/test_stairs.py:973-979 | `s1 + 3` is 3 at `-inf` and has the same `step_changes` as `s1` |
| OperandFixtures.BuildS2 | tests/test_stairs.py:36-43 | building `s2` by in-place layers gives the canonical store `S2` |
| OperandFixtures.BuildS3 | tests/test_stairs.py:46-54 | building `s3` by in-place layers gives the canonical store `S3` |
| OperandFixtures.BuildS4 | tests/test_stairs.py:57-65 | building `s4` by in-place layers gives the canonical store `S4` |
| OperandFixtures.S2Integrals | tests/test_stairs.py:466-473 | the integral of `s2` is -0.5, and its integral over `(-1, 5.5)` is -5 |
| OperandFixtures.S2Mean | tests/test_stairs.py:476-478 | the mean of `s2` is exactly -1/24 (≈ -0.04166666) |
| OperandFixtures.S2MeanBetween | tests/test_stairs.py:481-483 | the mean of `s2` over `(2, 8)` is exactly -11/24 (≈ -0.45833333) |
| ArithmeticFixtures.SumOfS1AndS2 | tests/test_stairs.py:951-970 | `s1 + s2` has exactly the twelve listed `step_changes` |
| ArithmeticFixtures.ProductOfS1AndS2 | tests/test_stairs.py:1020-1038 | `s1 * s2` has exactly the listed `step_changes` |
| ArithmeticFixtures.S2PlusOneIs | tests/test_stairs.py:982-1001 | `s2 + 1` is the canonical store `S2PlusOne` |
| ArithmeticFixtures.QuotientOfS1ByS2PlusOne | tests/test_stairs.py:982-1001 | `s1 / (s2 + 1)` is defined, and its `step_changes` are the exact rationals that the asserted floats round |
| ArithmeticFixtures.DiffOfS1 | tests/test_stairs.py:1065-1083 | `s1.diff(1)` has exactly the listed `step_changes` |
| LogicFixtures.S2BooleanMatches | tests/test_stairs.py:333-340 | `s2.make_boolean()` is identical to the expected layered 0/1 function |
| LogicFixtures.S2InvertedMatches | tests/test_stairs.py:343-350 | `~s2` is identical to the expected layered 0/1 function |
| LogicFixtures.S3AndS4Matches | tests/test_stairs.py:353-362 | `s3 & s4` is identical to the expected layered function |
| LogicFixtures.S3OrS4Matches | tests/test_stairs.py:365-374 | `s3 \| s4` is identical to the expected layered function |
| LogicFixtures.S1LtS2Matches | tests/test_stairs.py:377-384 | `s1 < s2` is identical to the expected layered function |
| LogicFixtures.S1GtS2Matches | tests/test_stairs.py:387-393 | `s1 > s2` is identical to the expected layered function |
| LogicFixtures.S1LeS2Matches | tests/test_stairs.py:396-402 | `s1 <= s2` is identical to the expected layered function |
| LogicFixtures.S1GeS2Matches | tests/test_stairs.py:405-411 | `s1 >= s2` is identical to the expected layered function |
| LogicFixtures.S1EqS2Matches | tests/test_stairs.py:415-430 | `s1 == s2` is identical to the expected layered function |
| LogicFixtures.S1NeS2Matches | tests/test_stairs.py:433-439 | `s1 != s2` is identical to the expected layered function |
| DateFixtures.BuildIS1 | tests/test_stairs_module_dates.py:7-14 | building `IS1` by in-place layers gives the canonical store `IS1` |
| DateFixtures.BuildIS2 | tests/test_stairs_module_dates.py:16-23 | building `IS2` by in-place layers gives the canonical store `IS2` |
| DateFixtures.UnionIS | tests/test_stairs_module_dates.py:43-76 | the union of the step points of `IS1` and `IS2` is the ten listed days, after one anchor |
| DateFixtures.MinPairIS | tests/test_stairs_module_dates.py:25-32 | `_min_pair(IS1, IS2)` is the pointwise minimum store, with exactly the listed deltas (none at days 3, 6, 8) |
| DateFixtures.MaxPairIS | tests/test_stairs_module_dates.py:34-41 | `_max_pair(IS1, IS2)` is the pointwise maximum store, with exactly the listed deltas |
| DateFixtures.AggregateMeanIS | tests/test_stairs_module_dates.py:93-121 | `aggregate([IS1, IS2], mean)` is the pointwise mean, with the listed deltas |
| DateFixtures.AggregateAtPointsIS | tests/test_stairs_module_dates.py:124-167 | `aggregate` at days 3, 5, 7 and 9 has deltas 2.0, -2.25 and 2.5 at days 3, 5 and 9 (none at 7) |

## Left out

- `plot`, `to_frame`, `str`/`repr` and `make_test_data` (tests/test_stairs.py:494-495, 947-948, 1086-1097): display and data-frame plumbing.
- `use_dates`, `_convert_float_to_date` and `_using_dates` (tests/test_stairs_module_dates.py:78-91): a presentation mapping. Day `d` of January is the real `d`, and the model's axis is the reals.
- `var`, `std`, `cov` and `corr` (tests/test_stairs.py:566-733): their tests compare with Monte Carlo floats within a tolerance, and `std`/`corr` need a square root.
- `hist` (tests/test_stairs.py:498-563): it depends on pandas interval indexes and on a default binning.
- `slice`, `rolling_mean` and `agg` with `max`/`mean` over windows (tests/test_stairs.py:736-759, 882-944): their results are pandas-indexed windowed series.
- The scalar truthiness in `Stairs(3) == 3` and `s1 != 3` (tests/test_stairs.py:1057-1062): the value of using a step function as a boolean is not defined by the tests.
- The commented-out `sample` tests (tests/test_stairs_module_dates.py:170-252).
- ArithmeticFixtures.QuotientOfS1ByS2PlusOne: states the exact rational deltas (for example 49/12). The test's literals are their IEEE-754 roundings, and the model has no floating point.
- Fixtures.S1Mean, OperandFixtures.S2Mean and OperandFixtures.S2MeanBetween: state the exact means. The tests compare with rounded decimals within 1e-6.
- Floating point in general: values are exact reals, so no rounding, overflow, `inf` or `NaN` arithmetic is modelled.
- Algebra.Divide: division by a function that takes the value 0 anywhere gives `None`. It does not give the IEEE `inf`/`NaN` steps. Internally a zero divisor contributes 0, but a `Some` result never relies on that.
- Integration.Mean and Integration.Integral: a reversed `where` (`b < a`) gives `None`. A function with no steps and no `where` has no default domain and gives `None`.
- Aggregation.MeanOf: the mean of an empty collection is 0, where `np.mean` gives `NaN`. The tests only aggregate non-empty collections.
- Aggregation.Orientation: an empty collection is taken as left-closed. For a non-empty collection, the result takes the first function's orientation.
- Layering.LayerFn and StairsObject.Stairs.Layer: a layer with a finite `start` above a finite `end` is a no-op (`Layering.LayerEmptyIsIdentity`). The library's documentation calls for a `ValueError` there, and only `start == end` is meant as a no-op. The tests never layer a reversed interval, and the model has no error path for it.
- Algebra.Combine: operands with different orientations are not rejected. The result takes the left operand's orientation.
- Aggregation.SamplePoints: explicit sample points are sorted and made distinct before sampling.
- Integration.MeanBetweenMinAndMax and Integration.RightLimitBetweenMinAndMax: stated for the left-closed `min`/`max` override only. That override owns the same half-open intervals as the area.
- StairsObject.Stairs.constructor: `Stairs()` with no arguments is the constructor called with 0 and `Left`. Default arguments and the check on `closed` values outside `left`/`right` are not modelled, because `Side` admits only the two values.
- Containers: dicts, Series, arrays, lists and tuples of functions (tests/test_stairs_module_dates.py:43-167) are all a `seq` of step functions.
