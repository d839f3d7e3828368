# Exact decimal SUM with overflow tracking, and pruning of constant-table columns

This project models two pieces of a distributed SQL engine's core in Dafny and proves properties about them.

**Decimal SUM accumulator.** `SUM` over long decimals keeps a mutable state `LongDecimalWithOverflowState` with two fields:
- `longDecimal` is an unscaled 128-bit decimal in sign-magnitude form: a sign bit and a 127-bit magnitude.
- `overflow` is a signed count of the carries taken out of that magnitude.

The aggregation has three operations on this state:
- `inputLongDecimal` adds one value into the state.
- `combine` merges a second partial state into the first, in place.
- `outputLongDecimal` emits the value, or fails with `NUMERIC_VALUE_OUT_OF_RANGE` while a carry is outstanding.

The state always stands for `overflow * 2^127 + value(longDecimal)`. Each carry is worth 2^127 because only the magnitude wraps. Adding two negatives can therefore leave a "negative zero", which compares equal to zero but is not the zero encoding. The model has three modules:
- `UnscaledDecimal128` holds the value type and the add-with-overflow primitive.
- `DecimalSumAggregation` holds the state as a class, with value-level specification functions and lemmas.
- `TestDecimalSumAggregation` replays each scenario of the aggregation's test class on the modelled state.

**Column pruning of a ValuesNode.** The optimizer rule `PruneValuesColumns` matches a `ProjectNode` whose source resolves to a `ValuesNode`. It asks which of the ValuesNode's outputs the projection depends on. It then rebuilds the ValuesNode with only those columns:
- one loop fills an index mapping from each kept symbol to its first column;
- a second loop re-projects every row through that mapping.

The optimizer's `Lookup` and the dependency helper `pruneInputs` are passed to the rule as function parameters.

**Order and grouping.** A reader would expect SUM to give the same outcome whatever the order of the rows and however partial states are merged. The model guarantees this for the exact value:
- `SumPermutation` and `ExactIgnoresInputOrder` prove that any reordering of the inputs leaves a state standing for the same exact value;
- `PartialAggregationIsExact` proves that summing a prefix and a suffix on separate states and merging them gives the exact sum of the whole input.

Under the modelled addition, the state is never brought back to a normal form. A carry taken early stays counted when later values of the other sign bring the sum back into range. The outcome of the output can therefore depend on order and grouping:
- `OutcomeDependsOnInputOrder`: the same three inputs in two orders. One order ends in the range error. The other emits the exact sum, a valid DECIMAL(38, 0) value.
- `OutcomeDependsOnMergeGrouping`: three in-range partial states merged in two groupings show the same split.

This rests on the opposite-sign branch of the addition. That branch is inferred, as the first line under "## Left out" says. An adder that normalised the state would meet the same test assertions.

## Model

| member | source | states |
|---|---|---|
| `UnscaledDecimal128.FromInt` | presto-main/src/test/java/com/facebook/presto/operator/aggregation/TestDecimalSumAggregation.java:55 | An integer has an encoding exactly when its magnitude is below 2^127. The encoding stands for that integer and is never negative zero. |
| `UnscaledDecimal128.FromIntOfValue` | presto-main/src/test/java/com/facebook/presto/operator/aggregation/TestDecimalSumAggregation.java:55 | Encoding the integer a value stands for gives the value back. The one exception is negative zero, which comes back as zero. |
| `UnscaledDecimal128.Compare` | presto-main/src/test/java/com/facebook/presto/operator/aggregation/TestDecimalSumAggregation.java:74 | Signed comparison returns -1, 0 or 1, agreeing with the integers both ways. Negative zero therefore compares equal to zero. |
| `UnscaledDecimal128.AddWithOverflow` | presto-main/src/test/java/com/facebook/presto/operator/aggregation/TestDecimalSumAggregation.java:52-74 | The carry is -1, 0 or 1, and `a + b == carry * 2^127 + sum`. The carry is +1 iff `a + b >= 2^127` and -1 iff `a + b <= -2^127`. A carry keeps the operands' common sign. Negative zero appears only when both operands are negative. |
| `UnscaledDecimal128.AddWithOverflowCommutes` | presto-main/src/test/java/com/facebook/presto/operator/aggregation/TestDecimalSumAggregation.java:96-108 | Swapping the operands gives a bit-identical sum and the same carry. |
| `UnscaledDecimal128.AddWithOverflowRespectsValue` | presto-main/src/test/java/com/facebook/presto/operator/aggregation/TestDecimalSumAggregation.java:74 | Carry and integer sum depend only on the integers the operands stand for. Negative zero behaves as zero. |
| `DecimalSumAggregation.InputStep` | presto-main/src/test/java/com/facebook/presto/operator/aggregation/TestDecimalSumAggregation.java:143-149 | One input adds its value to the exact sum. The carry count moves by at most one, and stays put iff the wrapped sum plus the input fits in 127 bits. Input never fails. |
| `DecimalSumAggregation.CombineStep` | presto-main/src/test/java/com/facebook/presto/operator/aggregation/TestDecimalSumAggregation.java:96-124 | The merged state's exact value is the sum of both exact values. Its carry count is the sum of both counts, plus a carry iff the two wrapped sums together leave the 127-bit window. |
| `DecimalSumAggregation.OutputOf` | presto-main/src/test/java/com/facebook/presto/operator/aggregation/TestDecimalSumAggregation.java:127-141 | The output fails iff a carry is outstanding, and the failure is `NumericValueOutOfRange`. A value it emits is the state's exact value. |
| `DecimalSumAggregation.AccumulateIsExact` | presto-main/src/test/java/com/facebook/presto/operator/aggregation/TestDecimalSumAggregation.java:77-93 | After any sequence of inputs, `overflow * 2^127 + value` is the starting value plus the exact sum of the inputs. |
| `DecimalSumAggregation.PartialAggregationIsExact` | presto-main/src/test/java/com/facebook/presto/operator/aggregation/TestDecimalSumAggregation.java:95-109 | Summing two parts of the input on separate states and combining them gives the exact sum of the whole input. That is the exact value of summing it all on one state. |
| `DecimalSumAggregation.SumPermutation` | presto-main/src/test/java/com/facebook/presto/operator/aggregation/TestDecimalSumAggregation.java:77-93 | Two input sequences with the same multiset of values have the same exact sum. |
| `DecimalSumAggregation.ExactIgnoresInputOrder` | presto-main/src/test/java/com/facebook/presto/operator/aggregation/TestDecimalSumAggregation.java:77-93 | Feeding a fresh state any reordering of the same inputs leaves a state with the same exact value. |
| `DecimalSumAggregation.OutcomeDependsOnMergeGrouping` | presto-main/src/test/java/com/facebook/presto/operator/aggregation/TestDecimalSumAggregation.java:95-109 | Three in-range states (2^126, 2^126, -5) merged as (a + b) + c and as a + (b + c) have the same exact value. The first grouping keeps a carry and fails; the second emits 2^127 - 5. |
| `DecimalSumAggregation.CombineCommutes` | presto-main/src/test/java/com/facebook/presto/operator/aggregation/TestDecimalSumAggregation.java:106 | Combining s with t gives the same state, field for field, as combining t with s. |
| `DecimalSumAggregation.OutputIsSound` | presto-main/src/test/java/com/facebook/presto/operator/aggregation/TestDecimalSumAggregation.java:127-141 | A value emitted after any inputs is their exact sum. A sum whose magnitude reaches 2^127 always ends in `NumericValueOutOfRange`. |
| `DecimalSumAggregation.OutcomeDependsOnInputOrder` | presto-main/src/test/java/com/facebook/presto/operator/aggregation/TestDecimalSumAggregation.java:77-93 | Two orders of the inputs 2^126, 2^126 and -(10^38 - 1) have the same exact sum, which is in range. The state after the first still holds a carry and fails; the second emits the sum. |
| `DecimalSumAggregation.LongDecimalWithOverflowState.constructor` | presto-main/src/test/java/com/facebook/presto/operator/aggregation/TestDecimalSumAggregation.java:46 | A fresh state has value zero and no carry. |
| `DecimalSumAggregation.LongDecimalWithOverflowState.Input` | presto-main/src/test/java/com/facebook/presto/operator/aggregation/TestDecimalSumAggregation.java:143-149 | Updates both fields in place to `InputStep` of the old fields. The exact value grows by the input. |
| `DecimalSumAggregation.LongDecimalWithOverflowState.Combine` | presto-main/src/test/java/com/facebook/presto/operator/aggregation/TestDecimalSumAggregation.java:106 | Updates the destination in place to `CombineStep` of both old states, so its exact value is the sum of the two. A distinct other state is not changed. |
| `DecimalSumAggregation.LongDecimalWithOverflowState.Output` | presto-main/src/test/java/com/facebook/presto/operator/aggregation/TestDecimalSumAggregation.java:135-140 | Fails iff `overflow != 0`. Otherwise it returns the stored value, which is the exact sum. |
| `TestDecimalSumAggregation.Overflow` | presto-main/src/test/java/com/facebook/presto/operator/aggregation/TestDecimalSumAggregation.java:49-61 | 2^126 gives (2^126, 0); a second 2^126 gives (0, 1). |
| `TestDecimalSumAggregation.Underflow` | presto-main/src/test/java/com/facebook/presto/operator/aggregation/TestDecimalSumAggregation.java:63-75 | -2^126 gives (-2^126, 0). A second -2^126 gives overflow -1 and a value that compares equal to zero but is not the zero encoding. |
| `TestDecimalSumAggregation.UnderflowAfterOverflow` | presto-main/src/test/java/com/facebook/presto/operator/aggregation/TestDecimalSumAggregation.java:77-93 | 2^126, 2^126, 2^125 give (2^125, 1); three more of -2^126 give (-2^125, 0). |
| `TestDecimalSumAggregation.CombineOverflow` | presto-main/src/test/java/com/facebook/presto/operator/aggregation/TestDecimalSumAggregation.java:95-109 | Two states of 2^125 + 2^126 each combine to (2^126, 1). |
| `TestDecimalSumAggregation.CombineUnderflow` | presto-main/src/test/java/com/facebook/presto/operator/aggregation/TestDecimalSumAggregation.java:111-125 | Two states of -(2^125 + 2^126) each combine to (-2^126, -1). |
| `TestDecimalSumAggregation.OverflowOnOutput` | presto-main/src/test/java/com/facebook/presto/operator/aggregation/TestDecimalSumAggregation.java:127-141 | After 2^126 twice, overflow is 1 and the output is `NumericValueOutOfRange`, never a value. |
| `PruneValuesColumns.IndexOf` | presto-main/src/main/java/com/facebook/presto/sql/planner/iterative/rule/PruneValuesColumns.java:55 | Returns -1 iff the symbol is absent. Otherwise it returns a position holding the symbol with no earlier occurrence: the first index. |
| `PruneValuesColumns.Mapping` | presto-main/src/main/java/com/facebook/presto/sql/planner/iterative/rule/PruneValuesColumns.java:53-56 | The mapping has one entry per new output. Entry i is the first column of the old outputs that holds new output i. |
| `PruneValuesColumns.NewValuesNode` | presto-main/src/main/java/com/facebook/presto/sql/planner/iterative/rule/PruneValuesColumns.java:58-65 | The node keeps its id, outputs exactly the new symbols, and keeps the number and order of rows. Each row has one cell per new output, and cell i is the old row's cell at the first column of new output i. |
| `PruneValuesColumns.CreateNewValuesNode` | presto-main/src/main/java/com/facebook/presto/sql/planner/iterative/rule/PruneValuesColumns.java:50-66 | The two loops (mapping fill, row re-projection) build exactly `NewValuesNode`. |
| `PruneValuesColumns.Apply` | presto-main/src/main/java/com/facebook/presto/sql/planner/iterative/rule/PruneValuesColumns.java:39-48 | Succeeds iff the node is a projection, its source resolves to a ValuesNode, and the dependency helper yields dependencies. It then returns a projection with the parent's id and assignments over the reduced ValuesNode: original id, outputs exactly the dependencies, same number of rows, cells taken through the mapping. |
| `PruneValuesColumns.PruningKeepsCells` | presto-main/src/main/java/com/facebook/presto/sql/planner/iterative/rule/PruneValuesColumns.java:50-66 | Every kept symbol reads, in every row, the same cell after pruning as before. |
| `PruneValuesColumns.KeepingAllColumnsIsIdentity` | presto-main/src/main/java/com/facebook/presto/sql/planner/iterative/rule/PruneValuesColumns.java:50-66 | Keeping all outputs of a ValuesNode with distinct symbols gives the node back unchanged. |
| `PruneValuesColumns.PruningComposes` | presto-main/src/main/java/com/facebook/presto/sql/planner/iterative/rule/PruneValuesColumns.java:50-66 | Pruning to some outputs and then to a subset of them is the same as pruning to that subset directly. |

## Left out

- The source of `DecimalSumAggregation.java`, `UnscaledDecimal128Arithmetic.java` and `LongDecimalWithOverflowState.java` with its factory is not available. The `DecimalSumAggregation` module, its `LongDecimalWithOverflowState` class and the `UnscaledDecimal128` module reconstruct their behaviour from what the aggregation's tests assert. In particular, the opposite-sign branch of the addition is inferred: it never carries, and equal magnitudes give positive zero.
- Block and slice plumbing: `BlockBuilder`, reading a value at a block position, writing the output into a block, and the 16-byte encoding of an unscaled decimal. Values are integers as sign and magnitude.
- DecimalSumAggregation.LongDecimalWithOverflowState.Input: the overflow counter is an unbounded integer. The 64-bit wrap-around of the source's `long` counter is not modelled; it needs about 2^63 carries.
- DecimalSumAggregation.LongDecimalWithOverflowState.Combine: as for `Input`, the sum of the two counters is not wrapped to 64 bits.
- DecimalSumAggregation.LongDecimalWithOverflowState.Output: a NULL output for a group that received no input, and any range check against the declared precision, are not in the code the model follows. The output emits the stored value whenever no carry is outstanding.
- Serialization of the state between aggregation stages is not in the code the model follows.
- PruneValuesColumns.CreateNewValuesNode: requires every new output to occur among the old outputs. The source would instead read row position -1 and fail with an index error, which happens only when the ValuesNode has at least one row. It also requires every row to have one cell per output symbol; that is the ValuesNode invariant, and `ValuesNode.java` is not part of this model.
- PruneValuesColumns.Apply: requires the same two conditions of the matched ValuesNode and its dependencies, for the same reasons.
- `Lookup.resolve` and `Util.pruneInputs` are parameters of the rule: a function resolving a node and a function giving the dependencies. Their own behaviour is not modelled. Expressions and plan node ids are opaque values.
- `RAgg.java` and `RFunctions.java`: an aggregate and scalar functions that call an external R runtime over the network and compute doubles.
- `LookupJoinOperators.java`: a wrapper around a join-operator compiler that is not part of this model.
- `WebjarsResourceModule.java`, `QueryExecutionResource.java` and `stock_crawler.py`: HTTP resource binding, classpath file loading and downloading files.
