/**
 * The overflow-tracking accumulator behind SUM over long decimals: a state
 * that holds a wrapped 128-bit sum and a signed count of the 2^127 carries
 * taken out of it, fed one value at a time, merged with partial states from
 * other workers and finally turned into a value or a range error.
 */
module DecimalSumAggregation {
  import opened Wrappers
  import opened UnscaledDecimal128

  /** The engine error code raised when a sum cannot be represented. */
  datatype ErrorCode = NumericValueOutOfRange

  /** The pair of fields of an accumulator, as a value. */
  datatype SumState = SumState(longDecimal: Dec128, overflow: int)

  /** A freshly created state. */
  const Initial: SumState := SumState(Zero, 0)

  /** The exact integer a state stands for: every carry is worth 2^127. */
  function Exact(s: SumState): int {
    s.overflow * MagnitudeLimit + Value(s.longDecimal)
  }

  /** Adds one input value into a state; it never fails, whatever the overflow count. */
  function InputStep(s: SumState, value: Dec128): (t: SumState)
    ensures Exact(t) == Exact(s) + Value(value)
    ensures t.overflow - s.overflow in {-1, 0, 1}
    ensures t.overflow == s.overflow <==> -MagnitudeLimit < Value(s.longDecimal) + Value(value) < MagnitudeLimit
  {
    var r := AddWithOverflow(s.longDecimal, value);
    SumState(r.sum, s.overflow + r.carry)
  }

  /** Merges a second partial state into a first one. */
  function CombineStep(s: SumState, other: SumState): (t: SumState)
    ensures Exact(t) == Exact(s) + Exact(other)
    ensures t.overflow - (s.overflow + other.overflow) in {-1, 0, 1}
    ensures t.overflow == s.overflow + other.overflow
            <==> -MagnitudeLimit < Value(s.longDecimal) + Value(other.longDecimal) < MagnitudeLimit
  {
    var r := AddWithOverflow(s.longDecimal, other.longDecimal);
    SumState(r.sum, s.overflow + other.overflow + r.carry)
  }

  /**
   * The final value of a state: the wrapped sum when no carry is outstanding,
   * and otherwise the range error, never a value.
   */
  function OutputOf(s: SumState): (r: Result<Dec128, ErrorCode>)
    ensures r.Failure? <==> s.overflow != 0
    ensures r.Failure? ==> r.error == NumericValueOutOfRange
    ensures r.Success? ==> Value(r.value) == Exact(s)
  {
    if s.overflow != 0 then Failure(NumericValueOutOfRange) else Success(s.longDecimal)
  }

  /** The exact sum of a sequence of inputs. */
  function Sum(values: seq<Dec128>): int {
    if values == [] then 0 else Sum(values[..|values| - 1]) + Value(values[|values| - 1])
  }

  /** The state after feeding the inputs one by one, in order, into s. */
  function Accumulate(s: SumState, values: seq<Dec128>): SumState {
    if values == [] then s else InputStep(Accumulate(s, values[..|values| - 1]), values[|values| - 1])
  }

  lemma {:induction false} SumAppend(xs: seq<Dec128>, ys: seq<Dec128>)
    ensures Sum(xs + ys) == Sum(xs) + Sum(ys)
  {
    if ys != [] {
      var last := |ys| - 1;
      assert (xs + ys)[..|xs + ys| - 1] == xs + ys[..last];
      SumAppend(xs, ys[..last]);
    } else {
      assert xs + ys == xs;
    }
  }

  /** Taking one input out of a sequence takes its value out of the sum. */
  lemma SumRemove(values: seq<Dec128>, i: nat)
    requires i < |values|
    ensures Sum(values) == Sum(values[..i] + values[i + 1..]) + Value(values[i])
  {
    var front, middle, rest := values[..i], [values[i]], values[i + 1..];
    assert values == front + (middle + rest);
    SumAppend(front, middle + rest);
    SumAppend(middle, rest);
    assert middle[..0] == [];
    assert Sum(middle) == Value(values[i]);
    SumAppend(front, rest);
  }

  /** Removing the element at i from a sequence removes one occurrence from its multiset. */
  lemma MultisetRemove(values: seq<Dec128>, i: nat)
    requires i < |values|
    ensures multiset(values[..i] + values[i + 1..]) == multiset(values) - multiset{values[i]}
  {
    assert values == values[..i] + [values[i]] + values[i + 1..];
  }

  /** The exact sum does not depend on the order of the inputs. */
  lemma {:induction false} SumPermutation(xs: seq<Dec128>, ys: seq<Dec128>)
    requires multiset(xs) == multiset(ys)
    ensures Sum(xs) == Sum(ys)
    decreases |xs|
  {
    if xs == [] {
      assert |ys| == |multiset(ys)| == 0;
    } else {
      var n := |xs| - 1;
      assert xs[n] in multiset(ys);
      var i :| 0 <= i < |ys| && ys[i] == xs[n];
      MultisetRemove(xs, n);
      MultisetRemove(ys, i);
      assert xs[..n] + xs[n + 1..] == xs[..n];
      SumPermutation(xs[..n], ys[..i] + ys[i + 1..]);
      SumRemove(ys, i);
    }
  }

  /** Fed in any order, the same inputs leave states that stand for the same exact value. */
  lemma ExactIgnoresInputOrder(xs: seq<Dec128>, ys: seq<Dec128>)
    requires multiset(xs) == multiset(ys)
    ensures Exact(Accumulate(Initial, xs)) == Exact(Accumulate(Initial, ys))
  {
    AccumulateIsExact(Initial, xs);
    AccumulateIsExact(Initial, ys);
    SumPermutation(xs, ys);
  }

  /**
   * Exactness: however many carries were taken on the way, the state stands
   * for the starting value plus the exact sum of the inputs.
   */
  lemma {:induction false} AccumulateIsExact(s: SumState, values: seq<Dec128>)
    ensures Exact(Accumulate(s, values)) == Exact(s) + Sum(values)
  {
    if values != [] {
      AccumulateIsExact(s, values[..|values| - 1]);
    }
  }

  /**
   * Partial aggregation is exact: summing two parts of the input on separate
   * states and combining the two gives the exact sum of all the input.
   */
  lemma PartialAggregationIsExact(xs: seq<Dec128>, ys: seq<Dec128>)
    ensures Exact(CombineStep(Accumulate(Initial, xs), Accumulate(Initial, ys))) == Sum(xs + ys)
    ensures Exact(CombineStep(Accumulate(Initial, xs), Accumulate(Initial, ys))) == Exact(Accumulate(Initial, xs + ys))
  {
    AccumulateIsExact(Initial, xs);
    AccumulateIsExact(Initial, ys);
    AccumulateIsExact(Initial, xs + ys);
    SumAppend(xs, ys);
  }

  /** Combining is symmetric: the merged state does not depend on which side is the destination. */
  lemma CombineCommutes(s: SumState, other: SumState)
    ensures CombineStep(s, other) == CombineStep(other, s)
  {
    AddWithOverflowCommutes(s.longDecimal, other.longDecimal);
  }

  /**
   * The output of a sum is never wrong: a value it emits is the exact sum of
   * the inputs, and a sum outside the 127-bit window always ends in the range
   * error.
   */
  lemma OutputIsSound(values: seq<Dec128>)
    ensures OutputOf(Accumulate(Initial, values)).Success? ==>
              Value(OutputOf(Accumulate(Initial, values)).value) == Sum(values)
    ensures !(-MagnitudeLimit < Sum(values) < MagnitudeLimit) ==>
              OutputOf(Accumulate(Initial, values)) == Failure(NumericValueOutOfRange)
  {
    AccumulateIsExact(Initial, values);
  }

  /** The largest unscaled value of the DECIMAL(38, 0) type used by the aggregation's tests. */
  const MaxDecimal38: int := 99_999_999_999_999_999_999_999_999_999_999_999_999

  /**
   * The state is never brought back to a normal form: a carry taken early is
   * kept even when later inputs of the other sign bring the exact sum back
   * into range. The same three inputs in two orders have the same exact sum,
   * a valid DECIMAL(38, 0) value, yet one order ends with an outstanding carry
   * and the range error while the other emits the sum.
   */
  lemma OutcomeDependsOnInputOrder()
    ensures var big, small := Dec128(false, MagnitudeLimit / 2), Dec128(true, MaxDecimal38);
            && Sum([big, big, small]) == Sum([small, big, big]) == MagnitudeLimit - MaxDecimal38 <= MaxDecimal38
            && Accumulate(Initial, [big, big, small]) == SumState(small, 1)
            && Accumulate(Initial, [small, big, big]) == SumState(Dec128(false, MagnitudeLimit - MaxDecimal38), 0)
            && OutputOf(Accumulate(Initial, [big, big, small])) == Failure(NumericValueOutOfRange)
            && OutputOf(Accumulate(Initial, [small, big, big])) == Success(Dec128(false, MagnitudeLimit - MaxDecimal38))
  {
    var big, small := Dec128(false, MagnitudeLimit / 2), Dec128(true, MaxDecimal38);
    assert [big, big, small][..2] == [big, big] && [big, big][..1] == [big] && [big][..0] == [];
    assert [small, big, big][..2] == [small, big] && [small, big][..1] == [small] && [small][..0] == [];
    assert Accumulate(Initial, [big]) == SumState(big, 0);
    assert Accumulate(Initial, [big, big]) == SumState(Zero, 1);
    assert Accumulate(Initial, [small]) == SumState(small, 0);
    assert Accumulate(Initial, [small, big]) == SumState(Dec128(true, MaxDecimal38 - MagnitudeLimit / 2), 0);
    AccumulateIsExact(Initial, [big, big, small]);
    AccumulateIsExact(Initial, [small, big, big]);
  }

  /**
   * Merging is not associative on the fields either: three in-range partial
   * states merged in two groupings stand for the same exact value, yet one
   * grouping keeps a carry and fails while the other emits the sum.
   */
  lemma OutcomeDependsOnMergeGrouping()
    ensures var big, small := SumState(Dec128(false, MagnitudeLimit / 2), 0), SumState(Dec128(true, 5), 0);
            && Exact(CombineStep(CombineStep(big, big), small)) == Exact(CombineStep(big, CombineStep(big, small)))
            && OutputOf(CombineStep(CombineStep(big, big), small)) == Failure(NumericValueOutOfRange)
            && OutputOf(CombineStep(big, CombineStep(big, small))) == Success(Dec128(false, MagnitudeLimit - 5))
  {
  }

  /**
   * The mutable aggregation state of SUM over long decimals: the wrapped sum
   * and the count of carries, both updated in place.
   */
  class LongDecimalWithOverflowState {
    var longDecimal: Dec128
    var overflow: int

    /** A fresh state: zero sum, nothing carried. */
    constructor ()
      ensures longDecimal == Zero && overflow == 0
      ensures State() == Initial
    {
      longDecimal := Zero;
      overflow := 0;
    }

    /** The two fields as a value. */
    function State(): SumState
      reads this
    {
      SumState(longDecimal, overflow)
    }

    /** Adds one input value into the state, in place; a carry is counted, never raised. */
    method Input(value: Dec128)
      modifies this
      ensures State() == InputStep(old(State()), value)
      ensures Exact(State()) == Exact(old(State())) + Value(value)
    {
      var r := AddWithOverflow(longDecimal, value);
      longDecimal := r.sum;
      overflow := overflow + r.carry;
    }

    /**
     * Merges another partial state into this one, in place; the other state is
     * only read (combining a state with itself doubles it).
     */
    method Combine(other: LongDecimalWithOverflowState)
      modifies this
      ensures State() == CombineStep(old(State()), old(other.State()))
      ensures Exact(State()) == Exact(old(State())) + Exact(old(other.State()))
      ensures other != this ==> other.State() == old(other.State())
    {
      var r := AddWithOverflow(longDecimal, other.longDecimal);
      overflow := overflow + other.overflow + r.carry;
      longDecimal := r.sum;
    }

    /** Emits the sum, or the range error when a carry is outstanding. */
    method Output() returns (r: Result<Dec128, ErrorCode>)
      ensures r == OutputOf(State())
      ensures r.Failure? <==> overflow != 0
      ensures r.Success? ==> r.value == longDecimal && Value(r.value) == Exact(State())
    {
      if overflow != 0 {
        r := Failure(NumericValueOutOfRange);
      } else {
        r := Success(longDecimal);
      }
    }
  }
}
