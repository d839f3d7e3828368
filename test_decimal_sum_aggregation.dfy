/**
 * The aggregation's test scenarios, replayed on the modelled state class:
 * each method creates fresh states, feeds them the same values in the same
 * order and returns what the test observes, and its postcondition is what
 * the test asserts.
 */
module TestDecimalSumAggregation {
  import opened Wrappers
  import opened UnscaledDecimal128
  import opened DecimalSumAggregation

  const Pow125: int := MagnitudeLimit / 4
  const Pow126: int := MagnitudeLimit / 2

  /** The unscaled decimal of an integer that fits. */
  function Unscaled(x: int): (d: Dec128)
    requires -MagnitudeLimit < x < MagnitudeLimit
    ensures Value(d) == x
  {
    FromInt(x).value
  }

  /** Two inputs of 2^126: the first fits, the second carries once and leaves zero. */
  method Overflow() returns (afterOne: SumState, afterTwo: SumState)
    ensures afterOne == SumState(Unscaled(Pow126), 0)
    ensures afterTwo == SumState(Unscaled(0), 1)
  {
    var plus126 := Unscaled(Pow126);
    assert plus126 == Dec128(false, Pow126);
    var state := new LongDecimalWithOverflowState();
    state.Input(plus126);
    afterOne := state.State();
    state.Input(plus126);
    afterTwo := state.State();
  }

  /**
   * Two inputs of -2^126: the second borrows once and leaves negative zero,
   * which compares equal to zero but is not the zero encoding.
   */
  method Underflow() returns (afterOne: SumState, afterTwo: SumState)
    ensures afterOne == SumState(Unscaled(-Pow126), 0)
    ensures afterTwo.overflow == -1
    ensures Compare(afterTwo.longDecimal, Unscaled(0)) == 0
    ensures afterTwo.longDecimal != Unscaled(0)
  {
    var minus126 := Unscaled(-Pow126);
    assert minus126 == Dec128(true, Pow126);
    var state := new LongDecimalWithOverflowState();
    state.Input(minus126);
    afterOne := state.State();
    state.Input(minus126);
    afterTwo := state.State();
    assert afterTwo == SumState(Dec128(true, 0), -1);
  }

  /** The additions the scenario below goes through, one state at a time. */
  lemma UnderflowAfterOverflowSteps()
    ensures InputStep(Initial, Dec128(false, Pow126)) == SumState(Dec128(false, Pow126), 0)
    ensures InputStep(SumState(Dec128(false, Pow126), 0), Dec128(false, Pow126)) == SumState(Zero, 1)
    ensures InputStep(SumState(Zero, 1), Dec128(false, Pow125)) == SumState(Dec128(false, Pow125), 1)
    ensures InputStep(SumState(Dec128(false, Pow125), 1), Dec128(true, Pow126)) == SumState(Dec128(true, Pow125), 1)
    ensures InputStep(SumState(Dec128(true, Pow125), 1), Dec128(true, Pow126)) == SumState(Dec128(true, Pow125 + Pow126), 1)
    ensures InputStep(SumState(Dec128(true, Pow125 + Pow126), 1), Dec128(true, Pow126)) == SumState(Dec128(true, Pow125), 0)
  {
  }

  /** A carry taken on the way up is given back on the way down, and the sum stays exact. */
  method UnderflowAfterOverflow() returns (afterRise: SumState, afterFall: SumState)
    ensures afterRise == SumState(Unscaled(Pow125), 1)
    ensures afterFall == SumState(Unscaled(-Pow125), 0)
  {
    var plus125, plus126, minus126 := Unscaled(Pow125), Unscaled(Pow126), Unscaled(-Pow126);
    assert plus125 == Dec128(false, Pow125) && plus126 == Dec128(false, Pow126) && minus126 == Dec128(true, Pow126);
    UnderflowAfterOverflowSteps();
    var state := new LongDecimalWithOverflowState();
    state.Input(plus126);
    state.Input(plus126);
    state.Input(plus125);
    afterRise := state.State();
    state.Input(minus126);
    state.Input(minus126);
    state.Input(minus126);
    afterFall := state.State();
  }

  /** The additions and the merge the two combine scenarios below go through. */
  lemma CombineSteps()
    ensures InputStep(Initial, Dec128(false, Pow125)) == SumState(Dec128(false, Pow125), 0)
    ensures InputStep(SumState(Dec128(false, Pow125), 0), Dec128(false, Pow126)) == SumState(Dec128(false, Pow125 + Pow126), 0)
    ensures CombineStep(SumState(Dec128(false, Pow125 + Pow126), 0), SumState(Dec128(false, Pow125 + Pow126), 0))
            == SumState(Dec128(false, Pow126), 1)
    ensures InputStep(Initial, Dec128(true, Pow125)) == SumState(Dec128(true, Pow125), 0)
    ensures InputStep(SumState(Dec128(true, Pow125), 0), Dec128(true, Pow126)) == SumState(Dec128(true, Pow125 + Pow126), 0)
    ensures CombineStep(SumState(Dec128(true, Pow125 + Pow126), 0), SumState(Dec128(true, Pow125 + Pow126), 0))
            == SumState(Dec128(true, Pow126), -1)
  {
  }

  /** Two states that are each in range carry when they are merged. */
  method CombineOverflow() returns (combined: SumState)
    ensures combined == SumState(Unscaled(Pow126), 1)
  {
    var plus125, plus126 := Unscaled(Pow125), Unscaled(Pow126);
    assert plus125 == Dec128(false, Pow125) && plus126 == Dec128(false, Pow126);
    CombineSteps();
    var state := new LongDecimalWithOverflowState();
    state.Input(plus125);
    state.Input(plus126);
    var otherState := new LongDecimalWithOverflowState();
    otherState.Input(plus125);
    otherState.Input(plus126);
    state.Combine(otherState);
    combined := state.State();
  }

  /** The mirror image: two negative states in range borrow when they are merged. */
  method CombineUnderflow() returns (combined: SumState)
    ensures combined == SumState(Unscaled(-Pow126), -1)
  {
    var minus125, minus126 := Unscaled(-Pow125), Unscaled(-Pow126);
    assert minus125 == Dec128(true, Pow125) && minus126 == Dec128(true, Pow126);
    CombineSteps();
    var state := new LongDecimalWithOverflowState();
    state.Input(minus125);
    state.Input(minus126);
    var otherState := new LongDecimalWithOverflowState();
    otherState.Input(minus125);
    otherState.Input(minus126);
    state.Combine(otherState);
    combined := state.State();
  }

  /** With a carry outstanding the output is the range error and no value. */
  method OverflowOnOutput() returns (overflow: int, output: Result<Dec128, ErrorCode>)
    ensures overflow == 1
    ensures output == Failure(NumericValueOutOfRange)
  {
    var plus126 := Unscaled(Pow126);
    assert plus126 == Dec128(false, Pow126);
    var state := new LongDecimalWithOverflowState();
    state.Input(plus126);
    state.Input(plus126);
    overflow := state.overflow;
    output := state.Output();
  }
}
