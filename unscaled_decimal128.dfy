/**
 * The unscaled 128-bit decimal that the decimal SUM aggregation adds up.
 *
 * A value is a sign bit and a 127-bit magnitude (sign-magnitude, not two's
 * complement), so both "positive zero" and "negative zero" exist. The scale
 * of the decimal type is carried by the column type and is not part of the
 * value.
 */
module UnscaledDecimal128 {
  import opened Wrappers

  /** 2^127: one more than the largest magnitude a value can hold. */
  const MagnitudeLimit: int := 0x8000_0000_0000_0000_0000_0000_0000_0000

  type Magnitude = m: int | 0 <= m < MagnitudeLimit

  /** Sign bit plus magnitude; Dec128(true, 0) is negative zero. */
  datatype Dec128 = Dec128(negative: bool, magnitude: Magnitude)

  /** The all-zero value a fresh accumulator starts from. */
  const Zero: Dec128 := Dec128(false, 0)

  /** The integer a value stands for. */
  function Value(d: Dec128): (v: int)
    ensures -MagnitudeLimit < v < MagnitudeLimit
    ensures v == 0 <==> d.magnitude == 0
    ensures v < 0 <==> d.negative && d.magnitude != 0
  {
    if d.negative then -(d.magnitude as int) else d.magnitude as int
  }

  /** Negative and not zero: negative zero is not strictly negative. */
  predicate IsStrictlyNegative(d: Dec128) {
    d.negative && d.magnitude != 0
  }

  /**
   * Encodes an integer as an unscaled decimal; integers whose magnitude needs
   * more than 127 bits have no encoding.
   */
  function FromInt(x: int): (r: Option<Dec128>)
    ensures r.Some? <==> -MagnitudeLimit < x < MagnitudeLimit
    ensures r.Some? ==> Value(r.value) == x && !(r.value.negative && r.value.magnitude == 0)
  {
    if x <= -MagnitudeLimit || MagnitudeLimit <= x then None
    else if x < 0 then Some(Dec128(true, -x))
    else Some(Dec128(false, x))
  }

  /** Encoding the integer a value stands for gives the value back, except that negative zero becomes zero. */
  lemma FromIntOfValue(d: Dec128)
    ensures FromInt(Value(d)) == Some(if d.magnitude == 0 then Zero else d)
  {
  }

  /** Three-way comparison of the magnitudes alone. */
  function CompareAbsolute(a: Dec128, b: Dec128): (c: int)
    ensures c == -1 || c == 0 || c == 1
    ensures c < 0 <==> a.magnitude < b.magnitude
    ensures c > 0 <==> a.magnitude > b.magnitude
  {
    if a.magnitude < b.magnitude then -1
    else if a.magnitude > b.magnitude then 1
    else 0
  }

  /**
   * Signed three-way comparison. Only the strictly negative values are ordered
   * below zero, so negative zero compares equal to zero.
   */
  function Compare(a: Dec128, b: Dec128): (c: int)
    ensures c == -1 || c == 0 || c == 1
    ensures c < 0 <==> Value(a) < Value(b)
    ensures c == 0 <==> Value(a) == Value(b)
    ensures c > 0 <==> Value(a) > Value(b)
  {
    var aNegative, bNegative := IsStrictlyNegative(a), IsStrictlyNegative(b);
    if aNegative != bNegative then
      (if aNegative then -1 else 1)
    else if aNegative then
      -CompareAbsolute(a, b)
    else
      CompareAbsolute(a, b)
  }

  /** A wrapped sum and the number of times 2^127 was carried out of it. */
  datatype AddResult = AddResult(sum: Dec128, carry: int)

  /**
   * Sign-magnitude addition with overflow reporting. Operands of the same sign
   * have their magnitudes added; a carry out of the 127-bit magnitude is
   * reported as +1 (both positive) or -1 (both negative) and the sum keeps the
   * operands' sign, so two negatives that add to exactly -2^127 leave negative
   * zero. Operands of opposite signs never carry: the smaller magnitude is
   * subtracted from the larger, and equal magnitudes give zero.
   */
  function AddWithOverflow(a: Dec128, b: Dec128): (r: AddResult)
    ensures r.carry == -1 || r.carry == 0 || r.carry == 1
    ensures Value(a) + Value(b) == r.carry * MagnitudeLimit + Value(r.sum)
    ensures r.carry == 1 <==> Value(a) + Value(b) >= MagnitudeLimit
    ensures r.carry == -1 <==> Value(a) + Value(b) <= -MagnitudeLimit
    ensures r.carry != 0 ==> a.negative == b.negative == r.sum.negative
    ensures r.sum.negative && r.sum.magnitude == 0 ==> a.negative && b.negative
  {
    if a.negative == b.negative then
      var total := a.magnitude as int + b.magnitude as int;
      if total >= MagnitudeLimit then
        AddResult(Dec128(a.negative, total - MagnitudeLimit), if a.negative then -1 else 1)
      else
        AddResult(Dec128(a.negative, total), 0)
    else
      var c := CompareAbsolute(a, b);
      if c > 0 then
        AddResult(Dec128(a.negative, a.magnitude - b.magnitude), 0)
      else if c < 0 then
        AddResult(Dec128(b.negative, b.magnitude - a.magnitude), 0)
      else
        AddResult(Zero, 0)
  }

  /** The operands can be swapped: the same sum, bit for bit, and the same carry. */
  lemma AddWithOverflowCommutes(a: Dec128, b: Dec128)
    ensures AddWithOverflow(a, b) == AddWithOverflow(b, a)
  {
  }

  /** The carry and the integer value of the sum depend only on the integers the operands stand for. */
  lemma AddWithOverflowRespectsValue(a: Dec128, b: Dec128, a': Dec128, b': Dec128)
    requires Value(a) == Value(a') && Value(b) == Value(b')
    ensures AddWithOverflow(a, b).carry == AddWithOverflow(a', b').carry
    ensures Value(AddWithOverflow(a, b).sum) == Value(AddWithOverflow(a', b').sum)
  {
  }
}
