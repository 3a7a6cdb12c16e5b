/** Pairwise arithmetic over two equal-length lists of integers
    (`add_arrays`, `subtract_arrays`, `divide_arrays`). */
module Arrays {
  import opened Outcomes

  /** The message of the `ValueError` every operation raises on a length mismatch. */
  const LengthMessage: string := "Both lists must have the same length."

  /** Python's floor division `a // b` on integers: the quotient rounded
      towards negative infinity. Dafny's `/` is Euclidean, so the two differ
      for a negative divisor with a non-zero remainder (`7 // -2 == -4`). */
  function FloorDiv(a: int, b: int): (q: int)
    requires b != 0
    // q is the largest integer with q * b not past a, on the side of b's sign
    ensures b > 0 ==> b * q <= a < b * q + b
    ensures b < 0 ==> b * q + b < a <= b * q
  {
    if b > 0 then a / b else (-a) / (-b)
  }

  /** The floor quotient is the only integer with the bounds `FloorDiv` promises. */
  lemma FloorDivUnique(a: int, b: int, q: int)
    requires b != 0
    requires b > 0 ==> b * q <= a < b * q + b
    requires b < 0 ==> b * q + b < a <= b * q
    ensures q == FloorDiv(a, b)
  {
    var f := FloorDiv(a, b);
    if q < f {
      ProductGap(b, q, f);
    } else if f < q {
      ProductGap(b, f, q);
    }
  }

  /** Moving the quotient up by at least one moves the product by at least
      one divisor, in the divisor's direction. */
  lemma ProductGap(b: int, lo: int, hi: int)
    requires lo < hi
    ensures b > 0 ==> b * hi >= b * lo + b
    ensures b < 0 ==> b * hi <= b * lo + b
  {
    var d := hi - lo;
    assert b * hi == b * lo + b * d;
    assert b * d == b + b * (d - 1);
    if b > 0 {
      assert b * (d - 1) >= 0;
    } else if b < 0 {
      assert b * (d - 1) <= 0;
    }
  }

  /** Floor division and Dafny's Euclidean division disagree on `7 // -2`. */
  lemma FloorDivIsNotEuclidean()
    ensures FloorDiv(7, -2) == -4
    ensures 7 / -2 == -3
  {
  }

  /** The element operation each list function applies. */
  datatype Op = Plus | Minus | FloorQuotient

  function Apply(op: Op, a: int, b: int): int
    requires op.FloorQuotient? ==> b != 0
  {
    match op
    case Plus => a + b
    case Minus => a - b
    case FloorQuotient => FloorDiv(a, b)
  }

  /** No element of `y` is zero. */
  predicate NoZero(y: seq<int>) {
    forall i :: 0 <= i < |y| ==> y[i] != 0
  }

  /** The list built by walking `zip(x, y)` and appending `op` of each pair. */
  function Pairwise(op: Op, x: seq<int>, y: seq<int>): (z: seq<int>)
    requires |x| == |y|
    requires op.FloorQuotient? ==> NoZero(y)
    ensures |z| == |x|
    ensures forall i :: 0 <= i < |z| ==> z[i] == Apply(op, x[i], y[i])
  {
    if |x| == 0 then []
    else
      var k := |x| - 1;
      Pairwise(op, x[..k], y[..k]) + [Apply(op, x[k], y[k])]
  }

  /** `add_arrays(x, y)`. */
  function AddArrays(x: seq<int>, y: seq<int>): (r: Result<seq<int>>)
    ensures r.Failure? <==> |x| != |y|
    ensures r.Failure? ==> r.error == ValueError(LengthMessage)
    ensures r.Success? ==> |r.value| == |x|
    ensures r.Success? ==> forall i :: 0 <= i < |x| ==> r.value[i] == x[i] + y[i]
  {
    if |x| != |y| then Failure(ValueError(LengthMessage))
    else Success(Pairwise(Plus, x, y))
  }

  /** `subtract_arrays(x, y)`. */
  function SubtractArrays(x: seq<int>, y: seq<int>): (r: Result<seq<int>>)
    ensures r.Failure? <==> |x| != |y|
    ensures r.Failure? ==> r.error == ValueError(LengthMessage)
    ensures r.Success? ==> |r.value| == |x|
    ensures r.Success? ==> forall i :: 0 <= i < |x| ==> r.value[i] == x[i] - y[i]
  {
    if |x| != |y| then Failure(ValueError(LengthMessage))
    else Success(Pairwise(Minus, x, y))
  }

  /** `divide_arrays(x, y)`. The length check comes first; a zero divisor
      then raises `ZeroDivisionError` from `//`, which discards the partial list. */
  function DivideArrays(x: seq<int>, y: seq<int>): (r: Result<seq<int>>)
    ensures r.Failure? <==> |x| != |y| || !NoZero(y)
    ensures |x| != |y| ==> r.error == ValueError(LengthMessage)
    ensures |x| == |y| && !NoZero(y) ==> r.error == ZeroDivisionError
    ensures r.Success? ==> |r.value| == |x|
    ensures r.Success? ==> forall i :: 0 <= i < |x| ==>
      (y[i] > 0 ==> y[i] * r.value[i] <= x[i] < y[i] * r.value[i] + y[i]) &&
      (y[i] < 0 ==> y[i] * r.value[i] + y[i] < x[i] <= y[i] * r.value[i])
  {
    if |x| != |y| then Failure(ValueError(LengthMessage))
    else if !NoZero(y) then Failure(ZeroDivisionError)
    else Success(Pairwise(FloorQuotient, x, y))
  }

  /** Every element of a successful division is the floor quotient of its pair. */
  lemma DivideArraysIsFloor(x: seq<int>, y: seq<int>)
    requires |x| == |y| && NoZero(y)
    ensures DivideArrays(x, y).Success?
    ensures forall i :: 0 <= i < |x| ==> DivideArrays(x, y).value[i] == FloorDiv(x[i], y[i])
  {
  }

  /** The docstring example of `add_arrays`. */
  lemma AddExample()
    ensures AddArrays([1, 4, 5], [4, 3, 5]) == Success([5, 7, 10])
  {
    var a := AddArrays([1, 4, 5], [4, 3, 5]).value;
    assert a == [5, 7, 10];
  }

  /** The docstring example of `subtract_arrays`. */
  lemma SubtractExample()
    ensures SubtractArrays([1, 4, 5], [4, 3, 5]) == Success([-3, 1, 0])
  {
    var s := SubtractArrays([1, 4, 5], [4, 3, 5]).value;
    assert s == [-3, 1, 0];
  }

  /** The docstring example of `divide_arrays`, whose `-25 // 5` and `12 // -4`
      are exact, so floor and truncation agree there. */
  lemma DivideExample()
    ensures DivideArrays([3, 12, -25], [3, -4, 5]) == Success([1, -3, -5])
  {
    DivideArraysIsFloor([3, 12, -25], [3, -4, 5]);
    FloorDivUnique(3, 3, 1);
    FloorDivUnique(12, -4, -3);
    FloorDivUnique(-25, 5, -5);
    var d := DivideArrays([3, 12, -25], [3, -4, 5]).value;
    assert d == [1, -3, -5];
  }

  /** Adding `y` back to `x - y` recovers `x`. */
  lemma AddUndoesSubtract(x: seq<int>, y: seq<int>)
    requires |x| == |y|
    ensures AddArrays(SubtractArrays(x, y).value, y) == Success(x)
  {
    var z := AddArrays(SubtractArrays(x, y).value, y).value;
    assert z == x;
  }

  /** Subtracting `y` from `x + y` recovers `x`. */
  lemma SubtractUndoesAdd(x: seq<int>, y: seq<int>)
    requires |x| == |y|
    ensures SubtractArrays(AddArrays(x, y).value, y) == Success(x)
  {
    var z := SubtractArrays(AddArrays(x, y).value, y).value;
    assert z == x;
  }

  /** Swapping the arguments of `add_arrays` changes nothing, errors included. */
  lemma AddArraysCommutes(x: seq<int>, y: seq<int>)
    ensures AddArrays(x, y) == AddArrays(y, x)
  {
    if |x| == |y| {
      assert AddArrays(x, y).value == AddArrays(y, x).value;
    }
  }
}
