// The reducer of the counting benchmark: a COLLECT job folds it over the
// results of its prerequisites, each a Boolean verdict, and so counts the
// true verdicts.  Java `int` arithmetic is kept: the count wraps.

module CountReducer {
  import opened Common
  import opened ClientPlan

  const NOT_AN_ARRAY: string := "Input must be an Object array"
  const BAD_SHAPE: string := "Input array must contain an Integer at index 0 and a Boolean at index 1"

  /** The argument shape `apply` accepts: exactly an `Integer` and a `Boolean`. */
  predicate WellShaped(elems: seq<Obj>) {
    |elems| == 2 && elems[0].IntObj? && elems[1].BoolObj?
  }

  /** `apply`: one step of the count.  A non-array is rejected first, then an
    * array of the wrong shape; otherwise a true verdict adds one to the count
    * (wrapping at `Integer.MAX_VALUE`) and a false one keeps it. */
  function CountApply(input: Obj): (r: Result<Obj>)
    ensures !input.ArrayObj? ==> r == Err(IllegalArgument(NOT_AN_ARRAY))
    ensures input.ArrayObj? && !WellShaped(input.elems) ==> r == Err(IllegalArgument(BAD_SHAPE))
    ensures r.Ok? <==> input.ArrayObj? && WellShaped(input.elems)
    ensures r.Ok? ==> r.value.IntObj?
    ensures r.Ok? && !input.elems[1].b ==> r.value.i == input.elems[0].i
    ensures r.Ok? && input.elems[1].b && input.elems[0].i < INT_MAX ==> r.value.i == input.elems[0].i + 1
    ensures r.Ok? && input.elems[0].i < INT_MAX ==> r.value.i >= input.elems[0].i
  {
    if !input.ArrayObj? then Err(IllegalArgument(NOT_AN_ARRAY))
    else if !WellShaped(input.elems) then Err(IllegalArgument(BAD_SHAPE))
    else
      var count, value := input.elems[0].i, input.elems[1].b;
      Ok(IntObj(if value then WrapInt(count + 1) else count))
  }

  /** At `Integer.MAX_VALUE` a true verdict wraps the count to `Integer.MIN_VALUE`. */
  lemma CountWrapsAtMax()
    ensures CountApply(ArrayObj([IntObj(INT_MAX), BoolObj(true)])) == Ok(IntObj(INT_MIN))
  {
  }

  /** Two integers that agree modulo 2^32 wrap to the same `int`. */
  lemma WrapIntCongruent(x: int, y: int)
    requires (x - y) % 0x1_0000_0000 == 0
    ensures WrapInt(x) == WrapInt(y)
  {
    var d := (x - y) / 0x1_0000_0000;
    assert x - INT_MIN == (y - INT_MIN) + 0x1_0000_0000 * d;
    var q := (y - INT_MIN) / 0x1_0000_0000;
    assert x - INT_MIN == 0x1_0000_0000 * (q + d) + (y - INT_MIN) % 0x1_0000_0000;
  }

  /** Folding the counter `n` times over the same verdict, from 0 as the
    * collector does, counts `n` (as a Java `int`) for a true verdict and 0
    * for a false one. */
  lemma {:induction false} CountFold(b: bool, n: nat)
    ensures Fold(CountApply, IntObj(0), BoolObj(b), n) == Ok(IntObj(if b then WrapInt(n) else 0))
  {
    if n > 0 {
      CountFold(b, n - 1);
      if b {
        WrapIntCongruent(WrapInt(n - 1) + 1, n);
      }
    }
  }

  /** Below `Integer.MAX_VALUE` prerequisites the count is exact. */
  lemma CountFoldExact(n: nat)
    requires n <= INT_MAX
    ensures Fold(CountApply, IntObj(0), BoolObj(true), n) == Ok(IntObj(n))
  {
    CountFold(true, n);
  }

  /** A result that is not a Boolean makes the first step, and so the whole
    * fold, fail with the shape error. */
  lemma {:induction false} CountFoldRejectsNonBoolean(result: Obj, n: nat)
    requires !result.BoolObj? && n >= 1
    ensures Fold(CountApply, IntObj(0), result, n) == Err(IllegalArgument(BAD_SHAPE))
  {
    assert Fold(CountApply, IntObj(0), result, 1) == Err(IllegalArgument(BAD_SHAPE));
    FoldKeepsFailure(CountApply, IntObj(0), result, 1, n);
  }
}
