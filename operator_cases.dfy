/**
 The cases of ResultOf.Tests/ResultOfTOrUnitTests.cs, stated over the model:
 six `Result<int>` fixtures combined with `|` and `||` in the four patterns
 of two operands and the seven three-operand patterns the tests cover, plus
 the all-failed pattern they omit. A chain's result is given as the
 position of the operand returned, which is what the tests check with
 `ReferenceEquals`; the fixtures are pairwise distinct, so a position names
 exactly one of them. The `&` cases and the null cases follow the
 operators' documentation in ResultOf/Result.cs and ResultOf/ResultOfT.cs.
 */
module OperatorCases {
  import opened Runtime
  import opened ValueResults
  import Chains

  const Fail1: Result<int> := Fail(Some("Fail 1"))
  const Fail2: Result<int> := Fail(Some("Fail 2"))
  const Fail3: Result<int> := Fail(Some("Fail 3"))
  const Success1: Result<int> := Success(1)
  const Success2: Result<int> := Success(2)
  const Success3: Result<int> := Success(3)

  /** `x | y` for the four patterns of two operands. */
  lemma OrTwoOperands()
    ensures Or(Some(Fail1), Some(Success1)) == Returned(Other)
    ensures Or(Some(Success1), Some(Fail1)) == Returned(Self)
    ensures Or(Some(Success1), Some(Success2)) == Returned(Self)
    ensures Or(Some(Fail1), Some(Fail2)) == Returned(Other) && !Succeeded(Fail2)
  {
  }

  /** `x | y | z` for the seven three-operand tests, plus the all-failed
      pattern they omit: the first that succeeded, or the last. */
  lemma OrThreeOperands()
    ensures Chains.OrChain([Some(Success1), Some(Fail1), Some(Fail2)], Succeeded) == Returned(0)
    ensures Chains.OrChain([Some(Fail1), Some(Success1), Some(Fail2)], Succeeded) == Returned(1)
    ensures Chains.OrChain([Some(Fail1), Some(Fail2), Some(Success1)], Succeeded) == Returned(2)
    ensures Chains.OrChain([Some(Success1), Some(Success2), Some(Fail1)], Succeeded) == Returned(0)
    ensures Chains.OrChain([Some(Success1), Some(Fail1), Some(Success2)], Succeeded) == Returned(0)
    ensures Chains.OrChain([Some(Fail1), Some(Success1), Some(Success2)], Succeeded) == Returned(1)
    ensures Chains.OrChain([Some(Success1), Some(Success2), Some(Success3)], Succeeded) == Returned(0)
    ensures Chains.OrChain([Some(Fail1), Some(Fail2), Some(Fail3)], Succeeded) == Returned(2)
  {
  }

  /** `x || y` for the four patterns of two operands. */
  lemma OrElseTwoOperands()
    ensures OrElse(Some(Fail1), () => Some(Success1)) == Returned(Other)
    ensures OrElse(Some(Success1), () => Some(Fail1)) == Returned(Self)
    ensures OrElse(Some(Success1), () => Some(Success2)) == Returned(Self)
    ensures OrElse(Some(Fail1), () => Some(Fail2)) == Returned(Other)
  {
  }

  /** Three operand expressions, each evaluated only when the chain reaches it. */
  function Deferred(a: Result<int>, b: Result<int>, c: Result<int>): (ys: seq<() --> Option<Result<int>>>)
    ensures |ys| == 3 && forall k :: 0 <= k < 3 ==> ys[k].requires()
    ensures ys[0]() == Some(a) && ys[1]() == Some(b) && ys[2]() == Some(c)
  {
    [() => Some(a), () => Some(b), () => Some(c)]
  }

  /** A `||` chain of three present operands returns the first that
      succeeded, or the last. */
  lemma OrElseOfThree(a: Result<int>, b: Result<int>, c: Result<int>)
    ensures Chains.OrElseChain(Deferred(a, b, c), Succeeded) == Returned(if Succeeded(a) then 0 else if Succeeded(b) then 1 else 2)
  {
  }

  /** `x || y || z` for the seven three-operand tests, plus the all-failed
      pattern they omit. */
  lemma OrElseThreeOperands()
    ensures Chains.OrElseChain(Deferred(Success1, Fail1, Fail2), Succeeded) == Returned(0)
    ensures Chains.OrElseChain(Deferred(Fail1, Success1, Fail2), Succeeded) == Returned(1)
    ensures Chains.OrElseChain(Deferred(Fail1, Fail2, Success1), Succeeded) == Returned(2)
    ensures Chains.OrElseChain(Deferred(Success1, Success2, Fail1), Succeeded) == Returned(0)
    ensures Chains.OrElseChain(Deferred(Success1, Fail1, Success2), Succeeded) == Returned(0)
    ensures Chains.OrElseChain(Deferred(Fail1, Success1, Success2), Succeeded) == Returned(1)
    ensures Chains.OrElseChain(Deferred(Success1, Success2, Success3), Succeeded) == Returned(0)
    ensures Chains.OrElseChain(Deferred(Fail1, Fail2, Fail3), Succeeded) == Returned(2)
  {
    OrElseOfThree(Success1, Fail1, Fail2);
    OrElseOfThree(Fail1, Success1, Fail2);
    OrElseOfThree(Fail1, Fail2, Success1);
    OrElseOfThree(Success1, Success2, Fail1);
    OrElseOfThree(Success1, Fail1, Success2);
    OrElseOfThree(Fail1, Success1, Success2);
    OrElseOfThree(Success1, Success2, Success3);
    OrElseOfThree(Fail1, Fail2, Fail3);
  }

  /** `x & y & z` for the eight patterns of three operands: the first that
      failed, or the last. */
  lemma AndThreeOperands()
    ensures Chains.AndChain([Some(Fail1), Some(Success1), Some(Fail2)], Succeeded) == Returned(0)
    ensures Chains.AndChain([Some(Success1), Some(Fail1), Some(Fail2)], Succeeded) == Returned(1)
    ensures Chains.AndChain([Some(Success1), Some(Success2), Some(Fail1)], Succeeded) == Returned(2)
    ensures Chains.AndChain([Some(Fail1), Some(Fail2), Some(Success1)], Succeeded) == Returned(0)
    ensures Chains.AndChain([Some(Fail1), Some(Success1), Some(Success2)], Succeeded) == Returned(0)
    ensures Chains.AndChain([Some(Success1), Some(Fail1), Some(Success2)], Succeeded) == Returned(1)
    ensures Chains.AndChain([Some(Success1), Some(Success2), Some(Success3)], Succeeded) == Returned(2)
    ensures Chains.AndChain([Some(Fail1), Some(Fail2), Some(Fail3)], Succeeded) == Returned(0)
  {
  }

  /** A null operand of `&` or `|` is rejected, `self` before `other`, and
      nothing is returned. */
  lemma NullOperandsRejected(x: Option<Result<int>>)
    ensures And(None, x) == Threw(ArgumentNullException(Self))
    ensures Or(None, x) == Threw(ArgumentNullException(Self))
    ensures And(Some(Success1), None) == Threw(ArgumentNullException(Other))
    ensures Or(Some(Fail1), None) == Threw(ArgumentNullException(Other))
    ensures Chains.OrChain([Some(Success1), Some(Fail1), None], Succeeded) == Threw(ArgumentNullException(Other))
  {
  }

  /** A failure built with a value keeps it, with its description and flag. */
  lemma FailWithValueKeepsValue()
    ensures FailWithValue(Some("err"), 42).value == Some(42)
    ensures !Succeeded(FailWithValue(Some("err"), 42))
    ensures FailWithValue(Some("err"), 42).errorDescription == Some("err")
  {
  }
}
