/**
 The class `Result` (ResultOf/Result.cs): a success flag and, on failure, an
 error description, both set once by a factory and never changed. Its
 operators `&` and `|` select one of two results; `true` and `false` make the
 short-circuit forms `&&` and `||` available.
 */
module Results {
  import opened Runtime
  import Selection

  /** An immutable result. `errorDescription` is a C# string, which may be
      null (`None`); a succeeded result never has one. */
  datatype Result = Result(succeeded: bool, errorDescription: Option<string>)

  /** The `Succeeded` getter. */
  function Succeeded(r: Result): bool
  {
    r.succeeded
  }

  /** `Result.Success()`: the parameterless constructor sets only `Succeeded`. */
  function Success(): (r: Result)
    ensures Succeeded(r) && r.errorDescription == None
  {
    Result(true, None)
  }

  /** `Result.Fail(errorDescription)`: the description is stored as given,
      without any check (empty and null descriptions included). */
  function Fail(errorDescription: Option<string>): (r: Result)
    ensures !Succeeded(r) && r.errorDescription == errorDescription
  {
    Result(false, errorDescription)
  }

  /** `operator true`. */
  function IsTrue(self: Result): bool
  {
    self.succeeded
  }

  /** `operator false`. */
  function IsFalse(self: Result): bool
  {
    !self.succeeded
  }

  /** `operator true` reports success and `operator false` failure, so exactly
      one of them holds of every result. */
  lemma TruthOperatorsComplementary(r: Result)
    ensures IsTrue(r) <==> Succeeded(r)
    ensures IsFalse(r) <==> !IsTrue(r)
  {
  }

  /** The two factories give distinguishable results: a success is never
      equal to a failure, and failures differ exactly when their
      descriptions do. */
  lemma FactoriesDistinct(d: Option<string>, e: Option<string>)
    ensures Success() != Fail(d)
    ensures Fail(d) == Fail(e) <==> d == e
  {
  }

  /** `self & other`: the first of the two that failed, else `other`. */
  function And(self: Option<Result>, other: Option<Result>): (r: Outcome<Operand>)
    ensures self.None? ==> r == Threw(ArgumentNullException(Self))
    ensures self.Some? && other.None? ==> r == Threw(ArgumentNullException(Other))
    ensures self.Some? && other.Some? ==>
      && r.Returned?
      && (r.value == Self <==> IsFalse(self.value))
      && (Succeeded(Chosen(r.value, self.value, other.value)) <==> Succeeded(self.value) && Succeeded(other.value))
  {
    Selection.And(self, other, Succeeded)
  }

  /** `self | other`: the first of the two that succeeded, else `other`. */
  function Or(self: Option<Result>, other: Option<Result>): (r: Outcome<Operand>)
    ensures self.None? ==> r == Threw(ArgumentNullException(Self))
    ensures self.Some? && other.None? ==> r == Threw(ArgumentNullException(Other))
    ensures self.Some? && other.Some? ==>
      && r.Returned?
      && (r.value == Self <==> IsTrue(self.value))
      && (Succeeded(Chosen(r.value, self.value, other.value)) <==> Succeeded(self.value) || Succeeded(other.value))
  {
    Selection.Or(self, other, Succeeded)
  }

  /** `x && y`, expanded by the compiler to `false(x) ? x : x & y`. The right
      operand `y` is defined only when `operator false` does not decide. */
  function AndAlso(x: Option<Result>, y: () --> Option<Result>): (r: Outcome<Operand>)
    requires x.Some? && !IsFalse(x.value) ==> y.requires()
    ensures x.None? ==> r == Threw(NullReferenceException)
    ensures x.Some? && IsFalse(x.value) ==> r == Returned(Self)
    ensures x.Some? && !IsFalse(x.value) ==> r == And(x, y())
  {
    Selection.AndAlso(x, y, Succeeded)
  }

  /** `x || y`, expanded by the compiler to `true(x) ? x : x | y`. The right
      operand `y` is defined only when `operator true` does not decide. */
  function OrElse(x: Option<Result>, y: () --> Option<Result>): (r: Outcome<Operand>)
    requires x.Some? && !IsTrue(x.value) ==> y.requires()
    ensures x.None? ==> r == Threw(NullReferenceException)
    ensures x.Some? && IsTrue(x.value) ==> r == Returned(Self)
    ensures x.Some? && !IsTrue(x.value) ==> r == Or(x, y())
  {
    Selection.OrElse(x, y, Succeeded)
  }

  /** Where `&` and `&&` differ. A failed left operand makes `&&` return it
      whatever the right operand is, even one that cannot be evaluated at all
      (`z` may be defined nowhere) or is null, which `&` rejects; symmetrically
      for `||` after a success. A null left operand makes `&&` fail in
      `operator false`, before any null check. */
  lemma ShortCircuitSkipsRightOperand(d: Option<string>, y: Option<Result>, z: () --> Option<Result>)
    ensures AndAlso(Some(Fail(d)), z) == Returned(Self)
    ensures AndAlso(Some(Fail(d)), () => None) == Returned(Self)
    ensures And(Some(Fail(d)), None) == Threw(ArgumentNullException(Other))
    ensures OrElse(Some(Success()), z) == Returned(Self)
    ensures OrElse(Some(Success()), () => None) == Returned(Self)
    ensures Or(Some(Success()), None) == Threw(ArgumentNullException(Other))
    ensures AndAlso(None, () => y) == Threw(NullReferenceException)
    ensures And(None, y) == Threw(ArgumentNullException(Self))
  {
  }
}
