/**
 The selection rule shared by the operators of `Result` and `Result<T>`.
 Both classes declare `&` and `|` with the same body, reading only the
 operands' `Succeeded` flag; here that flag is the parameter `ok`.
 The short-circuit forms `&&` and `||` are not declared by the classes: C#
 builds them from `&`, `|` and the `true`/`false` operators (section 12.14.3,
 "User-defined conditional logical operators", of ECMA-334):
 `x && y` is `false(x) ? x : x & y` and `x || y` is `true(x) ? x : x | y`.
 */
module Selection {
  import opened Runtime

  /** `self & other`: null checks on `self`, then `other`; then `other` if
      `self` succeeded and `self` otherwise. */
  function And<R>(self: Option<R>, other: Option<R>, ok: R -> bool): (r: Outcome<Operand>)
    ensures self.None? ==> r == Threw(ArgumentNullException(Self))
    ensures self.Some? && other.None? ==> r == Threw(ArgumentNullException(Other))
    ensures self.Some? && other.Some? ==>
      && r.Returned?
      // the first operand that failed, or the last one if neither failed
      && (r.value == Self <==> !ok(self.value))
      // the result succeeded exactly when both operands did
      && (ok(Chosen(r.value, self.value, other.value)) <==> ok(self.value) && ok(other.value))
  {
    if self.None? then Threw(ArgumentNullException(Self))
    else if other.None? then Threw(ArgumentNullException(Other))
    else if ok(self.value) then Returned(Other)
    else Returned(Self)
  }

  /** `self | other`: null checks on `self`, then `other`; then `self` if
      `self` succeeded and `other` otherwise. */
  function Or<R>(self: Option<R>, other: Option<R>, ok: R -> bool): (r: Outcome<Operand>)
    ensures self.None? ==> r == Threw(ArgumentNullException(Self))
    ensures self.Some? && other.None? ==> r == Threw(ArgumentNullException(Other))
    ensures self.Some? && other.Some? ==>
      && r.Returned?
      // the first operand that succeeded, or the last one if neither did
      && (r.value == Self <==> ok(self.value))
      // the result succeeded exactly when one of the operands did
      && (ok(Chosen(r.value, self.value, other.value)) <==> ok(self.value) || ok(other.value))
  {
    if self.None? then Threw(ArgumentNullException(Self))
    else if other.None? then Threw(ArgumentNullException(Other))
    else if ok(self.value) then Returned(Self)
    else Returned(Other)
  }

  /** `x && y`, that is `false(x) ? x : x & y`. The right operand is a deferred
      computation `y`; this function may call it only where its precondition
      says `y` is defined, which is when `x` is present and succeeded. So
      Dafny's well-formedness check is the proof that `y` is not evaluated
      when `x` failed. A null `x` reaches `operator false`, which reads
      `Succeeded` without a null check. */
  function AndAlso<R>(x: Option<R>, y: () --> Option<R>, ok: R -> bool): (r: Outcome<Operand>)
    requires x.Some? && ok(x.value) ==> y.requires()
    ensures x.None? ==> r == Threw(NullReferenceException)
    // a failed left operand decides the result, whatever `y` would produce
    ensures x.Some? && !ok(x.value) ==> r == Returned(Self)
    // otherwise `&&` evaluates `y` and does what `&` does, null check included
    ensures x.Some? && ok(x.value) ==> r == And(x, y(), ok)
  {
    match x
    case None => Threw(NullReferenceException)
    case Some(left) =>
      if !ok(left) then Returned(Self) else And(x, y(), ok)
  }

  /** `x || y`, that is `true(x) ? x : x | y`; `y` is defined only when `x`
      is present and failed. */
  function OrElse<R>(x: Option<R>, y: () --> Option<R>, ok: R -> bool): (r: Outcome<Operand>)
    requires x.Some? && !ok(x.value) ==> y.requires()
    ensures x.None? ==> r == Threw(NullReferenceException)
    // a succeeded left operand decides the result, whatever `y` would produce
    ensures x.Some? && ok(x.value) ==> r == Returned(Self)
    // otherwise `||` evaluates `y` and does what `|` does, null check included
    ensures x.Some? && !ok(x.value) ==> r == Or(x, y(), ok)
  {
    match x
    case None => Threw(NullReferenceException)
    case Some(left) =>
      if ok(left) then Returned(Self) else Or(x, y(), ok)
  }
}
