/**
 The class `Result<T>` (ResultOf/ResultOfT.cs): a `Result` that also carries
 a `Value`, on success and, optionally, on failure. It re-declares `&` and
 `|` with the same selection rule, typed to `Result<T>`, and inherits
 `operator true` and `operator false` from `Result`.
 */
module ValueResults {
  import opened Runtime
  import Selection
  import Results
  import Chains

  /** An immutable result with a value. `value` is `None` where the C# class
      holds `default(T)`. */
  datatype Result<T> = Result(succeeded: bool, errorDescription: Option<string>, value: Option<T>)

  /** The `Succeeded` getter inherited from `Result`. */
  function Succeeded<T>(r: Result<T>): bool
  {
    r.succeeded
  }

  /** The part of a `Result<T>` that its base class `Result` holds. */
  function Base<T>(r: Result<T>): Results.Result
  {
    Results.Result(r.succeeded, r.errorDescription)
  }

  /** A nullable `Result<T>` reference seen as a `Result` reference. */
  function BaseRef<T>(r: Option<Result<T>>): Option<Results.Result>
  {
    match r
    case None => None
    case Some(x) => Some(Base(x))
  }

  /** `Result<T>.Success(value)`: the base constructor's success with `value`. */
  function Success<T>(value: T): (r: Result<T>)
    ensures Base(r) == Results.Success()
    ensures Succeeded(r) && r.value == Some(value)
  {
    Result(true, None, Some(value))
  }

  /** `Result<T>.Fail(errorDescription)`: the base constructor's failure,
      with `default(T)` as the value. */
  function Fail<T>(errorDescription: Option<string>): (r: Result<T>)
    ensures Base(r) == Results.Fail(errorDescription)
    ensures !Succeeded(r) && r.errorDescription == errorDescription && r.value == None
  {
    Result(false, errorDescription, None)
  }

  /** `Result<T>.Fail(errorDescription, value)`: a failure that still carries
      a value. */
  function FailWithValue<T>(errorDescription: Option<string>, value: T): (r: Result<T>)
    ensures Base(r) == Results.Fail(errorDescription)
    ensures !Succeeded(r) && r.errorDescription == errorDescription && r.value == Some(value)
  {
    Result(false, errorDescription, Some(value))
  }

  /** `operator true`, inherited: applied to the base part. */
  function IsTrue<T>(self: Result<T>): bool
  {
    Results.IsTrue(Base(self))
  }

  /** `operator false`, inherited: applied to the base part. */
  function IsFalse<T>(self: Result<T>): bool
  {
    Results.IsFalse(Base(self))
  }

  /** `self & other` on `Result<T>`: it returns the same operand, and raises
      the same exception, as the base class's `&` on the base parts; the
      values are never looked at. */
  function And<T>(self: Option<Result<T>>, other: Option<Result<T>>): (r: Outcome<Operand>)
    ensures r == Results.And(BaseRef(self), BaseRef(other))
  {
    Selection.And(self, other, Succeeded)
  }

  /** `self | other` on `Result<T>`: as the base class's `|` on the base parts. */
  function Or<T>(self: Option<Result<T>>, other: Option<Result<T>>): (r: Outcome<Operand>)
    ensures r == Results.Or(BaseRef(self), BaseRef(other))
  {
    Selection.Or(self, other, Succeeded)
  }

  /** `x && y` on `Result<T>`: `false(x) ? x : x & y`, with the inherited
      `operator false` and the typed `&`. */
  function AndAlso<T>(x: Option<Result<T>>, y: () --> Option<Result<T>>): (r: Outcome<Operand>)
    requires x.Some? && !IsFalse(x.value) ==> y.requires()
    ensures x.None? ==> r == Threw(NullReferenceException)
    ensures x.Some? && IsFalse(x.value) ==> r == Returned(Self)
    ensures x.Some? && !IsFalse(x.value) ==> r == And(x, y())
  {
    Selection.AndAlso(x, y, Succeeded)
  }

  /** `x || y` on `Result<T>`: `true(x) ? x : x | y`, with the inherited
      `operator true` and the typed `|`. */
  function OrElse<T>(x: Option<Result<T>>, y: () --> Option<Result<T>>): (r: Outcome<Operand>)
    requires x.Some? && !IsTrue(x.value) ==> y.requires()
    ensures x.None? ==> r == Threw(NullReferenceException)
    ensures x.Some? && IsTrue(x.value) ==> r == Returned(Self)
    ensures x.Some? && !IsTrue(x.value) ==> r == Or(x, y())
  {
    Selection.OrElse(x, y, Succeeded)
  }

  /** The operators never inspect, merge or rebuild values: changing the
      values of the operands changes neither the operand selected nor the
      exception raised, and the selected operand keeps its own value. */
  lemma SelectionIgnoresValues<T>(a: Result<T>, b: Result<T>, v: Option<T>, w: Option<T>)
    ensures And(Some(a), Some(b)) == And(Some(a.(value := v)), Some(b.(value := w)))
    ensures Or(Some(a), Some(b)) == Or(Some(a.(value := v)), Some(b.(value := w)))
    ensures And(Some(a), Some(b)).Returned? &&
      Chosen(And(Some(a), Some(b)).value, a, b).value == (if Succeeded(a) then b.value else a.value)
    ensures Or(Some(a), Some(b)).Returned? &&
      Chosen(Or(Some(a), Some(b)).value, a, b).value == (if Succeeded(a) then a.value else b.value)
  {
  }

  /** The operands of a chain seen as `Result` references. */
  function BaseRefs<T>(rs: seq<Option<Result<T>>>): seq<Option<Results.Result>>
  {
    seq(|rs|, k requires 0 <= k < |rs| => BaseRef(rs[k]))
  }

  /** A `&` chain of `Result<T>` operands returns the same operand, or raises
      the same exception, as the chain of their base parts: values play no
      part in a chain either. */
  lemma {:induction false} AndChainAsBase<T>(rs: seq<Option<Result<T>>>)
    requires |rs| >= 1
    ensures Chains.AndChain(rs, Succeeded) == Chains.AndChain(BaseRefs(rs), Results.Succeeded)
    decreases |rs|
  {
    if |rs| > 1 {
      var n := |rs|;
      AndChainAsBase(rs[..n - 1]);
      assert BaseRefs(rs)[..n - 1] == BaseRefs(rs[..n - 1]);
      match Chains.AndChain(rs[..n - 1], Succeeded)
      case Threw(_) =>
      case Returned(i) =>
        assert And(rs[i], rs[n - 1]) == Results.And(BaseRef(rs[i]), BaseRef(rs[n - 1]));
    }
  }

  /** A `|` chain of `Result<T>` operands behaves as the chain of their base parts. */
  lemma {:induction false} OrChainAsBase<T>(rs: seq<Option<Result<T>>>)
    requires |rs| >= 1
    ensures Chains.OrChain(rs, Succeeded) == Chains.OrChain(BaseRefs(rs), Results.Succeeded)
    decreases |rs|
  {
    if |rs| > 1 {
      var n := |rs|;
      OrChainAsBase(rs[..n - 1]);
      assert BaseRefs(rs)[..n - 1] == BaseRefs(rs[..n - 1]);
      match Chains.OrChain(rs[..n - 1], Succeeded)
      case Threw(_) =>
      case Returned(i) =>
        assert Or(rs[i], rs[n - 1]) == Results.Or(BaseRef(rs[i]), BaseRef(rs[n - 1]));
    }
  }
}
