# ResultOf: a model in Dafny

ResultOf is a small C# library for returning success or failure from a method
without exceptions. `Result` holds a success flag (`Succeeded`) and, on
failure, an error description; `Result<T>` adds a `Value`, present on success
and, optionally, on failure. Both are immutable. Their operators combine
results by *selecting* one operand unchanged:

- `a & b` returns `b` if `a` succeeded, otherwise `a`: a chain
  `r1 & r2 & ... & rn` returns the first failed operand, or the last;
- `a | b` returns `a` if `a` succeeded, otherwise `b`: a chain returns the
  first succeeded operand, or the last;
- both reject a null operand with `ArgumentNullException`, `self` first;
- `operator true` and `operator false` let C# build the short-circuit forms:
  `x && y` is `false(x) ? x : x & y` and `x || y` is `true(x) ? x : x | y`
  (section 12.14.3 of ECMA-334, "User-defined conditional logical operators").

The model is pure Dafny: datatypes for the two classes, functions for the
factories and operators, and lemmas for what chains of operators do.

- `Runtime` (runtime.dfy): null references (`Option`), the exceptions an
  operator can raise, and `Operand` (`Self` or `Other`), the operand an
  operator returns. The library's tests compare results with
  `ReferenceEquals`, so operators return *which* operand they select, and a
  chain returns the *position* of the operand it selects.
- `Selection` (selection.dfy): the selection rule both classes share, generic
  in the operand type and its success flag `ok`: `And`, `Or`, and the
  short-circuit `AndAlso` and `OrElse`. The right operand of a short-circuit
  form is a deferred computation `() --> Option<R>` whose precondition holds
  only where C# evaluates it, so the verifier's well-formedness check proves
  it is not evaluated once the left operand decides.
- `Chains` (chains.dfy): left-associated chains of each operator, folded the
  way C# parses them, with their characterisation and the agreement of the
  short-circuit chains with the eager ones.
- `Results` (result.dfy): the class `Result`.
- `ValueResults` (result_of_t.dfy): the class `Result<T>`, with its base
  part `Base` and the proof that its operators and chains select exactly as
  the base class's do on the base parts, so values play no part.
- `OperatorCases` (operator_cases.dfy): the cases of the original `|` and
  `||` tests, and the matching `&` cases, as lemmas.

Where the description of the library and its code differ, the model follows
the code:

- The short-circuit forms do not always reject null operands. A null left
  operand of `&&` or `||` reaches `operator false` or `operator true`, which
  read `Succeeded` without a null check: the result is a
  `NullReferenceException`, not an `ArgumentNullException`. A null right
  operand after a deciding left operand is never looked at: `fail && null`
  returns `fail`.
- `Fail` stores any description, null included, so a failed result need not
  carry a description.
- An eager chain checks every operand for null even after its result is
  decided: `success | fail | null` raises.

## Model

| member | source | states |
|---|---|---|
| `Selection.And` | ResultOf/Result.cs:88-94 | a null `self`, then a null `other`, raises `ArgumentNullException` naming it; otherwise `self` is returned exactly when it failed, and the returned operand succeeded exactly when both did |
| `Selection.Or` | ResultOf/Result.cs:112-117 | null operands raise as for `&`, `self` first; otherwise `self` is returned exactly when it succeeded, and the returned operand succeeded exactly when either did |
| `Selection.AndAlso` | ResultOf/Result.cs:132-143 | `x && y`: a null `x` raises `NullReferenceException`; a failed `x` is returned whatever `y` is, and `y` is evaluated only when `x` succeeded; a succeeded `x` gives exactly what `x & y` gives, including `ArgumentNullException` for `other` when `y` is null |
| `Selection.OrElse` | ResultOf/Result.cs:119-130 | `x \|\| y`: a null `x` raises `NullReferenceException`; a succeeded `x` is returned whatever `y` is, and `y` is evaluated only when `x` failed; a failed `x` gives exactly what `x \| y` gives, including `ArgumentNullException` for `other` when `y` is null |
| `Chains.AndChain` | ResultOf/Result.cs:72-94 | `r1 & ... & rn` returns the first failed operand, or the last if all succeeded; the first null operand raises, as `self` if it opens the chain and as `other` otherwise |
| `Chains.OrChain` | ResultOf/Result.cs:96-117 | `r1 \| ... \| rn` returns the first succeeded operand, or the last if none succeeded; null operands raise as for `&` |
| `Chains.AndAlsoChain` | ResultOf/Result.cs:5-11 | `y1 && ... && yn` evaluates an operand only after every earlier one succeeded; it returns the first failed operand, or the last; a null operand it reaches raises (`NullReferenceException` first, `ArgumentNullException` for `other` after) |
| `Chains.OrElseChain` | ResultOf/Result.cs:5-11 | `y1 \|\| ... \|\| yn` evaluates an operand only after every earlier one failed; it returns the first succeeded operand, or the last; null operands reached raise as for `&&` |
| `Chains.AndAlsoChainAgreesWithAndChain` | ResultOf/Result.cs:9-11 | over present operands the `&&` chain returns the same operand as the `&` chain |
| `Chains.OrElseChainAgreesWithOrChain` | ResultOf/Result.cs:9-11 | over present operands the `\|\|` chain returns the same operand as the `\|` chain |
| `Chains.AndChainSucceedsIffAll` | ResultOf/Result.cs:9 | the result of a `&` chain succeeded exactly when every operand succeeded |
| `Chains.OrChainSucceedsIffAny` | ResultOf/Result.cs:10 | the result of a `\|` chain succeeded exactly when some operand succeeded |
| `Chains.FirstFailedOrLastUnique` | ResultOf/Result.cs:9 | at most one position is "the first failed operand, or the last", so a `&` chain's result is determined |
| `Chains.FirstSucceededOrLastUnique` | ResultOf/Result.cs:10 | at most one position is "the first succeeded operand, or the last" |
| `Results.Success` | ResultOf/Result.cs:21-24 | a succeeded result with no error description |
| `Results.Fail` | ResultOf/Result.cs:31-34 | a failed result whose description is exactly the one given |
| `Results.FactoriesDistinct` | ResultOf/Result.cs:39-52 | a success and a failure differ in `Succeeded`; two failures are indistinguishable through `Succeeded` and `ErrorDescription` exactly when their descriptions are equal (the C# class does not override equality, so this is not reference equality) |
| `Results.TruthOperatorsComplementary` | ResultOf/Result.cs:127-143 | `operator true` is `Succeeded` and `operator false` its negation, so exactly one holds |
| `Results.And` | ResultOf/Result.cs:88-94 | `&` on `Result`: null checks, then `self` exactly when `operator false` holds of it; the result succeeded exactly when both operands did |
| `Results.Or` | ResultOf/Result.cs:112-117 | `\|` on `Result`: null checks, then `self` exactly when `operator true` holds of it; the result succeeded exactly when either did |
| `Results.AndAlso` | ResultOf/Result.cs:140-143 | `x && y` is `false(x) ? x : x & y`, with `y` evaluated only in the second branch |
| `Results.OrElse` | ResultOf/Result.cs:127-130 | `x \|\| y` is `true(x) ? x : x \| y`, with `y` evaluated only in the second branch |
| `Results.ShortCircuitSkipsRightOperand` | ResultOf/Result.cs:119-143 | `fail && y` and `success \|\| y` return the left operand for any `y`, even one that cannot be evaluated or is null (which `&` and `\|` reject); `null && y` raises `NullReferenceException` where `null & y` raises `ArgumentNullException` |
| `ValueResults.Success` | ResultOf/ResultOfT.cs:21-22 | a succeeded result holding the value, whose base part is `Result.Success()` |
| `ValueResults.Fail` | ResultOf/ResultOfT.cs:29-30 | a failed result with the description and `default(T)`, whose base part is `Result.Fail(description)` |
| `ValueResults.FailWithValue` | ResultOf/ResultOfT.cs:39-40 | a failed result with the description that still holds the given value |
| `ValueResults.And` | ResultOf/ResultOfT.cs:87-93 | `&` on `Result<T>` returns the same operand, or raises the same exception, as `&` on the base parts |
| `ValueResults.Or` | ResultOf/ResultOfT.cs:111-116 | `\|` on `Result<T>` returns the same operand, or raises the same exception, as `\|` on the base parts |
| `ValueResults.AndAlso` | ResultOf/ResultOfT.cs:87-93 | `&&` on `Result<T>` is `false(x) ? x : x & y` with the inherited `operator false` and the typed `&` |
| `ValueResults.OrElse` | ResultOf/ResultOfT.cs:111-116 | `\|\|` on `Result<T>` is `true(x) ? x : x \| y` with the inherited `operator true` and the typed `\|` |
| `ValueResults.SelectionIgnoresValues` | ResultOf/ResultOfT.cs:65-116 | changing operand values changes neither the operand selected nor the exception; the selected operand's value is the one it was built with |
| `ValueResults.AndChainAsBase` | ResultOf/ResultOfT.cs:9-11 | a `&` chain of `Result<T>` selects the same operand, or raises the same exception, as the chain of their base parts |
| `ValueResults.OrChainAsBase` | ResultOf/ResultOfT.cs:9-11 | a `\|` chain of `Result<T>` selects as the chain of their base parts |
| `OperatorCases.OrTwoOperands` | ResultOf.Tests/ResultOfTOrUnitTests.cs:28-66 | the four two-operand `\|` tests: `fail1 \| fail2` is `fail2`, and otherwise the succeeded operand first in line |
| `OperatorCases.OrThreeOperands` | ResultOf.Tests/ResultOfTOrUnitTests.cs:68-143 | the seven three-operand `\|` tests, plus the all-failed pattern they omit: the first succeeded operand, or the last |
| `OperatorCases.OrElseTwoOperands` | ResultOf.Tests/ResultOfTOrUnitTests.cs:149-187 | the four two-operand `\|\|` tests return the same operand as their `\|` counterparts |
| `OperatorCases.OrElseOfThree` | ResultOf.Tests/ResultOfTOrUnitTests.cs:189-264 | a three-operand `\|\|` chain of present operands returns the first succeeded one, or the last |
| `OperatorCases.OrElseThreeOperands` | ResultOf.Tests/ResultOfTOrUnitTests.cs:189-264 | the seven three-operand `\|\|` tests, plus the all-failed pattern they omit, return the same operand as their `\|` counterparts |
| `OperatorCases.AndThreeOperands` | ResultOf/Result.cs:72-94 | the eight three-operand `&` patterns: the first failed operand, or the last |
| `OperatorCases.NullOperandsRejected` | ResultOf/ResultOfT.cs:87-116 | null operands of `&` and `\|` raise, `self` before `other`, also when the chain was already decided |
| `OperatorCases.FailWithValueKeepsValue` | ResultOf/ResultOfT.cs:39-40 | `Fail("err", 42)` holds 42, is failed, and describes "err" |

## Left out

- Object allocation and reference identity beyond "which operand is returned": results are values, and an operator or chain gives the position of the operand it returns.
- C# operator syntax and overload resolution, the `new` modifier on `Result<T>.Fail`, and inheritance: each operator is a named function, and `Result<T>` carries the inherited `Succeeded` and `ErrorDescription` as fields of its own, while its inherited `operator true` and `operator false` are applied to its base part `Base`.
- `default(T)`: the value of `Result<T>.Fail(description)` is `None`, so the model tells it apart from `Fail(description, default(T))`, which C# does not.
- Exceptions as control flow: an operator either returns an operand or yields the exception it would raise; nothing catches them.
- The `protected` constructors and `protected set` accessors: the factories build the value directly, and the datatypes cannot be changed after construction.
- The usage examples in the documentation of `|` (ResultOf/Result.cs:101-107 and ResultOf/ResultOfT.cs:100-106) show `&` and "if all succeeded"; the model follows the `<returns>` text and the code instead.
