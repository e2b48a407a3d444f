/**
 Left-associated chains `r1 & r2 & ... & rn`, `r1 | ... | rn` and their
 short-circuit forms `&&` and `||`. C# parses each as a left fold of the
 binary operator, so a chain of n operands is the chain of the first n - 1
 combined with the last. A chain yields the position of the operand it
 returns, since the operators return an operand unchanged.
 */
module Chains {
  import opened Runtime
  import Selection

  /** No operand of the chain is null. */
  predicate AllPresent<R>(rs: seq<Option<R>>)
  {
    forall k :: 0 <= k < |rs| ==> rs[k].Some?
  }

  /** `k` is the position of the first null operand. */
  predicate FirstNullAt<R>(rs: seq<Option<R>>, k: int)
  {
    0 <= k < |rs| && rs[k].None? && forall j :: 0 <= j < k ==> rs[j].Some?
  }

  /** Every operand before position `i` is present and succeeded. */
  predicate SucceededBefore<R>(rs: seq<Option<R>>, i: int, ok: R -> bool)
  {
    forall j :: 0 <= j < i && j < |rs| ==> rs[j].Some? && ok(rs[j].value)
  }

  /** Every operand before position `i` is present and failed. */
  predicate FailedBefore<R>(rs: seq<Option<R>>, i: int, ok: R -> bool)
  {
    forall j :: 0 <= j < i && j < |rs| ==> rs[j].Some? && !ok(rs[j].value)
  }

  /** `i` is the first operand that failed, or the last operand if none failed. */
  predicate FirstFailedOrLast<R>(rs: seq<Option<R>>, i: int, ok: R -> bool)
  {
    0 <= i < |rs| && SucceededBefore(rs, i, ok) && rs[i].Some? && (i == |rs| - 1 || !ok(rs[i].value))
  }

  /** `i` is the first operand that succeeded, or the last operand if none succeeded. */
  predicate FirstSucceededOrLast<R>(rs: seq<Option<R>>, i: int, ok: R -> bool)
  {
    0 <= i < |rs| && FailedBefore(rs, i, ok) && rs[i].Some? && (i == |rs| - 1 || ok(rs[i].value))
  }

  /** `r1 & r2 & ... & rn`. Every operand is evaluated; the first null one
      raises (as `self` when it opens the chain, as `other` otherwise);
      without nulls the chain returns the first failed operand, or the last. */
  function AndChain<R>(rs: seq<Option<R>>, ok: R -> bool): (r: Outcome<nat>)
    requires |rs| >= 1
    ensures r.Returned? ==> r.value < |rs|
    ensures AllPresent(rs) ==> r.Returned? && FirstFailedOrLast(rs, r.value, ok)
    ensures forall k :: FirstNullAt(rs, k) && |rs| >= 2 ==>
      r == Threw(ArgumentNullException(if k == 0 then Self else Other))
    decreases |rs|
  {
    if |rs| == 1 then Returned(0)
    else
      var n := |rs|;
      PrefixKeepsFirstNull(rs);
      match AndChain(rs[..n - 1], ok)
      case Threw(e) => Threw(e)
      case Returned(i) =>
        match Selection.And(rs[i], rs[n - 1], ok)
        case Threw(e) => Threw(e)
        case Returned(op) => Returned(if op == Self then i else n - 1)
  }

  /** `r1 | r2 | ... | rn`: as `AndChain`, returning the first succeeded
      operand, or the last. */
  function OrChain<R>(rs: seq<Option<R>>, ok: R -> bool): (r: Outcome<nat>)
    requires |rs| >= 1
    ensures r.Returned? ==> r.value < |rs|
    ensures AllPresent(rs) ==> r.Returned? && FirstSucceededOrLast(rs, r.value, ok)
    ensures forall k :: FirstNullAt(rs, k) && |rs| >= 2 ==>
      r == Threw(ArgumentNullException(if k == 0 then Self else Other))
    decreases |rs|
  {
    if |rs| == 1 then Returned(0)
    else
      var n := |rs|;
      PrefixKeepsFirstNull(rs);
      match OrChain(rs[..n - 1], ok)
      case Threw(e) => Threw(e)
      case Returned(i) =>
        match Selection.Or(rs[i], rs[n - 1], ok)
        case Threw(e) => Threw(e)
        case Returned(op) => Returned(if op == Self then i else n - 1)
  }

  /** A `&` chain over present operands is a conjunction of their flags: its
      result succeeded exactly when every operand succeeded. */
  lemma AndChainSucceedsIffAll<R>(rs: seq<Option<R>>, ok: R -> bool)
    requires |rs| >= 1 && AllPresent(rs)
    ensures AndChain(rs, ok).Returned?
    ensures ok(rs[AndChain(rs, ok).value].value) <==> forall k :: 0 <= k < |rs| ==> ok(rs[k].value)
  {
  }

  /** An `|` chain over present operands is a disjunction of their flags: its
      result succeeded exactly when some operand succeeded. */
  lemma OrChainSucceedsIffAny<R>(rs: seq<Option<R>>, ok: R -> bool)
    requires |rs| >= 1 && AllPresent(rs)
    ensures OrChain(rs, ok).Returned?
    ensures ok(rs[OrChain(rs, ok).value].value) <==> exists k :: 0 <= k < |rs| && ok(rs[k].value)
  {
  }

  /** The characterisation of the `&` chain's result determines it: at most
      one position is the first failed operand or the last. */
  lemma FirstFailedOrLastUnique<R>(rs: seq<Option<R>>, i: int, j: int, ok: R -> bool)
    requires FirstFailedOrLast(rs, i, ok) && FirstFailedOrLast(rs, j, ok)
    ensures i == j
  {
  }

  /** At most one position is the first succeeded operand or the last. */
  lemma FirstSucceededOrLastUnique<R>(rs: seq<Option<R>>, i: int, j: int, ok: R -> bool)
    requires FirstSucceededOrLast(rs, i, ok) && FirstSucceededOrLast(rs, j, ok)
    ensures i == j
  {
  }

  /** Operand `k` of `y1 && y2 && ... && yn` is reached: every operand
      before it was evaluated, is present and succeeded. */
  ghost predicate AndAlsoReaches<R>(ys: seq<() --> Option<R>>, k: int, ok: R -> bool)
  {
    0 <= k < |ys| && forall j :: 0 <= j < k ==> ys[j].requires() && ys[j]().Some? && ok(ys[j]().value)
  }

  /** Operand `k` of `y1 || y2 || ... || yn` is reached: every operand
      before it was evaluated, is present and failed. */
  ghost predicate OrElseReaches<R>(ys: seq<() --> Option<R>>, k: int, ok: R -> bool)
  {
    0 <= k < |ys| && forall j :: 0 <= j < k ==> ys[j].requires() && ys[j]().Some? && !ok(ys[j]().value)
  }

  /** The `&&` chain stops at operand `i`: it is reached and evaluated, and it
      is null, failed, or the last operand. */
  ghost predicate AndAlsoStopsAt<R>(ys: seq<() --> Option<R>>, i: int, ok: R -> bool)
  {
    AndAlsoReaches(ys, i, ok) && ys[i].requires() && (ys[i]().None? || !ok(ys[i]().value) || i == |ys| - 1)
  }

  /** The `||` chain stops at operand `i`: it is reached and evaluated, and it
      is null, succeeded, or the last operand. */
  ghost predicate OrElseStopsAt<R>(ys: seq<() --> Option<R>>, i: int, ok: R -> bool)
  {
    OrElseReaches(ys, i, ok) && ys[i].requires() && (ys[i]().None? || ok(ys[i]().value) || i == |ys| - 1)
  }

  /** `y1 && y2 && ... && yn`, each operand a deferred computation. The
      precondition lets the chain evaluate an operand only once every operand
      before it succeeded, so Dafny checks that no later operand is ever
      evaluated. The chain returns the operand it stops at; a null operand
      raises, in `operator false` when it opens the chain and in `&` (as
      `other`) otherwise; a null operand past the stop is never looked at. */
  function AndAlsoChain<R>(ys: seq<() --> Option<R>>, ok: R -> bool): (r: Outcome<nat>)
    requires |ys| >= 1
    requires forall k :: AndAlsoReaches(ys, k, ok) ==> ys[k].requires()
    ensures r.Returned? ==> AndAlsoStopsAt(ys, r.value, ok) && (|ys| == 1 || ys[r.value]().Some?)
    ensures forall i :: AndAlsoStopsAt(ys, i, ok) && ys[i]().Some? ==> r == Returned(i)
    ensures forall i :: AndAlsoStopsAt(ys, i, ok) && ys[i]().None? && |ys| >= 2 ==>
      r == Threw(if i == 0 then NullReferenceException else ArgumentNullException(Other))
    decreases |ys|
  {
    if |ys| == 1 then Returned(0)
    else
      var n := |ys|;
      var prefix := ys[..n - 1];
      AndAlsoPrefixStops(ys, ok);
      match AndAlsoChain(prefix, ok)
      case Threw(e) => Threw(e)
      case Returned(i) =>
        match Selection.AndAlso(ys[i](), ys[n - 1], ok)
        case Threw(e) => Threw(e)
        case Returned(op) => Returned(if op == Self then i else n - 1)
  }

  /** `y1 || y2 || ... || yn`: as `AndAlsoChain`, stopping at the first
      operand that is null or succeeded, or at the last. */
  function OrElseChain<R>(ys: seq<() --> Option<R>>, ok: R -> bool): (r: Outcome<nat>)
    requires |ys| >= 1
    requires forall k :: OrElseReaches(ys, k, ok) ==> ys[k].requires()
    ensures r.Returned? ==> OrElseStopsAt(ys, r.value, ok) && (|ys| == 1 || ys[r.value]().Some?)
    ensures forall i :: OrElseStopsAt(ys, i, ok) && ys[i]().Some? ==> r == Returned(i)
    ensures forall i :: OrElseStopsAt(ys, i, ok) && ys[i]().None? && |ys| >= 2 ==>
      r == Threw(if i == 0 then NullReferenceException else ArgumentNullException(Other))
    decreases |ys|
  {
    if |ys| == 1 then Returned(0)
    else
      var n := |ys|;
      var prefix := ys[..n - 1];
      OrElsePrefixStops(ys, ok);
      match OrElseChain(prefix, ok)
      case Threw(e) => Threw(e)
      case Returned(i) =>
        match Selection.OrElse(ys[i](), ys[n - 1], ok)
        case Threw(e) => Threw(e)
        case Returned(op) => Returned(if op == Self then i else n - 1)
  }

  /** The values of operands that can all be evaluated. */
  function Forced<R>(ys: seq<() --> Option<R>>): (rs: seq<Option<R>>)
    requires forall k :: 0 <= k < |ys| ==> ys[k].requires()
    ensures |rs| == |ys| && forall k :: 0 <= k < |ys| ==> rs[k] == ys[k]()
  {
    seq(|ys|, k requires 0 <= k < |ys| && ys[k].requires() => ys[k]())
  }

  /** Over operands that are all present, `&&` and `&` chains return the same
      operand: short-circuiting changes what is evaluated, not the winner. */
  lemma AndAlsoChainAgreesWithAndChain<R>(ys: seq<() --> Option<R>>, ok: R -> bool)
    requires |ys| >= 1
    requires forall k :: 0 <= k < |ys| ==> ys[k].requires() && ys[k]().Some?
    ensures AndAlsoChain(ys, ok) == AndChain(Forced(ys), ok)
  {
  }

  /** Over operands that are all present, `||` and `|` chains return the same
      operand. */
  lemma OrElseChainAgreesWithOrChain<R>(ys: seq<() --> Option<R>>, ok: R -> bool)
    requires |ys| >= 1
    requires forall k :: 0 <= k < |ys| ==> ys[k].requires() && ys[k]().Some?
    ensures OrElseChain(ys, ok) == OrChain(Forced(ys), ok)
  {
  }

  /** How the stopping point of a `&&` chain relates to the stopping point of
      the chain without its last operand. */
  lemma AndAlsoPrefixStops<R>(ys: seq<() --> Option<R>>, ok: R -> bool)
    requires |ys| >= 2
    ensures forall k :: AndAlsoReaches(ys[..|ys| - 1], k, ok) ==> AndAlsoReaches(ys, k, ok)
    ensures forall i :: AndAlsoStopsAt(ys, i, ok) && i < |ys| - 1 ==> AndAlsoStopsAt(ys[..|ys| - 1], i, ok)
    ensures AndAlsoReaches(ys, |ys| - 1, ok) ==>
      AndAlsoStopsAt(ys[..|ys| - 1], |ys| - 2, ok) && ys[|ys| - 2]().Some? && ok(ys[|ys| - 2]().value)
    ensures forall i :: AndAlsoStopsAt(ys[..|ys| - 1], i, ok) && ys[i]().Some? && ok(ys[i]().value) ==>
      i == |ys| - 2 && AndAlsoReaches(ys, |ys| - 1, ok)
    ensures forall i :: AndAlsoStopsAt(ys[..|ys| - 1], i, ok) && (ys[i]().None? || !ok(ys[i]().value)) ==>
      AndAlsoStopsAt(ys, i, ok)
  {
  }

  /** How the stopping point of a `||` chain relates to the stopping point of
      the chain without its last operand. */
  lemma OrElsePrefixStops<R>(ys: seq<() --> Option<R>>, ok: R -> bool)
    requires |ys| >= 2
    ensures forall k :: OrElseReaches(ys[..|ys| - 1], k, ok) ==> OrElseReaches(ys, k, ok)
    ensures forall i :: OrElseStopsAt(ys, i, ok) && i < |ys| - 1 ==> OrElseStopsAt(ys[..|ys| - 1], i, ok)
    ensures OrElseReaches(ys, |ys| - 1, ok) ==>
      OrElseStopsAt(ys[..|ys| - 1], |ys| - 2, ok) && ys[|ys| - 2]().Some? && !ok(ys[|ys| - 2]().value)
    ensures forall i :: OrElseStopsAt(ys[..|ys| - 1], i, ok) && ys[i]().Some? && !ok(ys[i]().value) ==>
      i == |ys| - 2 && OrElseReaches(ys, |ys| - 1, ok)
    ensures forall i :: OrElseStopsAt(ys[..|ys| - 1], i, ok) && (ys[i]().None? || ok(ys[i]().value)) ==>
      OrElseStopsAt(ys, i, ok)
  {
  }

  /** A first null operand of a chain other than its last operand is the
      first null operand of the chain without its last operand too. */
  lemma PrefixKeepsFirstNull<R>(rs: seq<Option<R>>)
    requires |rs| >= 1
    ensures forall k :: FirstNullAt(rs, k) && k < |rs| - 1 ==> FirstNullAt(rs[..|rs| - 1], k)
    ensures forall k :: FirstNullAt(rs, k) && k == |rs| - 1 ==> AllPresent(rs[..|rs| - 1])
  {
  }
}
