/**
 * The arithmetic builtins of src/funtions/math.rs: `+` and `-` as left folds
 * of the operator tables, and the `pos?`, `neg?` and `num?` classifiers.
 */
module Math {
  import opened Errors
  import opened Values
  import Runtime

  // ---------------------------------------------------------------------------
  // `plus` and `sub`
  // ---------------------------------------------------------------------------

  /** `try_fold` with `+`: the first error stops the fold. */
  function FoldAdd(fl: FloatOps, acc: Value, args: seq<Value>): (r: Result<Value>)
    requires IsOperand(acc)
    ensures r.Ok? ==> IsOperand(r.value)
    decreases args
  {
    if args == [] then Ok(acc)
    else
      var next :- Add(fl, acc, args[0]);
      FoldAdd(fl, next, args[1..])
  }

  /** `try_fold` with `-`: the first error stops the fold. */
  function FoldSub(fl: FloatOps, acc: Value, args: seq<Value>): (r: Result<Value>)
    requires IsOperand(acc)
    ensures r.Ok? ==> IsOperand(r.value)
    decreases args
  {
    if args == [] then Ok(acc)
    else
      var next :- Values.Sub(fl, acc, args[0]);
      FoldSub(fl, next, args[1..])
  }

  /** `plus`: the arguments, unevaluated, added left to right onto `Int 0`. */
  function Plus(fl: FloatOps, args: seq<Value>): Result<Value> {
    FoldAdd(fl, ZERO, args)
  }

  /** The accumulator `plus` starts from. */
  const ZERO: Value := Int(0)

  /**
   * `sub`: the first argument, minus the others left to right. A symbol or list
   * in front of further arguments reaches the `todo!()` of `-`.
   */
  function Subtract(fl: FloatOps, args: seq<Value>): Outcome<Value> {
    if args == [] then Fail(Reason("Couldn't parse form content"))
    else if |args| == 1 then Return(args[0])
    else if !IsOperand(args[0]) then Aborted(Panic)
    else Lift(FoldSub(fl, args[0], args[1..]))
  }

  /** The sum of the quantities of a sequence of exact numbers. */
  function Total(args: seq<Value>): real
    requires forall i | 0 <= i < |args| :: IsExact(args[i])
  {
    if args == [] then 0.0 else Quantity(args[0]) + Total(args[1..])
  }

  lemma {:induction false} FoldAddIsExact(fl: FloatOps, acc: Value, args: seq<Value>)
    requires IsExact(acc) && forall i | 0 <= i < |args| :: IsExact(args[i])
    ensures FoldAdd(fl, acc, args).Ok? && IsExact(FoldAdd(fl, acc, args).value)
    ensures Quantity(FoldAdd(fl, acc, args).value) == Quantity(acc) + Total(args)
    decreases args
  {
    if args != [] {
      AddIsExact(fl, acc, args[0]);
      FoldAddIsExact(fl, Add(fl, acc, args[0]).value, args[1..]);
    }
  }

  lemma {:induction false} FoldSubIsExact(fl: FloatOps, acc: Value, args: seq<Value>)
    requires IsExact(acc) && forall i | 0 <= i < |args| :: IsExact(args[i])
    ensures FoldSub(fl, acc, args).Ok? && IsExact(FoldSub(fl, acc, args).value)
    ensures Quantity(FoldSub(fl, acc, args).value) == Quantity(acc) - Total(args)
    decreases args
  {
    if args != [] {
      SubIsExact(fl, acc, args[0]);
      FoldSubIsExact(fl, Values.Sub(fl, acc, args[0]).value, args[1..]);
    }
  }

  /** On integers and rationals `+` computes the exact sum of its arguments. */
  lemma PlusIsExactSum(fl: FloatOps, args: seq<Value>)
    requires forall i | 0 <= i < |args| :: IsExact(args[i])
    ensures var r := Plus(fl, args); r.Ok? && IsExact(r.value) && Quantity(r.value) == Total(args)
  {
    FoldAddIsExact(fl, ZERO, args);
  }

  /** On integers and rationals `-` computes the first argument minus the exact sum of the rest. */
  lemma SubtractIsExactDifference(fl: FloatOps, args: seq<Value>)
    requires |args| >= 1 && forall i | 0 <= i < |args| :: IsExact(args[i])
    ensures Subtract(fl, args).Done? && Subtract(fl, args).result.Ok?
    ensures IsExact(Subtract(fl, args).result.value)
    ensures Quantity(Subtract(fl, args).result.value) == Quantity(args[0]) - Total(args[1..])
  {
    FoldSubIsExact(fl, args[0], args[1..]);
  }

  /**
   * The corner cases of the folds: no arguments, a single argument returned
   * without negation, the worked examples, and a list after a number, which is
   * not evaluated and so cannot be added.
   */
  lemma FoldCornerCases(fl: FloatOps, x: Value, l: seq<Value>)
    ensures Plus(fl, []) == Ok(Int(0))
    ensures Subtract(fl, []) == Fail(Reason("Couldn't parse form content"))
    ensures Subtract(fl, [x]) == Return(x)
    ensures Plus(fl, [Int(1), Rational(2, 3)]) == Ok(Rational(5, 3))
    ensures Subtract(fl, [Int(1), Rational(2, 3)]) == Return(Rational(1, 3))
    ensures Plus(fl, [List(l)]).Err? && Plus(fl, [List(l)]).error.CantEval?
    ensures Subtract(fl, [Int(1), List(l)]).Done? && Subtract(fl, [Int(1), List(l)]).result.Err?
  {
    assert [Int(1), Rational(2, 3)][1..] == [Rational(2, 3)];
    assert FoldAdd(fl, Int(1), [Rational(2, 3)]) == Ok(Rational(5, 3));
  }

  /** `sub` never reaches `todo!()` except with a symbol or list in front of more arguments. */
  lemma SubtractPanics(fl: FloatOps, args: seq<Value>)
    ensures Subtract(fl, args).Aborted? <==> |args| >= 2 && !IsOperand(args[0])
  {
  }

  // ---------------------------------------------------------------------------
  // `pos?`, `neg?` and `num?`
  // ---------------------------------------------------------------------------
  //
  // A symbol is looked up in `DATA` while the guard of `DATA.lock()` is alive,
  // and its value is classified by a nested call. When that value is itself a
  // symbol, the nested call locks `DATA` again on the same thread; `held`
  // records that the lock is taken, and such a re-lock aborts.

  datatype Sign = Positive | Negative

  /** The literal test: a number strictly above (below) zero; a rational by its numerator only. */
  predicate HasSign(fl: FloatOps, sign: Sign, e: Value) {
    match e
    case Double(x) => if sign == Positive then fl.isPositive(x) else fl.isNegative(x)
    case Int(i) => if sign == Positive then i > 0 else i < 0
    case Rational(n, _) => if sign == Positive then n > 0 else n < 0
    case _ => false
  }

  /** One argument of `is_positive` / `is_negative`. */
  function SignItem(h: Runtime.Host, sign: Sign, e: Value, held: bool): (r: Outcome<bool>)
    ensures r.Done? ==> r.result.Ok?
    decreases if held then 0 else 1, 0
  {
    match e
    case Symbol(sym) =>
      if held then Aborted(Relock)
      else if sym !in h.data then Return(false)
      else
        var nested := SignTest(h, sign, [h.data[sym]], true);
        if nested.Aborted? then Aborted(nested.why)
        else Return(nested.result == Ok(Bool(true)))
    case List(l) =>
      Return(h.listTest(if sign == Positive then Runtime.PositiveTest else Runtime.NegativeTest, l))
    case _ => Return(HasSign(h.floats, sign, e))
  }

  /** `list.iter().all(..)`: stops at the first argument that does not qualify. */
  function AllSigned(h: Runtime.Host, sign: Sign, args: seq<Value>, held: bool): (r: Outcome<bool>)
    ensures r.Done? ==> r.result.Ok?
    decreases if held then 0 else 1, 1, |args|
  {
    if args == [] then Return(true)
    else
      var b :- SignItem(h, sign, args[0], held);
      if !b then Return(false) else AllSigned(h, sign, args[1..], held)
  }

  /** `is_positive` (`pos?`) and `is_negative` (`neg?`): they never fail, they answer a Bool or abort. */
  function SignTest(h: Runtime.Host, sign: Sign, args: seq<Value>, held: bool): (r: Outcome<Value>)
    ensures r.Done? ==> r.result.Ok? && r.result.value.Bool?
    decreases if held then 0 else 1, 2
  {
    var b :- AllSigned(h, sign, args, held);
    Return(Bool(b))
  }

  /** One argument of `is_numeric`; only the first argument may be a symbol. */
  function NumericItem(h: Runtime.Host, index: nat, e: Value, held: bool): (r: Outcome<bool>)
    ensures r.Done? ==> r.result.Ok?
    decreases if held then 0 else 1, 0
  {
    match e
    case Symbol(sym) =>
      if index != 0 then Return(false)
      else if held then Aborted(Relock)
      else if sym !in h.data then Return(false)
      else
        var nested := NumericTest(h, [h.data[sym]], true);
        if nested.Aborted? then Aborted(nested.why)
        else Return(nested.result == Ok(Bool(true)))
    case List(l) => Return(h.listTest(Runtime.NumericTest, l))
    case _ => Return(IsNumeric(e))
  }

  function AllNumeric(h: Runtime.Host, args: seq<Value>, from: nat, held: bool): (r: Outcome<bool>)
    requires from <= |args|
    ensures r.Done? ==> r.result.Ok?
    decreases if held then 0 else 1, 1, |args| - from
  {
    if from == |args| then Return(true)
    else
      var b :- NumericItem(h, from, args[from], held);
      if !b then Return(false) else AllNumeric(h, args, from + 1, held)
  }

  /** `is_numeric` (`num?`): it never fails, it answers a Bool or aborts. */
  function NumericTest(h: Runtime.Host, args: seq<Value>, held: bool): (r: Outcome<Value>)
    ensures r.Done? ==> r.result.Ok? && r.result.value.Bool?
    decreases if held then 0 else 1, 2
  {
    var b :- AllNumeric(h, args, 0, held);
    Return(Bool(b))
  }

  /** An argument the classifiers judge by itself, without the data store or the list path. */
  predicate IsLiteral(e: Value) {
    !e.Symbol? && !e.List?
  }

  /**
   * Over literal arguments, `pos?` (`neg?`) holds exactly when every argument
   * is a number above (below) zero, so an empty argument list qualifies.
   */
  lemma {:induction false} SignTestOnLiterals(h: Runtime.Host, sign: Sign, args: seq<Value>, held: bool)
    requires forall i | 0 <= i < |args| :: IsLiteral(args[i])
    ensures AllSigned(h, sign, args, held) == Return(forall i | 0 <= i < |args| :: HasSign(h.floats, sign, args[i]))
    ensures SignTest(h, sign, args, held) == Return(Bool(forall i | 0 <= i < |args| :: HasSign(h.floats, sign, args[i])))
  {
    if args != [] {
      SignTestOnLiterals(h, sign, args[1..], held);
      assert forall i | 1 <= i < |args| :: args[i] == args[1..][i - 1];
    }
  }

  /**
   * Over literal arguments, `num?` holds exactly when every argument is an
   * integer, rational or float; a symbol after the first argument counts as
   * not numeric.
   */
  lemma {:induction false} NumericTestOnLiterals(h: Runtime.Host, args: seq<Value>, from: nat, held: bool)
    requires from <= |args|
    requires forall i | from <= i < |args| :: IsLiteral(args[i]) || (i > 0 && args[i].Symbol?)
    ensures AllNumeric(h, args, from, held) == Return(forall i | from <= i < |args| :: IsNumeric(args[i]))
    decreases |args| - from
  {
    if from < |args| {
      NumericTestOnLiterals(h, args, from + 1, held);
    }
  }

  /**
   * Zero is neither positive nor negative; a rational is judged by its
   * numerator, so 1/-2 is positive; no arguments at all qualify.
   */
  lemma SignCornerCases(h: Runtime.Host, held: bool)
    ensures SignTest(h, Positive, [Int(0)], held) == Return(Bool(false))
    ensures SignTest(h, Negative, [Int(0)], held) == Return(Bool(false))
    ensures SignTest(h, Positive, [Rational(1, -2)], held) == Return(Bool(true))
    ensures SignTest(h, Negative, [Rational(1, -2)], held) == Return(Bool(false))
    ensures SignTest(h, Positive, [], held) == Return(Bool(true))
    ensures NumericTest(h, [], held) == Return(Bool(true))
  {
    SignTestOnLiterals(h, Positive, [Int(0)], held);
    SignTestOnLiterals(h, Negative, [Int(0)], held);
    SignTestOnLiterals(h, Positive, [Rational(1, -2)], held);
    SignTestOnLiterals(h, Negative, [Rational(1, -2)], held);
  }

  /**
   * A symbol argument is resolved through the data store: unbound it does not
   * qualify; bound to a literal it is judged as that literal; bound to another
   * symbol the nested lookup re-locks the store.
   */
  lemma SymbolsResolveThroughData(h: Runtime.Host, sign: Sign, sym: string)
    ensures sym !in h.data ==> SignItem(h, sign, Symbol(sym), false) == Return(false)
    ensures sym !in h.data ==> NumericItem(h, 0, Symbol(sym), false) == Return(false)
    ensures sym in h.data && IsLiteral(h.data[sym]) ==>
      SignItem(h, sign, Symbol(sym), false) == Return(HasSign(h.floats, sign, h.data[sym]))
    ensures sym in h.data && IsLiteral(h.data[sym]) ==>
      NumericItem(h, 0, Symbol(sym), false) == Return(IsNumeric(h.data[sym]))
    ensures sym in h.data && h.data[sym].Symbol? ==>
      SignItem(h, sign, Symbol(sym), false) == Aborted(Relock)
  {
    if sym in h.data && IsLiteral(h.data[sym]) {
      SignTestOnLiterals(h, sign, [h.data[sym]], true);
      NumericTestOnLiterals(h, [h.data[sym]], 0, true);
    }
  }
}
