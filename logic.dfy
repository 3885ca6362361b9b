/**
 * The comparison and truth builtins of src/funtions/logic.rs.
 */
module Logic {
  import opened Errors
  import opened Values
  import Runtime

  // ---------------------------------------------------------------------------
  // `=`, `>=`, `>`, `<=`, `<`: every adjacent pair of evaluated arguments
  // ---------------------------------------------------------------------------

  datatype Comparison = EqualTo | AtLeast | Above | AtMost | Below

  /** The left element of a pair: its evaluation, or Nil when that fails. */
  function LeftOf(h: Runtime.Host, v: Value): Value {
    match h.eval(v)
    case Ok(x) => x
    case Err(_) => Nil
  }

  /** The right element of a pair: its evaluation, or `Bool(true)` when that fails. */
  function RightOf(h: Runtime.Host, v: Value): Value {
    match h.eval(v)
    case Ok(x) => x
    case Err(_) => Bool(true)
  }

  /** Derived `==`, or the `PartialOrd` operator on the display texts. */
  predicate Holds(h: Runtime.Host, cmp: Comparison, a: Value, b: Value) {
    match cmp
    case EqualTo => a == b
    case AtLeast => Compare(h.debug, a, b) != Less
    case Above => Compare(h.debug, a, b) == Greater
    case AtMost => Compare(h.debug, a, b) != Greater
    case Below => Compare(h.debug, a, b) == Less
  }

  /** `list.windows(2).all(..)`. */
  function Pairwise(h: Runtime.Host, cmp: Comparison, args: seq<Value>): (r: bool)
    ensures r <==> forall i | 0 <= i < |args| - 1 :: Holds(h, cmp, LeftOf(h, args[i]), RightOf(h, args[i + 1]))
  {
    if |args| < 2 then true
    else
      assert forall i | 1 <= i < |args| :: args[i] == args[1..][i - 1];
      Holds(h, cmp, LeftOf(h, args[0]), RightOf(h, args[1])) && Pairwise(h, cmp, args[1..])
  }

  /** `eq`, `ge`, `greater`, `le`, `lesser`. */
  function CompareAll(h: Runtime.Host, cmp: Comparison, args: seq<Value>): Value {
    Bool(Pairwise(h, cmp, args))
  }

  /** Fewer than two arguments always compare true. */
  lemma ShortComparisons(h: Runtime.Host, cmp: Comparison, x: Value)
    ensures CompareAll(h, cmp, []) == Bool(true)
    ensures CompareAll(h, cmp, [x]) == Bool(true)
  {
  }

  /**
   * A failed evaluation is replaced by Nil on the left but by `Bool(true)` on
   * the right, so a value whose evaluation fails is not `=` to itself.
   */
  lemma FailedEvaluationIsNotEqualToItself(h: Runtime.Host, x: Value)
    requires h.eval(x).Err?
    ensures CompareAll(h, EqualTo, [x, x]) == Bool(false)
  {
  }

  /**
   * When every argument evaluates, a `<` chain orders every earlier value
   * strictly before every later one.
   */
  lemma {:induction false} BelowChainIsOrdered(h: Runtime.Host, args: seq<Value>, i: nat, j: nat)
    requires forall k | 0 <= k < |args| :: h.eval(args[k]).Ok?
    requires Pairwise(h, Below, args)
    requires i < j < |args|
    ensures Compare(h.debug, h.eval(args[i]).value, h.eval(args[j]).value) == Less
    decreases j - i
  {
    assert Holds(h, Below, LeftOf(h, args[i]), RightOf(h, args[i + 1]));
    if i + 1 < j {
      BelowChainIsOrdered(h, args, i + 1, j);
      CompareTextTransitive(
        DisplayText(h.debug, h.eval(args[i]).value),
        DisplayText(h.debug, h.eval(args[i + 1]).value),
        DisplayText(h.debug, h.eval(args[j]).value));
    }
  }

  // ---------------------------------------------------------------------------
  // `true?` and `false?`
  // ---------------------------------------------------------------------------
  //
  // A symbol is looked up inside the closure of `DATA.lock().map_or(..)`, so a
  // nested call made for a bound value runs with the lock taken (`held`), and a
  // symbol reached from there re-locks the store.

  datatype Polarity = Truthy | Falsy

  /** The value a failed evaluation is replaced by: Nil for `true?`, `Bool(true)` for `false?`. */
  function Fallback(h: Runtime.Host, pol: Polarity, v: Value): Value {
    if pol == Truthy then LeftOf(h, v) else RightOf(h, v)
  }

  /** How a value that is neither a symbol nor a list counts: Bool and Nil by truth, the rest as truthy. */
  predicate Counts(pol: Polarity, v: Value) {
    var truthy := v != Bool(false) && v != Nil;
    if pol == Truthy then truthy else !truthy
  }

  /** One argument of `is_true` / `is_false`. */
  function TruthItem(h: Runtime.Host, pol: Polarity, e: Value, held: bool, fuel: nat): (r: Outcome<bool>)
    ensures r.Done? ==> r.result.Ok?
    decreases fuel, 1
  {
    match e
    case Symbol(key) =>
      if held then Aborted(Relock)
      else if key !in h.data then Return(pol == Truthy)
      else
        (match h.data[key]
         case Bool(b) => Return(if pol == Truthy then b else !b)
         case Nil => Return(pol == Falsy)
         case d => Nested(h, pol, Fallback(h, pol, d), true, fuel))
    case List(_) => Nested(h, pol, Fallback(h, pol, e), held, fuel)
    case _ => Return(Counts(pol, e))
  }

  /** `if let Ok(Bool(b)) = is_true(&[x]) { b } else { false }`. */
  function Nested(h: Runtime.Host, pol: Polarity, x: Value, held: bool, fuel: nat): (r: Outcome<bool>)
    ensures r.Done? ==> r.result.Ok?
    decreases fuel, 0
  {
    if fuel == 0 then Aborted(OutOfFuel)
    else
      var r := TruthTest(h, pol, [x], held, fuel - 1);
      if r.Aborted? then Aborted(r.why) else Return(r.result == Ok(Bool(true)))
  }

  function AllCount(h: Runtime.Host, pol: Polarity, args: seq<Value>, held: bool, fuel: nat): (r: Outcome<bool>)
    ensures r.Done? ==> r.result.Ok?
    decreases fuel, 2, |args|
  {
    if args == [] then Return(true)
    else
      var b :- TruthItem(h, pol, args[0], held, fuel);
      if !b then Return(false) else AllCount(h, pol, args[1..], held, fuel)
  }

  /** `is_true` (`true?`) and `is_false` (`false?`): they never fail, they answer a Bool or abort. */
  function TruthTest(h: Runtime.Host, pol: Polarity, args: seq<Value>, held: bool, fuel: nat): (r: Outcome<Value>)
    ensures r.Done? ==> r.result.Ok? && r.result.value.Bool?
    decreases fuel, 3
  {
    var b :- AllCount(h, pol, args, held, fuel);
    Return(Bool(b))
  }

  predicate IsLiteral(e: Value) {
    !e.Symbol? && !e.List?
  }

  /**
   * Over literal arguments `true?` holds exactly when no argument is
   * `Bool(false)` or Nil, and `false?` exactly when every argument is.
   */
  lemma {:induction false} TruthOnLiterals(h: Runtime.Host, pol: Polarity, args: seq<Value>, held: bool, fuel: nat)
    requires forall i | 0 <= i < |args| :: IsLiteral(args[i])
    ensures AllCount(h, pol, args, held, fuel) == Return(forall i | 0 <= i < |args| :: Counts(pol, args[i]))
    ensures TruthTest(h, pol, args, held, fuel) == Return(Bool(forall i | 0 <= i < |args| :: Counts(pol, args[i])))
  {
    if args != [] {
      TruthOnLiterals(h, pol, args[1..], held, fuel);
      assert forall i | 1 <= i < |args| :: args[i] == args[1..][i - 1];
    }
  }

  /** On a single literal, `true?` and `false?` are each other's negation. */
  lemma LiteralsAreDecided(h: Runtime.Host, e: Value, held: bool, fuel: nat)
    requires IsLiteral(e)
    ensures TruthTest(h, Truthy, [e], held, fuel) == Return(Bool(e != Bool(false) && e != Nil))
    ensures TruthTest(h, Falsy, [e], held, fuel) == Return(Bool(e == Bool(false) || e == Nil))
  {
    TruthOnLiterals(h, Truthy, [e], held, fuel);
    TruthOnLiterals(h, Falsy, [e], held, fuel);
  }

  /**
   * Symbols resolve through the data store: unbound, `true?` holds and
   * `false?` does not; bound to a Bool or Nil they count as that value.
   */
  lemma SymbolsResolveThroughData(h: Runtime.Host, key: string, fuel: nat)
    ensures key !in h.data ==> TruthTest(h, Truthy, [Symbol(key)], false, fuel) == Return(Bool(true))
    ensures key !in h.data ==> TruthTest(h, Falsy, [Symbol(key)], false, fuel) == Return(Bool(false))
    ensures key in h.data && (h.data[key].Bool? || h.data[key].Nil?) ==>
      && TruthTest(h, Truthy, [Symbol(key)], false, fuel) == Return(Bool(Counts(Truthy, h.data[key])))
      && TruthTest(h, Falsy, [Symbol(key)], false, fuel) == Return(Bool(Counts(Falsy, h.data[key])))
  {
    SingleArgument(h, Truthy, Symbol(key), false, fuel);
    SingleArgument(h, Falsy, Symbol(key), false, fuel);
  }

  /** With one argument, the test is that argument's item. */
  lemma SingleArgument(h: Runtime.Host, pol: Polarity, e: Value, held: bool, fuel: nat)
    ensures TruthItem(h, pol, e, held, fuel).Aborted? ==>
      TruthTest(h, pol, [e], held, fuel) == Aborted(TruthItem(h, pol, e, held, fuel).why)
    ensures TruthItem(h, pol, e, held, fuel).Done? ==>
      TruthTest(h, pol, [e], held, fuel) == Return(Bool(TruthItem(h, pol, e, held, fuel).result == Ok(true)))
  {
    assert [e][1..] == [];
    var item := TruthItem(h, pol, e, held, fuel);
    if item.Done? {
      assert AllCount(h, pol, [e], held, fuel) == Return(item.result.value);
    }
  }

  /**
   * A list whose evaluation fails satisfies neither `true?` (it counts as Nil)
   * nor `false?` (it counts as `Bool(true)`).
   */
  lemma FailedListIsNeither(h: Runtime.Host, l: seq<Value>, fuel: nat)
    requires h.eval(List(l)).Err? && fuel > 0
    ensures TruthTest(h, Truthy, [List(l)], false, fuel) == Return(Bool(false))
    ensures TruthTest(h, Falsy, [List(l)], false, fuel) == Return(Bool(false))
  {
    LiteralsAreDecided(h, Nil, false, fuel - 1);
    LiteralsAreDecided(h, Bool(true), false, fuel - 1);
    assert Fallback(h, Truthy, List(l)) == Nil && Fallback(h, Falsy, List(l)) == Bool(true);
    SingleArgument(h, Truthy, List(l), false, fuel);
    SingleArgument(h, Falsy, List(l), false, fuel);
  }
}
