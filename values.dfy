/**
 * The value model of src/definitions.rs: the `DefinitionTypes` tagged union,
 * its string-based ordering, and the `+` / `-` operator tables.
 * Printing lives in module Evaluator, because `print` evaluates lists.
 */
module Values {
  import opened Errors
  import opened Numerals

  /** A 64-bit float, kept as an opaque payload (its bits). */
  datatype Float = Float(bits: bv64)

  /**
   * Floating-point arithmetic, conversion and text, which the model does not
   * interpret. `ofInt` is `BigInt::to_f64` (None when it fails), `ofText` is
   * the value `f64::from_str` gives a text it accepts, `show` is `format!("{}", f)`.
   */
  datatype FloatOps = FloatOps(
    add: (Float, Float) -> Float,
    sub: (Float, Float) -> Float,
    mul: (Float, Float) -> Float,
    div: (Float, Float) -> Float,
    ofInt: int -> Option<Float>,
    ofText: string -> Float,
    show: Float -> string,
    isPositive: Float -> bool,
    isNegative: Float -> bool)

  /**
   * `DefinitionTypes`. Hash and ordered sets and maps are finite sets and maps
   * of values, so equality is the derived structural equality of the source.
   * Keywords are stored with their leading `:`, as the reader builds them.
   */
  datatype Value =
    | Symbol(name: string)
    | Keyword(key: string)
    | String(text: string)
    | Char(ch: char)
    | Bool(b: bool)
    | Double(x: Float)
    | Int(i: int)
    | Rational(num: int, den: int)
    | HashSet(elems: set<Value>)
    | OrderedSet(elems: set<Value>)
    | HashMap(entries: map<Value, Value>)
    | OrderedMap(entries: map<Value, Value>)
    | List(items: seq<Value>)
    | Vector(items: seq<Value>)
    | Nil

  predicate IsNumeric(v: Value) {
    v.Int? || v.Rational? || v.Double?
  }

  predicate IsCollection(v: Value) {
    v.HashSet? || v.OrderedSet? || v.HashMap? || v.OrderedMap? || v.Vector?
  }

  /** A left operand for which `+` and `-` do not reach a `todo!()`. */
  predicate IsOperand(v: Value) {
    !v.Symbol? && !v.List?
  }

  predicate SameCollectionKind(l: Value, r: Value) {
    || (l.HashSet? && r.HashSet?)
    || (l.OrderedSet? && r.OrderedSet?)
    || (l.HashMap? && r.HashMap?)
    || (l.OrderedMap? && r.OrderedMap?)
    || (l.Vector? && r.Vector?)
  }

  // ---------------------------------------------------------------------------
  // Ordering: `Ord` and `PartialOrd` compare the `Display` strings.
  // ---------------------------------------------------------------------------

  datatype Ordering = Less | Equal | Greater

  /** `String::cmp`: lexicographic by character (UTF-8 byte order is code-point order). */
  function CompareText(a: string, b: string): Ordering {
    if a == [] then (if b == [] then Equal else Less)
    else if b == [] then Greater
    else if a[0] < b[0] then Less
    else if a[0] > b[0] then Greater
    else CompareText(a[1..], b[1..])
  }

  /**
   * The derived `Debug` rendering for the variants whose text the ordering
   * lemmas use; `debug` renders the others.
   */
  function DebugText(debug: Value -> string, v: Value): string {
    match v
    case Int(i) => "Int(" + IntToString(i) + ")"
    case Bool(b) => if b then "Bool(true)" else "Bool(false)"
    case Nil => "Nil"
    case _ => debug(v)
  }

  /** `impl Display`: keywords and rationals have their own text, the rest is `Debug`. */
  function DisplayText(debug: Value -> string, v: Value): string {
    match v
    case Keyword(key) => ":" + key
    case Rational(n, d) => IntToString(n) + "/" + IntToString(d)
    case _ => DebugText(debug, v)
  }

  /** `Ord::cmp` and `PartialOrd::partial_cmp`. */
  function Compare(debug: Value -> string, a: Value, b: Value): Ordering {
    CompareText(DisplayText(debug, a), DisplayText(debug, b))
  }

  lemma {:induction false} CompareTextEqual(a: string, b: string)
    ensures CompareText(a, b) == Equal <==> a == b
  {
    if a != [] && b != [] && a[0] == b[0] {
      CompareTextEqual(a[1..], b[1..]);
      assert a == [a[0]] + a[1..] && b == [b[0]] + b[1..];
    }
  }

  lemma {:induction false} CompareTextFlip(a: string, b: string)
    ensures CompareText(a, b) == Less <==> CompareText(b, a) == Greater
  {
    if a != [] && b != [] && a[0] == b[0] {
      CompareTextFlip(a[1..], b[1..]);
    }
  }

  lemma {:induction false} CompareTextTransitive(a: string, b: string, c: string)
    requires CompareText(a, b) == Less && CompareText(b, c) == Less
    ensures CompareText(a, c) == Less
  {
    if a != [] && b != [] && c != [] && a[0] == b[0] == c[0] {
      CompareTextTransitive(a[1..], b[1..], c[1..]);
    }
  }

  /**
   * The value ordering is a total preorder: two values are `Equal` exactly when
   * their display texts coincide, `Less` and `Greater` mirror each other, and
   * `Less` is transitive.
   */
  lemma OrderIsTotalPreorder(debug: Value -> string, a: Value, b: Value, c: Value)
    ensures Compare(debug, a, b) == Equal <==> DisplayText(debug, a) == DisplayText(debug, b)
    ensures Compare(debug, a, b) == Less <==> Compare(debug, b, a) == Greater
    ensures Compare(debug, a, b) == Less && Compare(debug, b, c) == Less ==> Compare(debug, a, c) == Less
  {
    CompareTextEqual(DisplayText(debug, a), DisplayText(debug, b));
    CompareTextFlip(DisplayText(debug, a), DisplayText(debug, b));
    if Compare(debug, a, b) == Less && Compare(debug, b, c) == Less {
      CompareTextTransitive(DisplayText(debug, a), DisplayText(debug, b), DisplayText(debug, c));
    }
  }

  /** The ordering is textual, not numeric: 10 sorts before 9, and 1/2 before 1/3. */
  lemma OrderIsTextual(debug: Value -> string)
    ensures Compare(debug, Int(10), Int(9)) == Less
    ensures Compare(debug, Rational(1, 2), Rational(1, 3)) == Less
    ensures Int(1) != Rational(2, 2)
  {
    assert DisplayText(debug, Int(10)) == "Int(" + "10)";
    assert DisplayText(debug, Int(9)) == "Int(" + "9)";
    CompareTextSharedPrefix("Int(", "10)", "9)");
    assert DisplayText(debug, Rational(1, 2)) == "1/" + "2";
    assert DisplayText(debug, Rational(1, 3)) == "1/" + "3";
    CompareTextSharedPrefix("1/", "2", "3");
  }

  lemma {:induction false} CompareTextSharedPrefix(p: string, a: string, b: string)
    ensures CompareText(p + a, p + b) == CompareText(a, b)
  {
    if p != [] {
      assert (p + a)[1..] == p[1..] + a;
      assert (p + b)[1..] == p[1..] + b;
      CompareTextSharedPrefix(p[1..], a, b);
    } else {
      assert p + a == a && p + b == b;
    }
  }

  // ---------------------------------------------------------------------------
  // `impl ops::Add` and `impl ops::Sub`
  // ---------------------------------------------------------------------------

  /** `BigInt::to_f64`, failing with `IntParseError`. */
  function ToF64(fl: FloatOps, i: int): Result<Float> {
    match fl.ofInt(i)
    case Some(x) => Ok(x)
    case None => Err(IntParseError)
  }

  function CantEvalBecause(why: string): Error {
    CantEval(Some(why))
  }

  /**
   * The collection arms, which `+` and `-` share word for word: sets take the
   * union, maps merge with the right-hand values winning, vectors append.
   */
  function CombineCollections(lhs: Value, rhs: Value): (r: Result<Value>)
    requires IsCollection(lhs)
    ensures r.Err? <==> !SameCollectionKind(lhs, rhs)
    ensures r.Err? ==> r.error.CantEval?
  {
    match lhs
    case HashSet(v) =>
      if rhs.HashSet? then Ok(HashSet(v + rhs.elems))
      else Err(CantEvalBecause("Can't add non-ordered-map to ordered-map using `+`"))
    case OrderedSet(v) =>
      if rhs.OrderedSet? then Ok(OrderedSet(v + rhs.elems))
      else Err(CantEvalBecause("Can't add non-ordered-map to ordered-map using `+`"))
    case HashMap(v) =>
      if rhs.HashMap? then Ok(HashMap(v + rhs.entries))
      else Err(CantEvalBecause("Can't add non-hash-map to hash-map using `+`"))
    case OrderedMap(v) =>
      if rhs.OrderedMap? then Ok(OrderedMap(v + rhs.entries))
      else Err(CantEvalBecause("Can't add non-ordered-map to ordered-map using `+`"))
    case Vector(v) =>
      if rhs.Vector? then Ok(Vector(v + rhs.items))
      else Err(CantEvalBecause("Can't add non-vector to vector using `+`"))
  }

  /** A number or Nil: what every numeric arm of `+` and `-` returns. */
  predicate IsNumericOrNil(v: Value) {
    IsNumeric(v) || v.Nil?
  }

  /** `lhs + rhs`. A symbol or list on the left reaches `todo!()`, so it is excluded. */
  function Add(fl: FloatOps, lhs: Value, rhs: Value): (r: Result<Value>)
    requires IsOperand(lhs)
    ensures r.Ok? ==> IsOperand(r.value)
  {
    match lhs
    case Keyword(_) => Err(CantEvalBecause("Can't eval add of keyword"))
    case String(s) =>
      if rhs.String? then Ok(String(s + rhs.text))
      else Err(CantEvalBecause("Can't add non-string to string using `+`"))
    case Char(_) => Err(CantEvalBecause("Can't eval add of char"))
    case Bool(_) => Err(CantEvalBecause("Can't eval add of bool"))
    case Double(num) => AddToDouble(fl, num, rhs)
    case Int(num) => AddToInt(fl, num, rhs)
    case Rational(num, den) => AddToRational(fl, num, den, rhs)
    case HashSet(_) => CombineCollections(lhs, rhs)
    case OrderedSet(_) => CombineCollections(lhs, rhs)
    case HashMap(_) => CombineCollections(lhs, rhs)
    case OrderedMap(_) => CombineCollections(lhs, rhs)
    case Vector(_) => CombineCollections(lhs, rhs)
    case Nil => Ok(Nil)
  }

  /** The error of every numeric arm of `+` whose right operand is no number and not Nil. */
  const AddNonNumeric: Error := CantEvalBecause("Can't add non-numeric to numeric using `+`")

  /** The `Double(num)` arm of `+`. */
  function AddToDouble(fl: FloatOps, num: Float, rhs: Value): (r: Result<Value>)
    ensures r.Ok? ==> IsNumericOrNil(r.value)
    ensures r.Err? ==> r.error == IntParseError || (!IsNumericOrNil(rhs) && r.error == AddNonNumeric)
  {
    match rhs
    case Double(x) => Ok(Double(fl.add(num, x)))
    case Int(n) =>
      var x :- ToF64(fl, n);
      Ok(Double(fl.add(num, x)))
    case Rational(rn, rd) =>
      var d :- ToF64(fl, rd);
      var n :- ToF64(fl, rn);
      Ok(Double(fl.div(fl.add(fl.mul(num, d), n), d)))
    case Nil => Ok(Nil)
    case _ => Err(AddNonNumeric)
  }

  /** The `Int(num)` arm of `+`. */
  function AddToInt(fl: FloatOps, num: int, rhs: Value): (r: Result<Value>)
    ensures r.Ok? ==> IsNumericOrNil(r.value)
    ensures r.Err? ==> r.error == IntParseError || (!IsNumericOrNil(rhs) && r.error == AddNonNumeric)
    ensures !rhs.Double? ==> (r.Err? <==> !IsNumericOrNil(rhs))
  {
    match rhs
    case Double(x) =>
      var n :- ToF64(fl, num);
      Ok(Double(fl.add(n, x)))
    case Int(n) => Ok(Int(num + n))
    case Rational(rn, rd) => Ok(Rational(rn + num * rd, rd))
    case Nil => Ok(Nil)
    case _ => Err(AddNonNumeric)
  }

  /** The `Rational(num, den)` arm of `+`. */
  function AddToRational(fl: FloatOps, num: int, den: int, rhs: Value): (r: Result<Value>)
    ensures r.Ok? ==> IsNumericOrNil(r.value)
    ensures r.Err? ==> r.error == IntParseError || (!IsNumericOrNil(rhs) && r.error == AddNonNumeric)
    ensures !rhs.Double? ==> (r.Err? <==> !IsNumericOrNil(rhs))
  {
    match rhs
    case Double(x) =>
      var n :- ToF64(fl, num);
      var d :- ToF64(fl, den);
      Ok(Double(fl.add(fl.div(n, d), x)))
    case Int(n) => Ok(Rational(num + n * den, den))
    case Rational(rn, rd) => Ok(Rational(rn * den + num * rd, rd * den))
    case Nil => Ok(Nil)
    case _ => Err(AddNonNumeric)
  }

  /** `lhs - rhs`. A symbol or list on the left reaches `todo!()`, so it is excluded. */
  function Sub(fl: FloatOps, lhs: Value, rhs: Value): (r: Result<Value>)
    requires IsOperand(lhs)
    ensures r.Ok? ==> IsOperand(r.value)
  {
    match lhs
    case Keyword(_) => Err(CantEvalBecause("Can't eval sub of keyword"))
    case String(_) => Err(CantEvalBecause("Can't eval sub of keyword"))
    case Char(_) => Err(CantEvalBecause("Can't eval sub of char"))
    case Bool(_) => Err(CantEvalBecause("Can't eval sub of bool"))
    case Double(num) => SubFromDouble(fl, num, rhs)
    case Int(num) => SubFromInt(fl, num, rhs)
    case Rational(num, den) => SubFromRational(fl, num, den, rhs)
    case HashSet(_) => CombineCollections(lhs, rhs)
    case OrderedSet(_) => CombineCollections(lhs, rhs)
    case HashMap(_) => CombineCollections(lhs, rhs)
    case OrderedMap(_) => CombineCollections(lhs, rhs)
    case Vector(_) => CombineCollections(lhs, rhs)
    case Nil => Ok(Nil)
  }

  /** The error of every numeric arm of `-` whose right operand is no number and not Nil. */
  const SubNonNumeric: Error := CantEvalBecause("Can't sub non-numeric to numeric using `+`")

  /** The `Double(num)` arm of `-`. */
  function SubFromDouble(fl: FloatOps, num: Float, rhs: Value): (r: Result<Value>)
    ensures r.Ok? ==> IsNumericOrNil(r.value)
    ensures r.Err? ==> r.error == IntParseError || (!IsNumericOrNil(rhs) && r.error == SubNonNumeric)
  {
    match rhs
    case Double(x) => Ok(Double(fl.sub(num, x)))
    case Int(n) =>
      var x :- ToF64(fl, n);
      Ok(Double(fl.sub(num, x)))
    case Rational(rn, rd) =>
      var d :- ToF64(fl, rd);
      var n :- ToF64(fl, rn);
      Ok(Double(fl.div(fl.sub(fl.mul(num, d), n), d)))
    case Nil => Ok(Nil)
    case _ => Err(SubNonNumeric)
  }

  /** The `Int(num)` arm of `-`. */
  function SubFromInt(fl: FloatOps, num: int, rhs: Value): (r: Result<Value>)
    ensures r.Ok? ==> IsNumericOrNil(r.value)
    ensures r.Err? ==> r.error == IntParseError || (!IsNumericOrNil(rhs) && r.error == SubNonNumeric)
    ensures !rhs.Double? ==> (r.Err? <==> !IsNumericOrNil(rhs))
  {
    match rhs
    case Double(x) =>
      var n :- ToF64(fl, num);
      Ok(Double(fl.sub(n, x)))
    case Int(n) => Ok(Int(num - n))
    case Rational(rn, rd) => Ok(Rational(num * rd - rn, rd))
    case Nil => Ok(Nil)
    case _ => Err(SubNonNumeric)
  }

  /** The `Rational(num, den)` arm of `-`. */
  function SubFromRational(fl: FloatOps, num: int, den: int, rhs: Value): (r: Result<Value>)
    ensures r.Ok? ==> IsNumericOrNil(r.value)
    ensures r.Err? ==> r.error == IntParseError || (!IsNumericOrNil(rhs) && r.error == SubNonNumeric)
    ensures !rhs.Double? ==> (r.Err? <==> !IsNumericOrNil(rhs))
  {
    match rhs
    case Double(x) =>
      var n :- ToF64(fl, num);
      var d :- ToF64(fl, den);
      Ok(Double(fl.sub(fl.div(n, d), x)))
    case Int(n) => Ok(Rational(num - n * den, den))
    case Rational(rn, rd) => Ok(Rational(num * rd - rn * den, rd * den))
    case Nil => Ok(Nil)
    case _ => Err(SubNonNumeric)
  }

  // ---------------------------------------------------------------------------
  // The insertion loops of the HashSet and HashMap arms
  // ---------------------------------------------------------------------------

  /** `let mut v = v.clone(); for k in rhs_v { v.insert(k); }`: the union of the two sets. */
  method InsertAllElems(v: set<Value>, rhs: set<Value>) returns (r: set<Value>)
    ensures r == v + rhs
  {
    r := v;
    var rest := rhs;
    while rest != {}
      invariant r + rest == v + rhs
      decreases rest
    {
      var k :| k in rest;
      r := r + {k};
      rest := rest - {k};
    }
  }

  /**
   * `let mut v = v.clone(); for (k, val) in rhs_v { v.insert(k, val); }`: every
   * key of either map, with the right-hand value where both have the key.
   */
  method InsertAllEntries(v: map<Value, Value>, rhs: map<Value, Value>) returns (r: map<Value, Value>)
    ensures r.Keys == v.Keys + rhs.Keys
    ensures forall k :: k in r ==> r[k] == if k in rhs then rhs[k] else v[k]
  {
    r := v;
    var rest := rhs.Keys;
    while rest != {}
      invariant rest <= rhs.Keys
      invariant r.Keys == v.Keys + (rhs.Keys - rest)
      invariant forall k :: k in r ==> r[k] == if k in rhs && k !in rest then rhs[k] else v[k]
      decreases rest
    {
      var k :| k in rest;
      r := r[k := rhs[k]];
      rest := rest - {k};
    }
  }

  // ---------------------------------------------------------------------------
  // Properties of the operator tables
  // ---------------------------------------------------------------------------

  /** An exact number: an integer, or a rational with a non-zero denominator. */
  predicate IsExact(v: Value) {
    v.Int? || (v.Rational? && v.den != 0)
  }

  /** The quantity an exact number denotes. */
  function Quantity(v: Value): real
    requires IsExact(v)
  {
    if v.Int? then v.i as real else v.num as real / v.den as real
  }

  lemma QuotientSum(n: int, d: int, m: int, e: int)
    requires d != 0 && e != 0
    ensures (m * d + n * e) as real / (e * d) as real == n as real / d as real + m as real / e as real
  {
    var q1 := n as real / d as real;
    var q2 := m as real / e as real;
    assert n as real == q1 * d as real;
    assert m as real == q2 * e as real;
    assert (m * d + n * e) as real == (q1 + q2) * (e * d) as real;
  }

  lemma QuotientDifference(n: int, d: int, m: int, e: int)
    requires d != 0 && e != 0
    ensures (n * e - m * d) as real / (e * d) as real == n as real / d as real - m as real / e as real
  {
    var q1 := n as real / d as real;
    var q2 := m as real / e as real;
    assert n as real == q1 * d as real;
    assert m as real == q2 * e as real;
    assert (n * e - m * d) as real == (q1 - q2) * (e * d) as real;
  }

  /**
   * `+` on integers and rationals is exact: the result is again an exact
   * number (a rational whenever either side is one), denoting the sum.
   */
  lemma AddIsExact(fl: FloatOps, a: Value, b: Value)
    requires IsExact(a) && IsExact(b)
    ensures Add(fl, a, b).Ok? && IsExact(Add(fl, a, b).value)
    ensures Add(fl, a, b).value.Int? <==> a.Int? && b.Int?
    ensures Quantity(Add(fl, a, b).value) == Quantity(a) + Quantity(b)
  {
    match (a, b)
    case (Int(x), Int(y)) =>
    case (Int(x), Rational(m, e)) => QuotientSum(x, 1, m, e);
    case (Rational(n, d), Int(y)) => QuotientSum(n, d, y, 1);
    case (Rational(n, d), Rational(m, e)) => QuotientSum(n, d, m, e);
  }

  /** `-` on integers and rationals is exact in the same way. */
  lemma SubIsExact(fl: FloatOps, a: Value, b: Value)
    requires IsExact(a) && IsExact(b)
    ensures Sub(fl, a, b).Ok? && IsExact(Sub(fl, a, b).value)
    ensures Sub(fl, a, b).value.Int? <==> a.Int? && b.Int?
    ensures Quantity(Sub(fl, a, b).value) == Quantity(a) - Quantity(b)
  {
    match (a, b)
    case (Int(x), Int(y)) =>
    case (Int(x), Rational(m, e)) => QuotientDifference(x, 1, m, e);
    case (Rational(n, d), Int(y)) => QuotientDifference(n, d, y, 1);
    case (Rational(n, d), Rational(m, e)) => QuotientDifference(n, d, m, e);
  }

  /** Subtracting what was added gives back the same quantity, though not the same fraction. */
  lemma SubUndoesAdd(fl: FloatOps, a: Value, b: Value)
    requires IsExact(a) && IsExact(b)
    ensures Add(fl, a, b).Ok? && Sub(fl, Add(fl, a, b).value, b).Ok?
    ensures IsExact(Sub(fl, Add(fl, a, b).value, b).value)
    ensures Quantity(Sub(fl, Add(fl, a, b).value, b).value) == Quantity(a)
  {
    AddIsExact(fl, a, b);
    SubIsExact(fl, Add(fl, a, b).value, b);
  }

  /**
   * Mixed integer/rational arithmetic keeps the rational's denominator, and
   * rational/rational arithmetic multiplies the denominators without reducing:
   * 1/2 + 1/2 is 4/4.
   */
  lemma DenominatorsNeverReduce(fl: FloatOps, i: int, n: int, d: int, m: int, e: int)
    ensures Add(fl, Int(i), Rational(n, d)) == Ok(Rational(n + i * d, d))
    ensures Add(fl, Rational(n, d), Int(i)) == Ok(Rational(n + i * d, d))
    ensures Sub(fl, Int(i), Rational(n, d)) == Ok(Rational(i * d - n, d))
    ensures Sub(fl, Rational(n, d), Int(i)) == Ok(Rational(n - i * d, d))
    ensures Add(fl, Rational(n, d), Rational(m, e)).value.den == e * d
    ensures Sub(fl, Rational(n, d), Rational(m, e)).value.den == e * d
    ensures Add(fl, Rational(1, 2), Rational(1, 2)) == Ok(Rational(4, 4))
  {
  }

  /** Nil absorbs: a numeric left operand with Nil on the right, or Nil on the left, gives Nil. */
  lemma NilAbsorbs(fl: FloatOps, a: Value, b: Value)
    requires IsNumeric(a) || a.Nil?
    ensures Add(fl, a, Nil) == Ok(Nil) && Sub(fl, a, Nil) == Ok(Nil)
    ensures Add(fl, Nil, b) == Ok(Nil) && Sub(fl, Nil, b) == Ok(Nil)
  {
  }

  /**
   * When `+` fails, outside float conversion: exactly for a keyword, char or
   * bool on the left, a string with a non-string, a number with something that
   * is neither a number nor Nil, and a collection with a value that is not a
   * collection of the same kind. Every failure is a `CantEval`.
   */
  lemma AddErrors(fl: FloatOps, l: Value, r: Value)
    requires IsOperand(l) && !l.Double? && !r.Double?
    ensures Add(fl, l, r).Err? <==>
      || l.Keyword? || l.Char? || l.Bool?
      || (l.String? && !r.String?)
      || (IsNumeric(l) && !IsNumeric(r) && !r.Nil?)
      || (IsCollection(l) && !SameCollectionKind(l, r))
    ensures Add(fl, l, r).Err? ==> Add(fl, l, r).error.CantEval?
  {
    match l
    case Int(n) => assert Add(fl, l, r) == AddToInt(fl, n, r);
    case Rational(n, d) => assert Add(fl, l, r) == AddToRational(fl, n, d, r);
    case HashSet(_) => assert Add(fl, l, r) == CombineCollections(l, r);
    case OrderedSet(_) => assert Add(fl, l, r) == CombineCollections(l, r);
    case HashMap(_) => assert Add(fl, l, r) == CombineCollections(l, r);
    case OrderedMap(_) => assert Add(fl, l, r) == CombineCollections(l, r);
    case Vector(_) => assert Add(fl, l, r) == CombineCollections(l, r);
    case _ =>
  }

  /** `+` on two strings joins them. */
  lemma AddJoinsStrings(fl: FloatOps, a: string, b: string)
    ensures Add(fl, String(a), String(b)) == Ok(String(a + b))
  {
  }

  /** `-` fails in the same cases as `+`, and also for every string on the left. */
  lemma SubErrors(fl: FloatOps, l: Value, r: Value)
    requires IsOperand(l) && !l.Double? && !r.Double?
    ensures Sub(fl, l, r).Err? <==>
      || l.Keyword? || l.Char? || l.Bool? || l.String?
      || (IsNumeric(l) && !IsNumeric(r) && !r.Nil?)
      || (IsCollection(l) && !SameCollectionKind(l, r))
    ensures Sub(fl, l, r).Err? ==> Sub(fl, l, r).error.CantEval?
  {
    match l
    case Int(n) => assert Sub(fl, l, r) == SubFromInt(fl, n, r);
    case Rational(n, d) => assert Sub(fl, l, r) == SubFromRational(fl, n, d, r);
    case HashSet(_) => assert Sub(fl, l, r) == CombineCollections(l, r);
    case OrderedSet(_) => assert Sub(fl, l, r) == CombineCollections(l, r);
    case HashMap(_) => assert Sub(fl, l, r) == CombineCollections(l, r);
    case OrderedMap(_) => assert Sub(fl, l, r) == CombineCollections(l, r);
    case Vector(_) => assert Sub(fl, l, r) == CombineCollections(l, r);
    case _ =>
  }

  /** On collections `-` is `+`: both take the shared collection arms. */
  lemma SubIsAddOnCollections(fl: FloatOps, l: Value, r: Value)
    requires IsCollection(l)
    ensures Sub(fl, l, r) == Add(fl, l, r) == CombineCollections(l, r)
  {
    match l
    case HashSet(_) =>
    case OrderedSet(_) =>
    case HashMap(_) =>
    case OrderedMap(_) =>
    case Vector(_) =>
  }

  /**
   * What the collection arms build: vectors append the right after the left,
   * sets take the union, and maps merge with the right-hand value winning.
   */
  lemma CollectionsCombine(l: Value, r: Value)
    requires IsCollection(l) && SameCollectionKind(l, r)
    ensures CombineCollections(l, r).Ok?
    ensures var c := CombineCollections(l, r).value; SameCollectionKind(l, c)
    ensures l.Vector? ==> CombineCollections(l, r).value.items == l.items + r.items
    ensures (l.HashSet? || l.OrderedSet?) ==>
      CombineCollections(l, r).value.elems == l.elems + r.elems
    ensures (l.HashMap? || l.OrderedMap?) ==>
      var m := CombineCollections(l, r).value.entries;
      && m.Keys == l.entries.Keys + r.entries.Keys
      && forall k :: k in m ==> m[k] == if k in r.entries then r.entries[k] else l.entries[k]
  {
  }
}
