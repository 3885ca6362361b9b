/**
 * The fixed builtin table of src/lib.rs and the collaborators the shown code
 * calls but does not define.
 */
module Runtime {
  import opened Errors
  import opened Values

  /** The functions registered in `STD`, one constructor per entry. */
  datatype Builtin =
    | Plus | Minus | Times | Divide
    | MeaningOfLife
    | IsNegative | IsPositive | IsNumeric
    | Eq | Ge | Gt | Le | Lt
    | IsTrue | IsFalse | IsNil
    | Throw
    | Str | Println | ToKeyword
    | ToVector | Get | ToOrderedSet | ToHashSet | ToHashMap | ToOrderedMap
    | Assoc | Dissoc | Contains

  /** `STD`: the immutable name table, built once. */
  const STD: map<string, Builtin> := map[
    "+" := Plus,
    "-" := Minus,
    "*" := Times,
    "/" := Divide,
    "meaning-of-life?" := MeaningOfLife,
    "neg?" := IsNegative,
    "pos?" := IsPositive,
    "num?" := IsNumeric,
    "=" := Eq,
    ">=" := Ge,
    ">" := Gt,
    "<=" := Le,
    "<" := Lt,
    "true?" := IsTrue,
    "false?" := IsFalse,
    "nil?" := IsNil,
    "throw" := Throw,
    "str" := Str,
    "println!" := Println,
    "keyword" := ToKeyword,
    "vector" := ToVector,
    "get" := Get,
    "sorted-set" := ToOrderedSet,
    "hash-set" := ToHashSet,
    "hash-map" := ToHashMap,
    "sorted-map" := ToOrderedMap,
    "assoc" := Assoc,
    "dissoc" := Dissoc,
    "contains?" := Contains]

  /** Builtins whose bodies are not part of this model; `Host.foreign` stands for them. */
  predicate IsForeign(b: Builtin) {
    b in {Times, Divide, IsNil, Throw, Assoc, Dissoc, Contains}
  }

  /** Which classifier re-parses the printed text of a list argument. */
  datatype NumericTest = PositiveTest | NegativeTest | NumericTest

  /**
   * Everything the evaluator consults but the shown code does not define:
   *   data       the global `DATA` store, read-only here
   *   eval       `DefinitionTypes::eval`
   *   floats     floating-point arithmetic and text
   *   debug      the derived `Debug` text (and the `HS=`/`HM=` display forms)
   *   hashOrder  the iteration order of a `HashSet`/`HashMap`
   *   treeOrder  the iteration order of a `BTreeSet`/`BTreeMap`
   *   listTest   `pos?`/`neg?`/`num?` on a list: evaluate it, re-parse the text
   *   foreign    `*`, `/`, `nil?`, `throw`, `assoc`, `dissoc`, `contains?`
   */
  datatype Host = Host(
    data: map<string, Value>,
    eval: Value -> Result<Value>,
    floats: FloatOps,
    debug: Value -> string,
    hashOrder: set<Value> -> seq<Value>,
    treeOrder: set<Value> -> seq<Value>,
    listTest: (NumericTest, seq<Value>) -> bool,
    foreign: (Builtin, seq<Value>) -> Result<Value>)

  /**
   * `order` lists every member of `s` once and nothing else: what iterating a
   * `HashSet`, a `BTreeSet` or the keys of a map visits.
   */
  predicate Enumerates(order: seq<Value>, s: set<Value>) {
    && (forall i, j | 0 <= i < j < |order| :: order[i] != order[j])
    && (forall i | 0 <= i < |order| :: order[i] in s)
    && (forall x | x in s :: x in order)
  }

  /** An enumeration of a set is as long as the set is large. */
  lemma {:induction false} EnumerationCount(order: seq<Value>, s: set<Value>)
    requires Enumerates(order, s)
    ensures |order| == |s|
    decreases order
  {
    if order == [] {
      assert s == {};
    } else {
      var rest := s - {order[0]};
      forall x | x in rest
        ensures x in order[1..]
      {
        var k :| 0 <= k < |order| && order[k] == x;
        assert order[1..][k - 1] == x;
      }
      assert Enumerates(order[1..], rest);
      EnumerationCount(order[1..], rest);
    }
  }

  /** The name under which `STD` registers each builtin. */
  function NameOf(b: Builtin): string {
    match b
    case Plus => "+"
    case Minus => "-"
    case Times => "*"
    case Divide => "/"
    case MeaningOfLife => "meaning-of-life?"
    case IsNegative => "neg?"
    case IsPositive => "pos?"
    case IsNumeric => "num?"
    case Eq => "="
    case Ge => ">="
    case Gt => ">"
    case Le => "<="
    case Lt => "<"
    case IsTrue => "true?"
    case IsFalse => "false?"
    case IsNil => "nil?"
    case Throw => "throw"
    case Str => "str"
    case Println => "println!"
    case ToKeyword => "keyword"
    case ToVector => "vector"
    case Get => "get"
    case ToOrderedSet => "sorted-set"
    case ToHashSet => "hash-set"
    case ToHashMap => "hash-map"
    case ToOrderedMap => "sorted-map"
    case Assoc => "assoc"
    case Dissoc => "dissoc"
    case Contains => "contains?"
  }

  /** Every builtin is registered, under its own name. */
  lemma EveryBuiltinRegistered(b: Builtin)
    ensures NameOf(b) in STD && STD[NameOf(b)] == b
  {
    match b
    case Plus | Minus | Times | Divide => ArithmeticRegistered(b);
    case MeaningOfLife | IsNegative | IsPositive | IsNumeric => NumericTestsRegistered(b);
    case Eq | Ge | Gt | Le | Lt | IsTrue | IsFalse | IsNil | Throw => ComparisonsRegistered(b);
    case Str | Println | ToKeyword | ToVector | Get | ToOrderedSet | ToHashSet | ToHashMap | ToOrderedMap | Assoc | Dissoc | Contains => LibraryRegistered(b);
  }

  /** The same for the arithmetic operators. */
  lemma ArithmeticRegistered(b: Builtin)
    requires b.Plus? || b.Minus? || b.Times? || b.Divide?
    ensures NameOf(b) in STD && STD[NameOf(b)] == b
  {
  }

  /** The same for `meaning-of-life?` and the numeric tests. */
  lemma NumericTestsRegistered(b: Builtin)
    requires b.MeaningOfLife? || b.IsNegative? || b.IsPositive? || b.IsNumeric?
    ensures NameOf(b) in STD && STD[NameOf(b)] == b
  {
  }

  /** The same for the comparisons, truth tests and `throw`. */
  lemma ComparisonsRegistered(b: Builtin)
    requires b.Eq? || b.Ge? || b.Gt? || b.Le? || b.Lt? || b.IsTrue? || b.IsFalse? || b.IsNil? || b.Throw?
    ensures NameOf(b) in STD && STD[NameOf(b)] == b
  {
  }

  /** The same for the string, keyword and collection functions. */
  lemma LibraryRegistered(b: Builtin)
    requires b.Str? || b.Println? || b.ToKeyword? || b.ToVector? || b.Get? || b.ToOrderedSet? || b.ToHashSet? || b.ToHashMap? || b.ToOrderedMap? || b.Assoc? || b.Dissoc? || b.Contains?
    ensures NameOf(b) in STD && STD[NameOf(b)] == b
  {
  }

  /** The test suite's `meaning-of-life` (without `?`) is not a registered name. */
  lemma MeaningOfLifeNeedsQuestionMark()
    ensures "meaning-of-life?" in STD && "meaning-of-life" !in STD
  {
  }
}
