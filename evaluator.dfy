/**
 * `DefinitionTypes::print` (src/definitions.rs), list evaluation and dispatch
 * (src/funtions/mod.rs), and the builtins that print: `get`
 * (src/funtions/collections.rs), `str`, `println!` and `keyword`
 * (src/funtions/std.rs). Printing a list evaluates it, and evaluating a list
 * prints its result, so these functions are one recursive family.
 *
 * `fuel` bounds the nesting of evaluation: it is spent when the result of a
 * builtin is printed and when a builtin evaluates a list and goes on with the
 * result. Running out is `Aborted(OutOfFuel)`.
 */
module Evaluator {
  import opened Errors
  import opened Numerals
  import opened Values
  import opened Runtime
  import Math
  import Logic
  import Collections

  /** `usize::MAX + 1` on a 64-bit target: `to_usize` succeeds below it. */
  const USIZE_LIMIT: int := 0x1_0000_0000_0000_0000

  // ---------------------------------------------------------------------------
  // `print`
  // ---------------------------------------------------------------------------

  /** `print`: the reader-facing text of a value; printing a list evaluates it. */
  function Print(h: Host, v: Value, fuel: nat): Outcome<string>
    decreases fuel, v, 4
  {
    match v
    case Symbol(s) => Return(s)
    case Keyword(k) => Return(":" + k)
    case String(s) => Return("\"" + s + "\"")
    case Char(c) => Return("\\" + [c])
    case Bool(b) => Return(if b then "true" else "false")
    case Double(x) => Return(h.floats.show(x))
    case Int(i) => Return(IntToString(i))
    case Rational(n, d) => Return(IntToString(n) + "/" + IntToString(d))
    case Nil => Return("nil")
    case HashSet(s) =>
      var body :- PrintSetItems(h, v, h.hashOrder(s), 0, fuel);
      Return("#{" + body + "}")
    case OrderedSet(s) =>
      var body :- PrintSetItems(h, v, h.treeOrder(s), 0, fuel);
      Return("#{" + body + "}")
    case Vector(items) =>
      var body :- PrintSeqItems(h, items, fuel);
      Return("[" + body + "]")
    case HashMap(m) =>
      var body :- PrintMapItems(h, v, h.hashOrder(m.Keys), 0, fuel);
      Return("{" + body + "}")
    case OrderedMap(m) =>
      var body :- PrintMapItems(h, v, h.treeOrder(m.Keys), 0, fuel);
      Return("{" + body + "}")
    case List(items) => EvalList(h, items, fuel)
  }

  /** Each element's text followed by one space; the first failing element stops it. */
  function PrintSeqItems(h: Host, items: seq<Value>, fuel: nat): Outcome<string>
    decreases fuel, items, 0
  {
    if items == [] then Return("")
    else
      var first :- Print(h, items[0], fuel);
      var rest :- PrintSeqItems(h, items[1..], fuel);
      Return(first + " " + rest)
  }

  /** The elements of a set, visited in `order` (values outside the set are not visited). */
  function PrintSetItems(h: Host, parent: Value, order: seq<Value>, i: nat, fuel: nat): Outcome<string>
    requires parent.HashSet? || parent.OrderedSet?
    requires i <= |order|
    decreases fuel, parent, 0, |order| - i
  {
    if i == |order| then Return("")
    else if order[i] !in parent.elems then PrintSetItems(h, parent, order, i + 1, fuel)
    else
      var first :- Print(h, order[i], fuel);
      var rest :- PrintSetItems(h, parent, order, i + 1, fuel);
      Return(first + " " + rest)
  }

  /** The entries of a map, keys visited in `order`: key, space, value, space. */
  function PrintMapItems(h: Host, parent: Value, order: seq<Value>, i: nat, fuel: nat): Outcome<string>
    requires parent.HashMap? || parent.OrderedMap?
    requires i <= |order|
    decreases fuel, parent, 0, |order| - i
  {
    if i == |order| then Return("")
    else if order[i] !in parent.entries then PrintMapItems(h, parent, order, i + 1, fuel)
    else
      var key :- Print(h, order[i], fuel);
      var val :- Print(h, parent.entries[order[i]], fuel);
      var rest :- PrintMapItems(h, parent, order, i + 1, fuel);
      Return(key + " " + val + " " + rest)
  }

  /** `open`, the text of a successful `body`, then `close`; a failed `body` as it is. */
  function Enclose(open: string, body: Outcome<string>, close: string): (r: Outcome<string>)
    ensures r.IsFailure() <==> body.IsFailure()
  {
    if body.IsFailure() then body else Return(open + body.result.value + close)
  }

  /** Passing a failure on leaves it as it is. */
  lemma PassedOn(o: Outcome<string>)
    requires o.IsFailure()
    ensures o.PropagateFailure<string>() == o
  {
    if o.Done? {
      assert o.result == Err(o.result.error);
    }
  }

  /** Text pushed in two steps is the text pushed at once. */
  lemma EncloseTwice(a: string, b: string, body: Outcome<string>, close: string)
    ensures Enclose(a, Enclose(b, body, ""), close) == Enclose(a + b, body, close)
  {
    if !body.IsFailure() {
      var x := body.result.value;
      assert a + (b + x + "") + close == a + b + x + close;
    }
  }

  /**
   * `print` as the source runs it: a collection's text is built by pushing
   * each element's text and a space onto a string, and the first element
   * whose print fails returns that failure.
   */
  method PrintValue(h: Host, v: Value, fuel: nat) returns (r: Outcome<string>)
    ensures r == Print(h, v, fuel)
  {
    match v {
      case HashSet(s) => r := PushSet(h, v, h.hashOrder(s), fuel);
      case OrderedSet(s) => r := PushSet(h, v, h.treeOrder(s), fuel);
      case Vector(items) => r := PushItems(h, v, fuel);
      case HashMap(m) => r := PushMap(h, v, h.hashOrder(m.Keys), fuel);
      case OrderedMap(m) => r := PushMap(h, v, h.treeOrder(m.Keys), fuel);
      case _ => r := Print(h, v, fuel);
    }
  }

  /** The loop of the `Vector` arm of `print`. */
  method PushItems(h: Host, v: Value, fuel: nat) returns (r: Outcome<string>)
    requires v.Vector?
    ensures r == Print(h, v, fuel)
  {
    var items := v.items;
    var s := "[";
    var k := 0;
    while k < |items|
      invariant k <= |items|
      invariant Enclose(s, PrintSeqItems(h, items[k..], fuel), "]") == Print(h, v, fuel)
    {
      assert items[k..][0] == items[k] && items[k..][1..] == items[k + 1..];
      var el := Print(h, items[k], fuel);
      if el.IsFailure() {
        return el;
      }
      var rest := PrintSeqItems(h, items[k + 1..], fuel);
      if rest.IsFailure() {
        PassedOn(rest);
      } else {
        assert el.result.value + " " + rest.result.value + "" == el.result.value + " " + rest.result.value;
      }
      assert PrintSeqItems(h, items[k..], fuel) == Enclose(el.result.value + " ", rest, "");
      EncloseTwice(s, el.result.value + " ", rest, "]");
      s := s + (el.result.value + " ");
      k := k + 1;
    }
    assert s + "" + "]" == s + "]";
    r := Return(s + "]");
  }

  /** The loop of the set arms of `print`, over the members in `order`. */
  method PushSet(h: Host, v: Value, order: seq<Value>, fuel: nat) returns (r: Outcome<string>)
    requires v.HashSet? || v.OrderedSet?
    requires order == (if v.HashSet? then h.hashOrder(v.elems) else h.treeOrder(v.elems))
    ensures r == Print(h, v, fuel)
  {
    var s := "#{";
    var i := 0;
    while i < |order|
      invariant i <= |order|
      invariant Enclose(s, PrintSetItems(h, v, order, i, fuel), "}") == Print(h, v, fuel)
    {
      if order[i] in v.elems {
        var el := Print(h, order[i], fuel);
        if el.IsFailure() {
          return el;
        }
        var rest := PrintSetItems(h, v, order, i + 1, fuel);
        if rest.IsFailure() {
          PassedOn(rest);
        } else {
          assert el.result.value + " " + rest.result.value + "" == el.result.value + " " + rest.result.value;
        }
        assert PrintSetItems(h, v, order, i, fuel) == Enclose(el.result.value + " ", rest, "");
        EncloseTwice(s, el.result.value + " ", rest, "}");
        s := s + (el.result.value + " ");
      }
      i := i + 1;
    }
    assert s + "" + "}" == s + "}";
    r := Return(s + "}");
  }

  /** The loop of the map arms of `print`: key, space, value, space for each key in `order`. */
  method PushMap(h: Host, v: Value, order: seq<Value>, fuel: nat) returns (r: Outcome<string>)
    requires v.HashMap? || v.OrderedMap?
    requires order == (if v.HashMap? then h.hashOrder(v.entries.Keys) else h.treeOrder(v.entries.Keys))
    ensures r == Print(h, v, fuel)
  {
    var s := "{";
    var i := 0;
    while i < |order|
      invariant i <= |order|
      invariant Enclose(s, PrintMapItems(h, v, order, i, fuel), "}") == Print(h, v, fuel)
    {
      if order[i] in v.entries {
        var key := Print(h, order[i], fuel);
        if key.IsFailure() {
          return key;
        }
        var val := Print(h, v.entries[order[i]], fuel);
        if val.IsFailure() {
          return val;
        }
        var pushed := key.result.value + " " + val.result.value + " ";
        var rest := PrintMapItems(h, v, order, i + 1, fuel);
        if rest.IsFailure() {
          PassedOn(rest);
        } else {
          assert pushed + rest.result.value + "" == key.result.value + " " + val.result.value + " " + rest.result.value;
        }
        assert PrintMapItems(h, v, order, i, fuel) == Enclose(pushed, rest, "");
        EncloseTwice(s, pushed, PrintMapItems(h, v, order, i + 1, fuel), "}");
        s := s + pushed;
      }
      i := i + 1;
    }
    assert s + "" + "}" == s + "}";
    r := Return(s + "}");
  }

  // ---------------------------------------------------------------------------
  // `eval_list` and the builtins
  // ---------------------------------------------------------------------------

  /**
   * `eval_list`: `()` for the empty list; a symbol head names a builtin that
   * receives the remaining elements unevaluated, and whose result is printed;
   * any other head cannot be evaluated.
   */
  function EvalList(h: Host, items: seq<Value>, fuel: nat): Outcome<string>
    decreases fuel, items, 3
  {
    if items == [] then Return("()")
    else
      match items[0]
      case Symbol(sym) =>
        if sym !in STD then Fail(UnknownSymbol(sym))
        else
          var result :- Call(h, STD[sym], items[1..], fuel);
          if fuel == 0 then Aborted(OutOfFuel) else Print(h, result, fuel - 1)
      case _ =>
        var head := Print(h, items[0], fuel);
        if head.Aborted? then Aborted(head.why)
        else Fail(CantEval(Some(if head.result.Ok? then head.result.value else "")))
  }

  /** Calling the function `STD` binds to a name. */
  function Call(h: Host, b: Builtin, args: seq<Value>, fuel: nat): Outcome<Value>
    decreases fuel, args, 2
  {
    match b
    case Plus => Lift(Math.Plus(h.floats, args))
    case Minus => Math.Subtract(h.floats, args)
    case MeaningOfLife => Return(Int(42))
    case IsNegative => Math.SignTest(h, Math.Negative, args, false)
    case IsPositive => Math.SignTest(h, Math.Positive, args, false)
    case IsNumeric => Math.NumericTest(h, args, false)
    case Eq => Return(Logic.CompareAll(h, Logic.EqualTo, args))
    case Ge => Return(Logic.CompareAll(h, Logic.AtLeast, args))
    case Gt => Return(Logic.CompareAll(h, Logic.Above, args))
    case Le => Return(Logic.CompareAll(h, Logic.AtMost, args))
    case Lt => Return(Logic.CompareAll(h, Logic.Below, args))
    case IsTrue => Logic.TruthTest(h, Logic.Truthy, args, false, fuel)
    case IsFalse => Logic.TruthTest(h, Logic.Falsy, args, false, fuel)
    case Str =>
      var text :- StrOf(h, args, fuel);
      Return(String(text))
    case Println =>
      // The text goes to standard output, which is not modelled.
      var _ :- StrOf(h, args, fuel);
      Return(Nil)
    case ToKeyword =>
      var keywords :- Keywordize(h, args, fuel);
      Return(Vector(keywords))
    case ToVector => Return(Collections.MakeVector(args))
    case Get => GetFrom(h, args, fuel)
    case ToOrderedSet => Return(Collections.MakeSet(h, true, args))
    case ToHashSet => Return(Collections.MakeSet(h, false, args))
    case ToHashMap => Lift(Collections.MakeMap(h, false, args))
    case ToOrderedMap => Lift(Collections.MakeMap(h, true, args))
    case _ => Lift(h.foreign(b, args))
  }

  /** `get`: collection, index and optional default, none of them evaluated up front. */
  function GetFrom(h: Host, args: seq<Value>, fuel: nat): Outcome<Value>
    decreases fuel, args, 1
  {
    if |args| == 0 then Fail(Reason("Collection is required for get"))
    else if |args| == 1 then Fail(Reason("Access index is required for get"))
    else GetIn(h, args[0], args[1], if |args| > 2 then Some(args[2]) else None, fuel)
  }

  /** `get` once the collection, the index and the optional default are known. */
  function GetIn(h: Host, collection: Value, index: Value, notFound: Option<Value>, fuel: nat): Outcome<Value>
    decreases fuel, collection, 5
  {
    var missing := if notFound.Some? then Return(notFound.value) else Return(Nil);
    match collection
    case HashSet(s) => if index in s then Return(index) else missing
    case OrderedSet(s) => if index in s then Return(index) else missing
    case HashMap(m) => if index in m then Return(m[index]) else missing
    case OrderedMap(m) => if index in m then Return(m[index]) else missing
    case List(_) =>
      var l :- Lift(h.eval(collection));
      if fuel == 0 then Aborted(OutOfFuel)
      else GetFrom(h, [l, index] + (if notFound.Some? then [notFound.value] else []), fuel - 1)
    case Vector(v) =>
      (match index
       case Symbol(sym) => if sym in h.data then Return(h.data[sym]) else Fail(CantEval(Some(sym)))
       case Int(idx) =>
         if 0 <= idx < USIZE_LIMIT then
           if idx < |v| then Return(v[idx])
           else if notFound.Some? then Return(notFound.value)
           else Fail(Reason("Index out of bounds"))
         else
           var text :- Print(h, collection, fuel);
           Fail(CantEval(Some("Can't eval " + text + " at index " + IntToString(idx))))
       case _ => Fail(Reason("Index out of bounds")))
    case _ => Fail(Reason("First argument must be a collection for get"))
  }


  /** `str`: the printed arguments, concatenated; one whose print fails adds nothing. */
  function StrOf(h: Host, args: seq<Value>, fuel: nat): Outcome<string>
    decreases fuel, args, 1
  {
    if args == [] then Return("")
    else
      var first := Print(h, args[0], fuel);
      if first.Aborted? then Aborted(first.why)
      else
        var rest :- StrOf(h, args[1..], fuel);
        Return((if first.result.Ok? then first.result.value else "") + rest)
  }

  /** `to_keyword`: every argument converted in order; the first error stops it. */
  function Keywordize(h: Host, args: seq<Value>, fuel: nat): (r: Outcome<seq<Value>>)
    ensures r.Done? && r.result.Ok? ==>
      |r.result.value| == |args| && forall k | 0 <= k < |args| :: r.result.value[k].Keyword?
    ensures r.Done? && r.result.Ok? ==>
      forall k | 0 <= k < |args| :: KeywordOf(h, args[k], fuel) == Return(r.result.value[k])
    decreases fuel, args, 1
  {
    if args == [] then Return([])
    else
      var first :- KeywordOf(h, args[0], fuel);
      var rest :- Keywordize(h, args[1..], fuel);
      Return([first] + rest)
  }

  /** One argument of `to_keyword`. */
  function KeywordOf(h: Host, el: Value, fuel: nat): (r: Outcome<Value>)
    ensures r.Done? && r.result.Ok? ==> r.result.value.Keyword?
    decreases fuel, el, 5
  {
    match el
    case Symbol(s) => Return(Keyword(":" + s))
    case Keyword(_) => Return(el)
    case String(s) => Return(Keyword(":" + s))
    case Char(c) => Return(Keyword(":" + [c]))
    case Bool(b) => Return(Keyword(if b then ":true" else ":false"))
    case Double(x) => Return(Keyword(":" + h.floats.show(x)))
    case Int(i) => Return(Keyword(":" + IntToString(i)))
    case Rational(n, d) => Return(Keyword(":" + IntToString(n) + "/" + IntToString(d)))
    case Nil => Return(Keyword(":nil"))
    case List(_) =>
      var x :- Lift(h.eval(el));
      if fuel == 0 then Aborted(OutOfFuel)
      else
        var nested := Keywordize(h, [x], fuel - 1);
        if nested.Aborted? then Aborted(nested.why)
        else if nested.result.Ok? then
          (if |nested.result.value| == 1 then Return(nested.result.value[0])
           else Fail(Thrown("Can't keywordize a collection")))
        else
          var text := Print(h, el, fuel);
          if text.Aborted? then Aborted(text.why)
          else Fail(CantEval(if text.result.Ok? then Some(text.result.value) else None))
    case _ => Fail(Thrown("Can't keywordize a collection"))
  }

  // ---------------------------------------------------------------------------
  // Properties of printing
  // ---------------------------------------------------------------------------

  /** Each text followed by one space. */
  function Spaced(texts: seq<string>): string {
    if texts == [] then "" else texts[0] + " " + Spaced(texts[1..])
  }

  lemma {:induction false} SeqItemsSpaced(h: Host, items: seq<Value>, texts: seq<string>, fuel: nat)
    requires |texts| == |items|
    requires forall k | 0 <= k < |items| :: Print(h, items[k], fuel) == Return(texts[k])
    ensures PrintSeqItems(h, items, fuel) == Return(Spaced(texts))
    decreases items
  {
    if items != [] {
      SeqItemsSpaced(h, items[1..], texts[1..], fuel);
    }
  }

  /** A vector prints as `[`, each element's text followed by one space, then `]`. */
  lemma PrintedVector(h: Host, items: seq<Value>, texts: seq<string>, fuel: nat)
    requires |texts| == |items|
    requires forall k | 0 <= k < |items| :: Print(h, items[k], fuel) == Return(texts[k])
    ensures Print(h, Vector(items), fuel) == Return("[" + Spaced(texts) + "]")
  {
    SeqItemsSpaced(h, items, texts, fuel);
  }

  /** When every value of `order` from `i` on is a member, the set loop prints them all, in that order. */
  lemma {:induction false} SetItemsAreSeqItems(h: Host, parent: Value, order: seq<Value>, i: nat, fuel: nat)
    requires parent.HashSet? || parent.OrderedSet?
    requires i <= |order|
    requires forall j | i <= j < |order| :: order[j] in parent.elems
    ensures PrintSetItems(h, parent, order, i, fuel) == PrintSeqItems(h, order[i..], fuel)
    decreases |order| - i
  {
    if i < |order| {
      SetItemsAreSeqItems(h, parent, order, i + 1, fuel);
      assert order[i..][0] == order[i] && order[i..][1..] == order[i + 1..];
    }
  }

  /**
   * A set prints as `#{`, the text of each member followed by one space, then
   * `}`: when the host's order lists every member once, every member is
   * printed exactly once, in that order.
   */
  lemma PrintedSet(h: Host, v: Value, order: seq<Value>, texts: seq<string>, fuel: nat)
    requires v.HashSet? || v.OrderedSet?
    requires order == (if v.HashSet? then h.hashOrder(v.elems) else h.treeOrder(v.elems))
    requires Enumerates(order, v.elems)
    requires |texts| == |order|
    requires forall k | 0 <= k < |order| :: Print(h, order[k], fuel) == Return(texts[k])
    ensures |texts| == |v.elems|
    ensures Print(h, v, fuel) == Return("#{" + Spaced(texts) + "}")
  {
    EnumerationCount(order, v.elems);
    SetItemsAreSeqItems(h, v, order, 0, fuel);
    assert order[0..] == order;
    SeqItemsSpaced(h, order, texts, fuel);
  }

  /** Each key text, a space, its value text and a space. */
  function EntriesSpaced(keys: seq<string>, vals: seq<string>): string
    requires |keys| == |vals|
  {
    if keys == [] then "" else keys[0] + " " + vals[0] + " " + EntriesSpaced(keys[1..], vals[1..])
  }

  lemma {:induction false} MapItemsSpaced(h: Host, parent: Value, order: seq<Value>, i: nat, keys: seq<string>, vals: seq<string>, fuel: nat)
    requires parent.HashMap? || parent.OrderedMap?
    requires i <= |order| && |keys| == |order| && |vals| == |order|
    requires forall j | i <= j < |order| :: order[j] in parent.entries
    requires forall j | i <= j < |order| :: Print(h, order[j], fuel) == Return(keys[j])
    requires forall j | i <= j < |order| :: Print(h, parent.entries[order[j]], fuel) == Return(vals[j])
    ensures PrintMapItems(h, parent, order, i, fuel) == Return(EntriesSpaced(keys[i..], vals[i..]))
    decreases |order| - i
  {
    if i < |order| {
      MapItemsSpaced(h, parent, order, i + 1, keys, vals, fuel);
      assert keys[i..][1..] == keys[i + 1..] && vals[i..][1..] == vals[i + 1..];
    }
  }

  /**
   * A map prints as `{`, each entry as key text, space, value text, space,
   * then `}`: when the host's order lists every key once, every entry is
   * printed exactly once, in that order.
   */
  lemma PrintedMap(h: Host, v: Value, order: seq<Value>, keys: seq<string>, vals: seq<string>, fuel: nat)
    requires v.HashMap? || v.OrderedMap?
    requires order == (if v.HashMap? then h.hashOrder(v.entries.Keys) else h.treeOrder(v.entries.Keys))
    requires Enumerates(order, v.entries.Keys)
    requires |keys| == |order| && |vals| == |order|
    requires forall k | 0 <= k < |order| :: Print(h, order[k], fuel) == Return(keys[k])
    requires forall k | 0 <= k < |order| :: Print(h, v.entries[order[k]], fuel) == Return(vals[k])
    ensures |keys| == |v.entries|
    ensures Print(h, v, fuel) == Return("{" + EntriesSpaced(keys, vals) + "}")
  {
    EnumerationCount(order, v.entries.Keys);
    MapItemsSpaced(h, v, order, 0, keys, vals, fuel);
    assert keys[0..] == keys && vals[0..] == vals;
  }

  lemma {:induction false} SeqItemsStopAt(h: Host, items: seq<Value>, j: nat, fuel: nat)
    requires j < |items| && Print(h, items[j], fuel).IsFailure()
    requires forall k | 0 <= k < j :: !Print(h, items[k], fuel).IsFailure()
    ensures PrintSeqItems(h, items, fuel) == Print(h, items[j], fuel)
    decreases j
  {
    if j == 0 {
      PassedOn(Print(h, items[0], fuel));
    } else {
      SeqItemsStopAt(h, items[1..], j - 1, fuel);
      var rest := PrintSeqItems(h, items[1..], fuel);
      PassedOn(rest);
    }
  }

  /** The first element whose print fails decides the print of the whole vector. */
  lemma FirstFailingElement(h: Host, items: seq<Value>, j: nat, fuel: nat)
    requires j < |items| && Print(h, items[j], fuel).IsFailure()
    requires forall k | 0 <= k < j :: !Print(h, items[k], fuel).IsFailure()
    ensures Print(h, Vector(items), fuel) == Print(h, items[j], fuel)
  {
    SeqItemsStopAt(h, items, j, fuel);
    PassedOn(Print(h, items[j], fuel));
  }

  /** A keyword is stored with its `:`, and printing adds another. */
  lemma KeywordPrintsTwoColons(h: Host, k: string, fuel: nat)
    ensures Print(h, Keyword(":" + k), fuel) == Return("::" + k)
  {
    assert ":" + (":" + k) == "::" + k;
  }

  /** The text of an integer holds no `/`. */
  lemma NoSlashInInteger(i: int)
    ensures '/' !in IntToString(i)
  {
    var s := IntToString(i);
    if i < 0 {
      assert forall k | 1 <= k < |s| :: s[k] == NatToString(-i)[k - 1];
    }
  }

  /** Two texts joined at a `/` that neither left part holds split back into the same parts. */
  lemma {:induction false} SplitAtSlash(a: string, b: string, c: string, d: string)
    requires '/' !in a && '/' !in c
    requires a + "/" + b == c + "/" + d
    ensures a == c && b == d
  {
    var x := a + "/" + b;
    assert x[|a|] == '/' && forall k | 0 <= k < |a| :: x[k] == a[k];
    assert x[|c|] == '/' && forall k | 0 <= k < |c| :: x[k] == c[k];
    assert a == x[..|a|] && c == x[..|c|];
    assert b == x[|a| + 1..] && d == x[|c| + 1..];
  }

  /**
   * A rational prints as numerator, `/`, denominator, as stored: it is not
   * reduced, so two rationals print alike exactly when their numerators and
   * denominators are the same (`2/4` and `1/2` print differently).
   */
  lemma RationalNotReduced(h: Host, n: int, d: int, n': int, d': int, fuel: nat)
    ensures Print(h, Rational(n, d), fuel) == Return(IntToString(n) + "/" + IntToString(d))
    ensures Print(h, Rational(n, d), fuel) == Print(h, Rational(n', d'), fuel) <==> n == n' && d == d'
  {
    if Print(h, Rational(n, d), fuel) == Print(h, Rational(n', d'), fuel) {
      NoSlashInInteger(n);
      NoSlashInInteger(n');
      SplitAtSlash(IntToString(n), IntToString(d), IntToString(n'), IntToString(d'));
      IntTextRoundTrip(n);
      IntTextRoundTrip(n');
      IntTextRoundTrip(d);
      IntTextRoundTrip(d');
    }
  }

  /**
   * A string prints between quotes, with nothing escaped: the text between
   * the quotes is the string itself, quotes and backslashes included.
   */
  lemma StringNotEscaped(h: Host, s: string, fuel: nat)
    ensures Print(h, String(s), fuel).Done? && Print(h, String(s), fuel).result.Ok?
    ensures var text := Print(h, String(s), fuel).result.value;
      |text| == |s| + 2 && text[0] == '"' && text[|s| + 1] == '"' && text[1..|s| + 1] == s
  {
  }

  // ---------------------------------------------------------------------------
  // Properties of list evaluation
  // ---------------------------------------------------------------------------

  /** The empty list evaluates to the text `()`. */
  lemma EmptyListText(h: Host, fuel: nat)
    ensures Print(h, List([]), fuel) == Return("()")
  {
  }

  /** A head symbol that names no builtin is an unknown symbol. */
  lemma UnknownHead(h: Host, sym: string, args: seq<Value>, fuel: nat)
    requires sym !in STD
    ensures Print(h, List([Symbol(sym)] + args), fuel) == Fail(UnknownSymbol(sym))
  {
  }

  /**
   * Any other head cannot be evaluated; the error carries the head's text, or
   * an empty text when printing the head fails.
   */
  lemma NonSymbolHead(h: Host, head: Value, args: seq<Value>, fuel: nat)
    requires !head.Symbol? && Print(h, head, fuel).Done?
    ensures var p := Print(h, head, fuel).result;
      Print(h, List([head] + args), fuel) == Fail(CantEval(Some(if p.Ok? then p.value else "")))
  {
    assert ([head] + args)[0] == head;
  }

  /** The builtin receives the remaining elements as they are: `vector` gives them back in order. */
  lemma ArgumentsUnevaluated(h: Host, args: seq<Value>, fuel: nat)
    ensures Print(h, List([Symbol("vector")] + args), fuel + 1) == Print(h, Vector(args), fuel)
  {
    var items := [Symbol("vector")] + args;
    LibraryRegistered(ToVector);
    assert items[0] == Symbol("vector") && items[1..] == args;
    assert Call(h, ToVector, args, fuel + 1) == Return(Vector(args));
    assert EvalList(h, items, fuel + 1) == Print(h, Vector(args), fuel);
  }

  /** `meaning-of-life?` prints `42` whatever it is given. */
  lemma MeaningOfLifeIgnoresArguments(h: Host, args: seq<Value>, fuel: nat)
    ensures Print(h, List([Symbol("meaning-of-life?")] + args), fuel + 1) == Return("42")
  {
    var items := [Symbol("meaning-of-life?")] + args;
    NumericTestsRegistered(MeaningOfLife);
    assert items[0] == Symbol("meaning-of-life?") && items[1..] == args;
    assert Call(h, MeaningOfLife, args, fuel + 1) == Return(Int(42));
    FortyTwoText();
    assert Print(h, Int(42), fuel) == Return("42");
    assert EvalList(h, items, fuel + 1) == Print(h, Int(42), fuel);
  }

  /** An error from the builtin comes back unchanged and nothing is printed. */
  lemma BuiltinErrorUnchanged(h: Host, sym: string, args: seq<Value>, e: Error, fuel: nat)
    requires sym in STD && Call(h, STD[sym], args, fuel) == Fail(e)
    ensures Print(h, List([Symbol(sym)] + args), fuel) == Fail(e)
  {
    assert ([Symbol(sym)] + args)[1..] == args;
  }

  // ---------------------------------------------------------------------------
  // Properties of `get`
  // ---------------------------------------------------------------------------

  /** A missing collection or index is reported before anything is looked at. */
  lemma GetNeedsTwoArguments(h: Host, c: Value, fuel: nat)
    ensures GetFrom(h, [], fuel) == Fail(Reason("Collection is required for get"))
    ensures GetFrom(h, [c], fuel) == Fail(Reason("Access index is required for get"))
  {
  }

  /** The first argument of `get` is the collection, the second the index. */
  lemma GetArguments(h: Host, c: Value, x: Value, fuel: nat)
    ensures GetFrom(h, [c, x], fuel) == GetIn(h, c, x, None, fuel)
  {
    var args := [c, x];
    assert |args| == 2 && args[0] == c && args[1] == x;
  }

  /** A third argument of `get` is the default. */
  lemma GetArgumentsWithDefault(h: Host, c: Value, x: Value, d: Value, fuel: nat)
    ensures GetFrom(h, [c, x, d], fuel) == GetIn(h, c, x, Some(d), fuel)
  {
    var args := [c, x, d];
    assert |args| == 3 && args[0] == c && args[1] == x && args[2] == d;
  }

  /** On a set, `get` gives the index itself when it is a member, else `nil`. */
  lemma GetFromSet(h: Host, s: set<Value>, ordered: bool, x: Value, fuel: nat)
    ensures var c := if ordered then OrderedSet(s) else HashSet(s);
      GetFrom(h, [c, x], fuel) == Return(if x in s then x else Nil)
  {
    if ordered {
      GetArguments(h, OrderedSet(s), x, fuel);
    } else {
      GetArguments(h, HashSet(s), x, fuel);
    }
  }

  /** On a set, `get` gives the index itself when it is a member, else the default. */
  lemma GetFromSetOrDefault(h: Host, s: set<Value>, ordered: bool, x: Value, d: Value, fuel: nat)
    ensures var c := if ordered then OrderedSet(s) else HashSet(s);
      GetFrom(h, [c, x, d], fuel) == Return(if x in s then x else d)
  {
    if ordered {
      GetArgumentsWithDefault(h, OrderedSet(s), x, d, fuel);
    } else {
      GetArgumentsWithDefault(h, HashSet(s), x, d, fuel);
    }
  }

  /** On a map, `get` gives the value at the key, else `nil`. */
  lemma GetFromMap(h: Host, m: map<Value, Value>, ordered: bool, x: Value, fuel: nat)
    ensures var c := if ordered then OrderedMap(m) else HashMap(m);
      GetFrom(h, [c, x], fuel) == Return(if x in m then m[x] else Nil)
  {
    if ordered {
      GetArguments(h, OrderedMap(m), x, fuel);
    } else {
      GetArguments(h, HashMap(m), x, fuel);
    }
  }

  /** On a map, `get` gives the value at the key, else the default. */
  lemma GetFromMapOrDefault(h: Host, m: map<Value, Value>, ordered: bool, x: Value, d: Value, fuel: nat)
    ensures var c := if ordered then OrderedMap(m) else HashMap(m);
      GetFrom(h, [c, x, d], fuel) == Return(if x in m then m[x] else d)
  {
    if ordered {
      GetArgumentsWithDefault(h, OrderedMap(m), x, d, fuel);
    } else {
      GetArgumentsWithDefault(h, HashMap(m), x, d, fuel);
    }
  }

  /**
   * On a vector with an integer index: the element when in range; past the end
   * the default, or an error without one; a negative index fails even with a
   * default.
   */
  lemma GetFromVector(h: Host, v: seq<Value>, idx: int, d: Value, fuel: nat)
    ensures 0 <= idx < |v| && idx < USIZE_LIMIT ==> GetFrom(h, [Vector(v), Int(idx)], fuel) == Return(v[idx])
    ensures 0 <= idx < |v| && idx < USIZE_LIMIT ==> GetFrom(h, [Vector(v), Int(idx), d], fuel) == Return(v[idx])
    ensures |v| <= idx < USIZE_LIMIT ==> GetFrom(h, [Vector(v), Int(idx), d], fuel) == Return(d)
    ensures |v| <= idx < USIZE_LIMIT ==> GetFrom(h, [Vector(v), Int(idx)], fuel) == Fail(Reason("Index out of bounds"))
    ensures idx < 0 ==> GetFrom(h, [Vector(v), Int(idx), d], fuel).IsFailure()
  {
    var two := [Vector(v), Int(idx)];
    assert |two| == 2 && two[0] == Vector(v) && two[1] == Int(idx);
  }

  /** A symbol index on a vector reads the data store; any other non-integer index is out of bounds, default or not. */
  lemma GetFromVectorByOtherIndex(h: Host, v: seq<Value>, x: Value, d: Value, fuel: nat)
    ensures x.Symbol? ==> GetFrom(h, [Vector(v), x, d], fuel) == (if x.name in h.data then Return(h.data[x.name]) else Fail(CantEval(Some(x.name))))
    ensures !x.Symbol? && !x.Int? ==> GetFrom(h, [Vector(v), x, d], fuel) == Fail(Reason("Index out of bounds"))
  {
  }

  /** A first argument that is not a collection, a string included, is refused. */
  lemma GetNeedsACollection(h: Host, c: Value, x: Value, fuel: nat)
    requires c.Symbol? || c.Keyword? || c.String? || c.Char? || c.Bool? || c.Double? || c.Int? || c.Rational? || c.Nil?
    ensures GetFrom(h, [c, x], fuel) == Fail(Reason("First argument must be a collection for get"))
  {
  }

  // ---------------------------------------------------------------------------
  // Properties of `str` and `keyword`
  // ---------------------------------------------------------------------------

  /** `str` of two argument lists is the concatenation of their texts. */
  lemma {:induction false} StrOfAppend(h: Host, a: seq<Value>, b: seq<Value>, fuel: nat)
    requires !StrOf(h, a, fuel).IsFailure() && !StrOf(h, b, fuel).IsFailure()
    ensures StrOf(h, a + b, fuel) == Return(StrOf(h, a, fuel).result.value + StrOf(h, b, fuel).result.value)
    decreases a
  {
    if a == [] {
      assert a + b == b;
      assert "" + StrOf(h, b, fuel).result.value == StrOf(h, b, fuel).result.value;
    } else {
      assert (a + b)[0] == a[0] && (a + b)[1..] == a[1..] + b;
      StrOfAppend(h, a[1..], b, fuel);
      var first := Print(h, a[0], fuel);
      var head := if first.result.Ok? then first.result.value else "";
      var x, y := StrOf(h, a[1..], fuel).result.value, StrOf(h, b, fuel).result.value;
      assert !first.Aborted? && StrOf(h, a, fuel) == Return(head + x);
      assert StrOf(h, a + b, fuel) == Return(head + (x + y));
      assert head + (x + y) == (head + x) + y;
    }
  }

  /** An argument whose print fails adds nothing to `str`. */
  lemma FailedPrintAddsNothing(h: Host, x: Value, rest: seq<Value>, e: Error, fuel: nat)
    requires Print(h, x, fuel) == Fail(e)
    ensures StrOf(h, [x] + rest, fuel) == StrOf(h, rest, fuel)
  {
    assert ([x] + rest)[0] == x && ([x] + rest)[1..] == rest;
    var r := StrOf(h, rest, fuel);
    if r.IsFailure() {
      PassedOn(r);
    } else {
      assert "" + r.result.value == r.result.value;
    }
  }

  /** Keywords are kept as they are, so keywordizing twice changes nothing more. */
  lemma {:induction false} KeywordsKept(h: Host, ks: seq<Value>, fuel: nat)
    requires forall k | 0 <= k < |ks| :: ks[k].Keyword?
    ensures Keywordize(h, ks, fuel) == Return(ks)
    decreases ks
  {
    if ks != [] {
      assert KeywordOf(h, ks[0], fuel) == Return(ks[0]);
      KeywordsKept(h, ks[1..], fuel);
      assert [ks[0]] + ks[1..] == ks;
    }
  }

  lemma KeywordizeIdempotent(h: Host, args: seq<Value>, fuel: nat)
    requires !Keywordize(h, args, fuel).IsFailure()
    ensures Keywordize(h, Keywordize(h, args, fuel).result.value, fuel) == Keywordize(h, args, fuel)
  {
    KeywordsKept(h, Keywordize(h, args, fuel).result.value, fuel);
  }

  /** `keyword` puts a colon before the text of a symbol or a string. */
  lemma KeywordOfText(h: Host, s: string, fuel: nat)
    ensures KeywordOf(h, Symbol(s), fuel) == Return(Keyword(":" + s))
    ensures KeywordOf(h, String(s), fuel) == Return(Keyword(":" + s))
  {
  }

  /** `keyword` puts a colon before the printed text of an integer or a ratio. */
  lemma KeywordOfNumber(h: Host, i: int, n: int, d: int, fuel: nat)
    ensures KeywordOf(h, Int(i), fuel) == Return(Keyword(":" + IntToString(i)))
    ensures KeywordOf(h, Rational(n, d), fuel) == Return(Keyword(":" + IntToString(n) + "/" + IntToString(d)))
  {
  }

  /** `keyword` turns `nil` into `:nil` and refuses a collection. */
  lemma KeywordOfNilOrCollection(h: Host, c: Value, fuel: nat)
    requires c.HashSet? || c.OrderedSet? || c.HashMap? || c.OrderedMap? || c.Vector?
    ensures KeywordOf(h, Nil, fuel) == Return(Keyword(":nil"))
    ensures KeywordOf(h, c, fuel) == Fail(Thrown("Can't keywordize a collection"))
  {
  }

  /**
   * `to_keyword` converts its arguments one by one: it succeeds with `ks`
   * exactly when each argument converts to the keyword at the same place.
   */
  lemma {:induction false} KeywordizeElementwise(h: Host, args: seq<Value>, ks: seq<Value>, fuel: nat)
    ensures Keywordize(h, args, fuel) == Return(ks) <==>
      |ks| == |args| && forall k | 0 <= k < |args| :: KeywordOf(h, args[k], fuel) == Return(ks[k])
    decreases args
  {
    if args != [] {
      if ks != [] {
        KeywordizeElementwise(h, args[1..], ks[1..], fuel);
        assert [ks[0]] + ks[1..] == ks;
        if |ks| == |args| && forall k | 0 <= k < |args| :: KeywordOf(h, args[k], fuel) == Return(ks[k]) {
          assert forall k | 0 <= k < |args| - 1 :: args[1..][k] == args[k + 1] && ks[1..][k] == ks[k + 1];
        }
      }
    }
  }

  /** `keyword` writes a character or a boolean after a colon, as `format!` shows it. */
  lemma KeywordOfCharOrBool(h: Host, c: char, b: bool, fuel: nat)
    ensures KeywordOf(h, Char(c), fuel) == Return(Keyword([':', c]))
    ensures KeywordOf(h, Bool(b), fuel) == Return(Keyword(if b then ":true" else ":false"))
  {
    assert ":" + [c] == [':', c];
  }

  /** A list `keyword` cannot evaluate fails with the evaluation's error. */
  lemma KeywordOfUnevaluable(h: Host, items: seq<Value>, e: Error, fuel: nat)
    requires h.eval(List(items)) == Err(e)
    ensures KeywordOf(h, List(items), fuel) == Fail(e)
  {
  }

  /**
   * `keyword` on a list evaluates it and converts the result: a result that
   * converts gives that keyword, and one that fails to convert is reported
   * as `CantEval` with the printed text of the list (when that prints).
   */
  lemma KeywordOfList(h: Host, items: seq<Value>, x: Value, fuel: nat)
    requires h.eval(List(items)) == Ok(x)
    ensures fuel == 0 ==> KeywordOf(h, List(items), fuel) == Aborted(OutOfFuel)
    ensures fuel > 0 && !(KeywordOf(h, x, fuel - 1).Done? && KeywordOf(h, x, fuel - 1).result.Err?) ==>
      KeywordOf(h, List(items), fuel) == KeywordOf(h, x, fuel - 1)
    ensures fuel > 0 && KeywordOf(h, x, fuel - 1).Done? && KeywordOf(h, x, fuel - 1).result.Err? ==>
      var text := Print(h, List(items), fuel);
      KeywordOf(h, List(items), fuel) ==
        if text.Aborted? then Aborted(text.why)
        else Fail(CantEval(if text.result.Ok? then Some(text.result.value) else None))
  {
    if fuel > 0 {
      var one := KeywordOf(h, x, fuel - 1);
      if one.Done? && one.result.Ok? {
        KeywordizeElementwise(h, [x], [one.result.value], fuel - 1);
      } else if one.Aborted? {
        assert Keywordize(h, [x], fuel - 1) == Aborted(one.why);
      } else {
        assert Keywordize(h, [x], fuel - 1) == Fail(one.result.error);
      }
    }
  }

  lemma {:induction false} KeywordizeStopsAt(h: Host, args: seq<Value>, j: nat, fuel: nat)
    requires j < |args| && KeywordOf(h, args[j], fuel).IsFailure()
    requires forall k | 0 <= k < j :: !KeywordOf(h, args[k], fuel).IsFailure()
    ensures Keywordize(h, args, fuel).IsFailure()
    ensures KeywordOf(h, args[j], fuel).Aborted? <==> Keywordize(h, args, fuel).Aborted?
    ensures KeywordOf(h, args[j], fuel).Done? ==> Keywordize(h, args, fuel).result.error == KeywordOf(h, args[j], fuel).result.error
    decreases j
  {
    if j > 0 {
      KeywordizeStopsAt(h, args[1..], j - 1, fuel);
    }
  }

  /** The first argument `keyword` cannot convert aborts the whole call with its error. */
  lemma FirstKeywordErrorWins(h: Host, args: seq<Value>, j: nat, fuel: nat)
    requires j < |args| && KeywordOf(h, args[j], fuel).IsFailure()
    requires forall k | 0 <= k < j :: !KeywordOf(h, args[k], fuel).IsFailure()
    ensures Call(h, ToKeyword, args, fuel).IsFailure()
    ensures KeywordOf(h, args[j], fuel).Done? ==> Call(h, ToKeyword, args, fuel).Done? && Call(h, ToKeyword, args, fuel).result == KeywordOf(h, args[j], fuel).result
  {
    KeywordizeStopsAt(h, args, j, fuel);
  }
}
