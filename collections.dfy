/**
 * The collection constructors of src/funtions/collections.rs: `vector`,
 * `hash-set`, `sorted-set`, `hash-map` and `sorted-map`. (`get` prints values,
 * so it lives with the printer in module Evaluator.)
 */
module Collections {
  import opened Errors
  import opened Values
  import Runtime

  /** `to_vector`: the arguments, unevaluated and in order. */
  function MakeVector(args: seq<Value>): Value {
    Vector(args)
  }

  /** `filter_map(|e| e.eval().ok())`: the values of the arguments that evaluate. */
  function EvaluatedMembers(h: Runtime.Host, args: seq<Value>): set<Value> {
    set e | e in args && h.eval(e).Ok? :: h.eval(e).value
  }

  /** `to_hashset` and `to_orderedset`. */
  function MakeSet(h: Runtime.Host, ordered: bool, args: seq<Value>): Value {
    var members := EvaluatedMembers(h, args);
    if ordered then OrderedSet(members) else HashSet(members)
  }

  /**
   * `chunks(2).map(|e| Ok((e[0].eval()?, e[1].eval()?))).collect()`: keys and
   * values evaluated pair by pair into `acc`, stopping at the first error.
   */
  function InsertEvaluatedPairs(h: Runtime.Host, args: seq<Value>, acc: map<Value, Value>): Result<map<Value, Value>>
    requires |args| % 2 == 0
    decreases |args|
  {
    if args == [] then Ok(acc)
    else
      var k :- h.eval(args[0]);
      var v :- h.eval(args[1]);
      InsertEvaluatedPairs(h, args[2..], acc[k := v])
  }

  /** `to_hashmap` and `to_orderedmap`. */
  function MakeMap(h: Runtime.Host, ordered: bool, args: seq<Value>): Result<Value> {
    if |args| % 2 != 0 then
      Err(Reason(if ordered then "Sorted map must be formed by pairs" else "Hash map must be formed by pairs"))
    else
      var m :- InsertEvaluatedPairs(h, args, map[]);
      Ok(if ordered then OrderedMap(m) else HashMap(m))
  }

  /** A set holds exactly the values of the arguments whose evaluation succeeds. */
  lemma SetMembership(h: Runtime.Host, ordered: bool, args: seq<Value>, v: Value)
    ensures v in MakeSet(h, ordered, args).elems <==> exists i | 0 <= i < |args| :: h.eval(args[i]) == Ok(v)
  {
    if v in EvaluatedMembers(h, args) {
      var e :| e in args && h.eval(e).Ok? && h.eval(e).value == v;
      var i :| 0 <= i < |args| && args[i] == e;
      assert h.eval(args[i]) == Ok(v);
    }
  }

  /**
   * Evaluating one more pair after the others: the earlier pairs' error wins,
   * then the new key's, then the new value's; otherwise the new pair overwrites.
   */
  lemma {:induction false} InsertOneMorePair(h: Runtime.Host, args: seq<Value>, a: Value, b: Value, acc: map<Value, Value>)
    requires |args| % 2 == 0
    ensures InsertEvaluatedPairs(h, args + [a, b], acc) ==
      (var m :- InsertEvaluatedPairs(h, args, acc);
       var k :- h.eval(a);
       var v :- h.eval(b);
       Ok(m[k := v]))
    decreases |args|
  {
    if args == [] {
      assert [] + [a, b] == [a, b];
      assert [a, b][2..] == [];
    } else {
      assert (args + [a, b])[..2] == args[..2];
      assert (args + [a, b])[2..] == args[2..] + [a, b];
      var k := h.eval(args[0]);
      var v := h.eval(args[1]);
      if k.Ok? && v.Ok? {
        InsertOneMorePair(h, args[2..], a, b, acc[k.value := v.value]);
      }
    }
  }

  /**
   * Building a map from pairs: with an odd count it fails; otherwise the last
   * pair's key maps to the last pair's value, so a later duplicate key
   * overwrites an earlier one.
   */
  lemma LastPairWins(h: Runtime.Host, ordered: bool, args: seq<Value>, a: Value, b: Value)
    requires |args| % 2 == 0
    requires MakeMap(h, ordered, args + [a, b]).Ok?
    ensures h.eval(a).Ok? && h.eval(b).Ok?
    ensures h.eval(a).value in MakeMap(h, ordered, args + [a, b]).value.entries
    ensures MakeMap(h, ordered, args + [a, b]).value.entries[h.eval(a).value] == h.eval(b).value
  {
    InsertOneMorePair(h, args, a, b, map[]);
  }

  /** An odd number of arguments cannot be paired. */
  lemma OddCountFails(h: Runtime.Host, args: seq<Value>)
    requires |args| % 2 == 1
    ensures MakeMap(h, false, args) == Err(Reason("Hash map must be formed by pairs"))
    ensures MakeMap(h, true, args) == Err(Reason("Sorted map must be formed by pairs"))
  {
  }

  /** The first failing evaluation is the map's error. */
  lemma {:induction false} FirstErrorWins(h: Runtime.Host, args: seq<Value>, acc: map<Value, Value>, j: nat)
    requires |args| % 2 == 0 && j < |args|
    requires h.eval(args[j]).Err? && forall i | 0 <= i < j :: h.eval(args[i]).Ok?
    ensures InsertEvaluatedPairs(h, args, acc) == Err(h.eval(args[j]).error)
    decreases |args|
  {
    if j >= 2 {
      assert forall i | 0 <= i < j - 2 :: args[2..][i] == args[i + 2];
      FirstErrorWins(h, args[2..], acc[h.eval(args[0]).value := h.eval(args[1]).value], j - 2);
    }
  }
}
