/**
 * The reader of src/parser.rs as it runs: a cursor over the characters of the
 * text (the `Enumerate<Chars>` iterator that every reader borrows mutably),
 * moved forward as characters are consumed. Each reader is proved to return
 * what the function of the same name in module `Grammar` describes and, when
 * it succeeds, to leave the cursor at the index that function stops at.
 */
module Parser {
  import opened Errors
  import opened Numerals
  import opened Values
  import opened Grammar

  class Cursor {
    /** The characters being read. */
    const text: string
    /** How `f64::from_str` turns a float literal into a double. */
    const floats: FloatOps
    /** The index of the character the next `chars.next()` yields. */
    var pos: nat

    ghost predicate Valid()
      reads this
    {
      pos <= |text|
    }

    /** `tokenize`: a cursor before the first character. */
    constructor (text: string, floats: FloatOps)
      ensures Valid() && this.text == text && this.floats == floats && pos == 0
    {
      this.text := text;
      this.floats := floats;
      pos := 0;
    }

    /** `r` is the value `spec` reads, and after a success the cursor is where `spec` stops. */
    predicate Yields(r: Result<Value>, spec: Result<Parsed>)
      reads this
    {
      match spec
      case Ok(p) => r == Ok(p.value) && pos == p.next
      case Err(e) => r == Err(e)
    }

    /** The same for the element loop of the collection readers. */
    predicate Gathers(r: Result<seq<Value>>, spec: Result<(seq<Value>, nat)>)
      reads this
    {
      match spec
      case Ok((x, next)) => r == Ok(x) && pos == next
      case Err(e) => r == Err(e)
    }

    /** The same for the entry loop of the map reader. */
    predicate Collects(r: Result<map<Value, Value>>, spec: Result<(map<Value, Value>, nat)>)
      reads this
    {
      match spec
      case Ok((m, next)) => r == Ok(m) && pos == next
      case Err(e) => r == Err(e)
    }

    /** `chars.next()` when a character is left. */
    method Next() returns (c: char)
      requires Valid() && pos < |text|
      modifies this
      ensures Valid() && c == text[old(pos)] && pos == old(pos) + 1
    {
      c := text[pos];
      pos := pos + 1;
    }

    /** `chars.clone().take_while(keep).count()`: counts ahead without moving the cursor. */
    method CountWhile(keep: char -> bool) returns (n: nat)
      requires Valid()
      ensures n == Span(text, pos, keep)
    {
      n := 0;
      while pos + n < |text| && keep(text[pos + n])
        invariant pos + n <= |text|
        invariant Span(text, pos, keep) == n + Span(text, pos + n, keep)
        decreases |text| - pos - n
      {
        n := n + 1;
      }
    }

    /** `chars.clone().take(k).collect::<String>()`: looks ahead without moving the cursor. */
    method Peek(k: nat) returns (s: string)
      requires Valid()
      ensures s == Ahead(text, pos, k)
    {
      s := "";
      var j := pos;
      while j < |text| && j < pos + k
        invariant pos <= j <= |text| && j <= pos + k
        invariant s == text[pos..j]
        decreases |text| - j
      {
        s := s + [text[j]];
        j := j + 1;
      }
    }

    /** `chars.take(n).collect::<String>()`, when `n` characters are left. */
    method Take(n: nat) returns (s: string)
      requires Valid() && pos + n <= |text|
      modifies this
      ensures Valid() && pos == old(pos) + n && s == text[old(pos)..pos]
    {
      s := "";
      var k := 0;
      while k < n
        invariant k <= n && pos == old(pos) + k && s == text[old(pos)..pos]
        decreases n - k
      {
        var c := Next();
        s := s + [c];
        k := k + 1;
      }
    }

    /** `read_key_or_nsmap` and `read_key`, after the `:`. */
    method ReadKeyOrNsmap() returns (r: Result<Value>)
      requires Valid()
      modifies this
      ensures Valid() && Yields(r, ReadKey(text, old(pos)))
    {
      var n := CountWhile(InKeyword);
      if '{' in text[pos..pos + n] {
        return Err(Reason("Namespace maps not yet supported"));
      }
      var run := Take(n);
      r := Ok(Keyword(":" + run));
    }

    /** `read_str`, after the opening `"`: the `try_fold` over the remaining characters. */
    method ReadStr() returns (r: Result<Value>)
      requires Valid()
      modifies this
      ensures Valid() && Yields(r, Grammar.ReadStr(text, old(pos)))
    {
      var escaped, s := false, "";
      while pos < |text|
        invariant Valid() && old(pos) <= pos
        invariant StrFrom(text, pos, escaped, s) == Grammar.ReadStr(text, old(pos))
        decreases |text| - pos
      {
        var c := Next();
        if escaped {
          match Unescape(c) {
            case Some(d) =>
              s := s + [d];
              escaped := false;
            case None =>
              return Err(Reason("Invalid escape sequence \\" + [c]));
          }
        } else if c == '"' {
          return Ok(String(s));
        } else if c == '\\' {
          escaped := true;
        } else {
          s := s + [c];
        }
      }
      r := Err(Reason("Unterminated string"));
    }

    /** `read_symbol`: `a`, then at most 201 further symbol characters. */
    method ReadSymbol(a: char) returns (r: Result<Value>)
      requires Valid()
      modifies this
      ensures Valid() && Yields(r, Grammar.ReadSymbol(text, a, old(pos)))
    {
      var n := CountWhile(InSymbol);
      if n > 201 {
        n := 201;
      }
      var i :- NextIndex(text, pos);
      if IsWhitespace(a) {
        return Err(NotParsedAt("\"" + [a] + "\"", i));
      }
      var run := Take(n);
      r := Ok(Symbol([a] + run));
    }

    /** `read_number`: `n`, then the run of digits, `.` and `/`, classified. */
    method ReadNumber(n: char) returns (r: Result<Value>)
      requires Valid()
      modifies this
      ensures Valid() && Yields(r, Grammar.ReadNumber(floats, text, n, old(pos)))
    {
      var i :- NextIndex(text, pos);
      var len := CountWhile(InNumber);
      var run := Take(len);
      assert NumberRun(text, n, old(pos)) == [n] + run;
      var v :- NumberValue(floats, [n] + run, i);
      r := Ok(v);
    }

    /** `read_char`, after the backslash. */
    method ReadChar() returns (r: Result<Value>)
      requires Valid()
      modifies this
      ensures Valid() && Yields(r, Grammar.ReadChar(text, old(pos)))
    {
      var i :- NextIndex(text, pos);
      var c := Next();
      r := Ok(Char(c));
    }

    /** `read_bool_or_nil`: the lookahead guards, then the word or a symbol. */
    method ReadBoolOrNil(c: char) returns (r: Result<Value>)
      requires Valid()
      modifies this
      ensures Valid() && Yields(r, Grammar.ReadBoolOrNil(text, c, old(pos)))
    {
      var i :- NextIndex(text, pos);
      ghost var spec := Grammar.ReadBoolOrNil(text, c, pos);
      if c == 't' {
        var val := Peek(4);
        if IsWordThenDelimiter(val, "rue") {
          assert WordAhead(text, pos, "rue") && spec == Ok(Parsed(Bool(true), pos + 3));
          var word := Take(3);
          return Ok(Bool(true));
        }
        assert !WordAhead(text, pos, "rue");
      } else if c == 'f' {
        var val := Peek(5);
        if IsWordThenDelimiter(val, "alse") {
          assert WordAhead(text, pos, "alse") && spec == Ok(Parsed(Bool(false), pos + 4));
          var word := Take(4);
          return Ok(Bool(false));
        }
        assert !WordAhead(text, pos, "alse");
      } else if c == 'n' {
        var val := Peek(3);
        if IsWordThenDelimiter(val, "il") {
          assert WordAhead(text, pos, "il") && spec == Ok(Parsed(Nil, pos + 2));
          var word := Take(2);
          return Ok(Nil);
        }
        assert !WordAhead(text, pos, "il");
      }
      assert spec == Grammar.ReadSymbol(text, c, pos);
      r := ReadSymbol(c);
    }

    /** `parse`: the collection readers by their opening character, then `parse_edn`. */
    method Parse(lead: Option<char>) returns (r: Result<Value>)
      requires Valid()
      modifies this
      ensures Valid() && Yields(r, Grammar.Parse(floats, text, lead, old(pos)))
      decreases |text| - pos, 2
    {
      match lead {
        case Some('[') => r := ReadVec();
        case Some('(') => r := ReadList();
        case Some('@') => r := ReadSet();
        case Some('{') => r := ReadMap();
        case _ => r := ParseEdn(lead);
      }
    }

    /** `parse_edn`: the scalar readers by their leading character. */
    method ParseEdn(lead: Option<char>) returns (r: Result<Value>)
      requires Valid()
      modifies this
      ensures Valid() && Yields(r, Grammar.ParseEdn(floats, text, lead, old(pos)))
    {
      match lead {
        case None =>
          r := Err(Reason("Expression could not be parsed"));
        case Some(c) =>
          if c == '"' {
            r := ReadStr();
          } else if c == ':' {
            r := ReadKeyOrNsmap();
          } else if c == '-' {
            r := ReadNumber('-');
          } else if c == '\\' {
            r := ReadChar();
          } else if c == 't' || c == 'f' || c == 'n' {
            r := ReadBoolOrNil(c);
          } else if IsDigit(c) {
            r := ReadNumber(c);
          } else {
            r := ReadSymbol(c);
          }
      }
    }

    /**
     * The loop of `read_vec`, `read_list` and `read_set`: skips separators,
     * reads an element at any other character, and stops at `close`.
     */
    method ReadItems(close: char, i: nat) returns (r: Result<seq<Value>>)
      requires Valid()
      modifies this
      ensures Valid() && Gathers(r, Items(floats, text, close, i, old(pos), []))
      decreases |text| - pos, 0
    {
      var res: seq<Value> := [];
      while pos < |text|
        invariant Valid() && old(pos) <= pos
        invariant Items(floats, text, close, i, pos, res) == Items(floats, text, close, i, old(pos), [])
        decreases |text| - pos
      {
        ghost var at := pos;
        var c := Next();
        if c == close {
          return Ok(res);
        } else if !IsSeparator(c) {
          var v :- Parse(Some(c));
          assert Items(floats, text, close, i, at, res) == Items(floats, text, close, i, pos, res + [v]);
          res := res + [v];
        } else {
          assert Items(floats, text, close, i, at, res) == Items(floats, text, close, i, pos, res);
        }
      }
      r := Err(NotParsedAt("None", i));
    }

    /** `read_vec`, after the `[`. */
    method ReadVec() returns (r: Result<Value>)
      requires Valid()
      modifies this
      ensures Valid() && Yields(r, Grammar.ReadVec(floats, text, old(pos)))
      decreases |text| - pos, 1
    {
      var i :- NextIndex(text, pos);
      var xs :- ReadItems(']', i);
      r := Ok(Vector(xs));
    }

    /** `read_list`, after the `(`. */
    method ReadList() returns (r: Result<Value>)
      requires Valid()
      modifies this
      ensures Valid() && Yields(r, Grammar.ReadList(floats, text, old(pos)))
      decreases |text| - pos, 1
    {
      var i :- NextIndex(text, pos);
      var xs :- ReadItems(')', i);
      r := Ok(List(xs));
    }

    /** `read_set`, after the `@`. */
    method ReadSet() returns (r: Result<Value>)
      requires Valid()
      modifies this
      ensures Valid() && Yields(r, Grammar.ReadSet(floats, text, old(pos)))
      decreases |text| - pos, 1
    {
      var i :- NextIndex(text, pos);
      var xs :- ReadItems('}', i);
      r := Ok(HashSet(set k | 0 <= k < |xs| :: xs[k]));
    }

    /** `read_map`, after the `{`. */
    method ReadMap() returns (r: Result<Value>)
      requires Valid()
      modifies this
      ensures Valid() && Yields(r, Grammar.ReadMap(floats, text, old(pos)))
      decreases |text| - pos, 1
    {
      var i :- NextIndex(text, pos);
      var m :- ReadEntries(i);
      r := Ok(HashMap(m));
    }

    /**
     * The loop of `read_map`: forms alternate between a pending key and its
     * value, and each completed pair is inserted.
     */
    method ReadEntries(i: nat) returns (r: Result<map<Value, Value>>)
      requires Valid()
      modifies this
      ensures Valid() && Collects(r, Entries(floats, text, i, old(pos), None, map[]))
      decreases |text| - pos, 0
    {
      var res: map<Value, Value> := map[];
      var key: Option<Value> := None;
      while pos < |text|
        invariant Valid() && old(pos) <= pos
        invariant Entries(floats, text, i, pos, key, res) == Entries(floats, text, i, old(pos), None, map[])
        decreases |text| - pos
      {
        ghost var at := pos;
        var c := Next();
        if c == '}' {
          return Ok(res);
        } else if !IsSeparator(c) {
          var v :- Parse(Some(c));
          if key.Some? {
            assert Entries(floats, text, i, at, key, res) == Entries(floats, text, i, pos, None, res[key.value := v]);
            res := res[key.value := v];
            key := None;
          } else {
            assert Entries(floats, text, i, at, key, res) == Entries(floats, text, i, pos, Some(v), res);
            key := Some(v);
          }
        } else {
          assert Entries(floats, text, i, at, key, res) == Entries(floats, text, i, pos, key, res);
        }
      }
      r := Err(NotParsedAt("None", i));
    }

    /** `parse(tokens.next(), &mut tokens)`: one form from the start of the text. */
    method ParseForm() returns (r: Result<Value>)
      requires Valid() && pos == 0
      modifies this
      ensures Valid() && Yields(r, ParseText(floats, text))
    {
      if pos < |text| {
        var c := Next();
        r := Parse(Some(c));
      } else {
        r := Parse(None);
      }
    }
  }
}
