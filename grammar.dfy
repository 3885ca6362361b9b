/**
 * What the reader of src/parser.rs accepts, as functions of the text and of
 * the index of the next unread character. The reader is handed a character
 * that is already consumed (`lead`) and the cursor behind it (`pos`); on
 * success it yields the value and the index it stopped at. Class
 * `Parser.Cursor` performs the same reading step by step and is proved equal
 * to these functions.
 */
module Grammar {
  import opened Errors
  import opened Numerals
  import opened Values

  // ---------------------------------------------------------------------------
  // Character classes and runs
  // ---------------------------------------------------------------------------

  /** `char::is_whitespace`: the Unicode White_Space property. */
  predicate IsWhitespace(c: char) {
    || c == ' ' || ('\t' <= c <= '\r')
    || c == '\U{85}' || c == '\U{A0}' || c == '\U{1680}'
    || ('\U{2000}' <= c <= '\U{200A}')
    || c == '\U{2028}' || c == '\U{2029}' || c == '\U{202F}' || c == '\U{205F}' || c == '\U{3000}'
  }

  /** A character a symbol may continue with. */
  predicate InSymbol(c: char) {
    !IsWhitespace(c) && c != ')' && c != '}' && c != ']'
  }

  /** A character a keyword may continue with: a symbol character other than `,`. */
  predicate InKeyword(c: char) {
    InSymbol(c) && c != ','
  }

  /** A character a number may continue with. */
  predicate InNumber(c: char) {
    IsDigit(c) || c == '.' || c == '/'
  }

  /** `take_while(keep).count()` from `pos`: the length of the longest run of `keep` characters. */
  function Span(t: string, pos: nat, keep: char -> bool): (n: nat)
    requires pos <= |t|
    ensures pos + n <= |t|
    ensures forall k | pos <= k < pos + n :: keep(t[k])
    ensures pos + n == |t| || !keep(t[pos + n])
    decreases |t| - pos
  {
    if pos == |t| || !keep(t[pos]) then 0 else 1 + Span(t, pos + 1, keep)
  }

  function Min(a: nat, b: nat): nat {
    if a < b then a else b
  }

  /** `chars.clone().next().ok_or_else(..)?.0`: the index of the next character, if there is one. */
  function NextIndex(t: string, pos: nat): (r: Result<nat>)
    ensures r.Ok? <==> pos < |t|
    ensures r.Ok? ==> r.value == pos
    ensures r.Err? ==> r.error == Reason("Could not identify symbol index")
  {
    if pos < |t| then Ok(pos) else Err(Reason("Could not identify symbol index"))
  }

  /** The outcome of reading one form: the value and the index of the first unread character. */
  datatype Parsed = Parsed(value: Value, next: nat)

  /** `format!("{} could not be parsed at char count {}", what, i)`. */
  function NotParsedAt(what: string, i: nat): Error {
    Reason(what + " could not be parsed at char count " + NatToString(i))
  }

  // ---------------------------------------------------------------------------
  // Scalars
  // ---------------------------------------------------------------------------

  /** `read_key_or_nsmap` and `read_key`, after the `:`. */
  function ReadKey(t: string, pos: nat): Result<Parsed>
    requires pos <= |t|
  {
    var n := Span(t, pos, InKeyword);
    if '{' in t[pos..pos + n] then Err(Reason("Namespace maps not yet supported"))
    else Ok(Parsed(Keyword(":" + t[pos..pos + n]), pos + n))
  }

  /** The character an escape sequence `\c` stands for. */
  function Unescape(c: char): Option<char> {
    match c
    case 't' => Some('\t')
    case 'r' => Some('\r')
    case 'n' => Some('\n')
    case '\\' => Some('\\')
    case '"' => Some('"')
    case _ => None
  }

  /**
   * The `try_fold` of `read_str` from `pos`, with the state it threads: whether
   * the previous character was a backslash, and the text decoded so far.
   */
  function StrFrom(t: string, pos: nat, escaped: bool, acc: string): (r: Result<Parsed>)
    requires pos <= |t|
    ensures r.Ok? ==> pos < r.value.next <= |t| && t[r.value.next - 1] == '"'
    decreases |t| - pos
  {
    if pos == |t| then Err(Reason("Unterminated string"))
    else
      var c := t[pos];
      if escaped then
        match Unescape(c)
        case Some(d) => StrFrom(t, pos + 1, false, acc + [d])
        case None => Err(Reason("Invalid escape sequence \\" + [c]))
      else if c == '"' then Ok(Parsed(String(acc), pos + 1))
      else if c == '\\' then StrFrom(t, pos + 1, true, acc)
      else StrFrom(t, pos + 1, false, acc + [c])
  }

  /** `read_str`, after the opening `"`. */
  function ReadStr(t: string, pos: nat): Result<Parsed>
    requires pos <= |t|
  {
    StrFrom(t, pos, false, "")
  }

  /** `read_symbol`: `a` and at most 201 further symbol characters. */
  function ReadSymbol(t: string, a: char, pos: nat): Result<Parsed>
    requires pos <= |t|
  {
    var n := Min(Span(t, pos, InSymbol), 201);
    var i :- NextIndex(t, pos);
    if IsWhitespace(a) then Err(NotParsedAt("\"" + [a] + "\"", i))
    else Ok(Parsed(Symbol([a] + t[pos..pos + n]), pos + n))
  }

  /** `text.split(sep)`. */
  function Split(s: string, sep: char): (parts: seq<string>)
    ensures |parts| >= 1
    ensures sep in s ==> |parts| >= 2
    ensures forall k | 0 <= k < |parts| :: sep !in parts[k]
  {
    if s == [] then [[]]
    else
      var rest := Split(s[1..], sep);
      if s[0] == sep then [[]] + rest else [[s[0]] + rest[0]] + rest[1..]
  }

  /** The parts, with `sep` between each two. */
  function Join(parts: seq<string>, sep: char): string
    requires |parts| >= 1
  {
    if |parts| == 1 then parts[0] else parts[0] + [sep] + Join(parts[1..], sep)
  }

  /**
   * Whether `f64::from_str` accepts `s`, for the texts a number run can form:
   * an optional sign, then digits with at most one `.`, at least one of them a
   * digit.
   */
  predicate IsFloatText(s: string) {
    if |s| > 0 && (s[0] == '-' || s[0] == '+') then IsDecimal(s[1..]) else IsDecimal(s)
  }

  /** Digits with at most one `.`, at least one of them a digit. */
  predicate IsDecimal(body: string) {
    && (forall k | 0 <= k < |body| :: IsDigit(body[k]) || body[k] == '.')
    && (forall j, k | 0 <= j < k < |body| :: !(body[j] == '.' && body[k] == '.'))
    && (exists k | 0 <= k < |body| :: IsDigit(body[k]))
  }

  /**
   * The classification at the end of `read_number`: a rational if there is a
   * `/` and every `/`-separated part is an integer (the first two are used);
   * else a float if there is a `.`; else an integer; else a float; else an
   * error naming the text and the index after the leading character.
   */
  function NumberValue(fl: FloatOps, text: string, i: nat): Result<Value> {
    var parts := Split(text, '/');
    if '/' in text && forall k | 0 <= k < |parts| :: ParseBigInt(parts[k]).Some? then
      Ok(Rational(ParseBigInt(parts[0]).value, ParseBigInt(parts[1]).value))
    else if '.' in text then
      if IsFloatText(text) then Ok(Double(fl.ofText(text))) else Err(Reason("invalid float literal"))
    else if ParseBigInt(text).Some? then Ok(Int(ParseBigInt(text).value))
    else if IsFloatText(text) then Ok(Double(fl.ofText(text)))
    else Err(NotParsedAt(text, i))
  }

  /** `n` and the run of digits, `.` and `/` from `pos`. */
  function NumberRun(t: string, n: char, pos: nat): string
    requires pos <= |t|
  {
    [n] + t[pos..pos + Span(t, pos, InNumber)]
  }

  /** `read_number`: `n` and the run of digits, `.` and `/` behind it. */
  function ReadNumber(fl: FloatOps, t: string, n: char, pos: nat): Result<Parsed>
    requires pos <= |t|
  {
    var i :- NextIndex(t, pos);
    var v :- NumberValue(fl, NumberRun(t, n, pos), i);
    Ok(Parsed(v, pos + Span(t, pos, InNumber)))
  }

  /** `read_char`, after the backslash: the next character, whatever it is. */
  function ReadChar(t: string, pos: nat): Result<Parsed>
    requires pos <= |t|
  {
    var i :- NextIndex(t, pos);
    Ok(Parsed(Char(t[i]), i + 1))
  }

  /** `chars.clone().take(k).collect::<String>()`. */
  function Ahead(t: string, pos: nat, k: nat): string
    requires pos <= |t|
  {
    t[pos..Min(pos + k, |t|)]
  }

  /** The guard of `read_bool_or_nil`: `word`, then a space, `,`, `]`, `}`, `)`, or nothing more. */
  predicate WordAhead(t: string, pos: nat, word: string)
    requires pos <= |t|
  {
    IsWordThenDelimiter(Ahead(t, pos, |word| + 1), word)
  }

  /** The comparisons of that guard, on the characters taken ahead. */
  predicate IsWordThenDelimiter(val: string, word: string)
    ensures IsWordThenDelimiter(val, word) ==> |word| <= |val| && val[..|word|] == word
  {
    || val == word + " " || val == word + "," || val == word + "]"
    || val == word + "}" || val == word + ")" || val == word
  }

  /** `read_bool_or_nil`: `true`, `false` and `nil` when the guard holds; otherwise a symbol. */
  function ReadBoolOrNil(t: string, c: char, pos: nat): Result<Parsed>
    requires pos <= |t|
  {
    var _ :- NextIndex(t, pos);
    if c == 't' && WordAhead(t, pos, "rue") then Ok(Parsed(Bool(true), pos + 3))
    else if c == 'f' && WordAhead(t, pos, "alse") then Ok(Parsed(Bool(false), pos + 4))
    else if c == 'n' && WordAhead(t, pos, "il") then Ok(Parsed(Nil, pos + 2))
    else ReadSymbol(t, c, pos)
  }

  // ---------------------------------------------------------------------------
  // Forms and collections
  // ---------------------------------------------------------------------------

  /** A character the collection loops skip. */
  predicate IsSeparator(c: char) {
    IsWhitespace(c) || c == ','
  }

  /**
   * `parse`: the four collection readers by their opening character, then
   * `parse_edn`.
   */
  function Parse(fl: FloatOps, t: string, lead: Option<char>, pos: nat): (r: Result<Parsed>)
    requires pos <= |t|
    ensures r.Ok? ==> pos <= r.value.next <= |t|
    decreases |t| - pos, 2
  {
    match lead
    case Some('[') => ReadVec(fl, t, pos)
    case Some('(') => ReadList(fl, t, pos)
    case Some('@') => ReadSet(fl, t, pos)
    case Some('{') => ReadMap(fl, t, pos)
    case _ => ParseEdn(fl, t, lead, pos)
  }

  /** `parse_edn`: the scalar readers by their leading character. */
  function ParseEdn(fl: FloatOps, t: string, lead: Option<char>, pos: nat): (r: Result<Parsed>)
    requires pos <= |t|
    ensures r.Ok? ==> pos <= r.value.next <= |t|
  {
    match lead
    case None => Err(Reason("Expression could not be parsed"))
    case Some(c) =>
      if c == '"' then ReadStr(t, pos)
      else if c == ':' then ReadKey(t, pos)
      else if c == '-' then ReadNumber(fl, t, '-', pos)
      else if c == '\\' then ReadChar(t, pos)
      else if c == 't' || c == 'f' || c == 'n' then ReadBoolOrNil(t, c, pos)
      else if IsDigit(c) then ReadNumber(fl, t, c, pos)
      else ReadSymbol(t, c, pos)
  }

  /**
   * The loop of `read_vec`, `read_list` and `read_set` from `pos`: separators
   * are skipped, `close` ends the collection, any other character starts an
   * element, and the end of the text is an error naming `i`, the index the
   * reader started at.
   */
  function Items(fl: FloatOps, t: string, close: char, i: nat, pos: nat, acc: seq<Value>): (r: Result<(seq<Value>, nat)>)
    requires pos <= |t|
    ensures r.Ok? ==> pos < r.value.1 <= |t| && t[r.value.1 - 1] == close
    decreases |t| - pos, 0
  {
    if pos == |t| then Err(NotParsedAt("None", i))
    else
      var c := t[pos];
      if c == close then Ok((acc, pos + 1))
      else if !IsSeparator(c) then
        var p :- Parse(fl, t, Some(c), pos + 1);
        Items(fl, t, close, i, p.next, acc + [p.value])
      else Items(fl, t, close, i, pos + 1, acc)
  }

  /** `read_vec`, after the `[`. */
  function ReadVec(fl: FloatOps, t: string, pos: nat): (r: Result<Parsed>)
    requires pos <= |t|
    ensures r.Ok? ==> pos < r.value.next <= |t|
    decreases |t| - pos, 1
  {
    var i :- NextIndex(t, pos);
    var (xs, next) :- Items(fl, t, ']', i, pos, []);
    Ok(Parsed(Vector(xs), next))
  }

  /** `read_list`, after the `(`. */
  function ReadList(fl: FloatOps, t: string, pos: nat): (r: Result<Parsed>)
    requires pos <= |t|
    ensures r.Ok? ==> pos < r.value.next <= |t|
    decreases |t| - pos, 1
  {
    var i :- NextIndex(t, pos);
    var (xs, next) :- Items(fl, t, ')', i, pos, []);
    Ok(Parsed(List(xs), next))
  }

  /** `read_set`, after the `@` that `#{` was rewritten to. */
  function ReadSet(fl: FloatOps, t: string, pos: nat): (r: Result<Parsed>)
    requires pos <= |t|
    ensures r.Ok? ==> pos < r.value.next <= |t|
    decreases |t| - pos, 1
  {
    var i :- NextIndex(t, pos);
    var (xs, next) :- Items(fl, t, '}', i, pos, []);
    Ok(Parsed(HashSet(set k | 0 <= k < |xs| :: xs[k]), next))
  }

  /**
   * The loop of `read_map` from `pos`: forms alternate between a pending key
   * and its value, and a completed pair is inserted, replacing an earlier
   * value of the same key. A key still pending at `}` is dropped.
   */
  function Entries(fl: FloatOps, t: string, i: nat, pos: nat, key: Option<Value>, acc: map<Value, Value>): (r: Result<(map<Value, Value>, nat)>)
    requires pos <= |t|
    ensures r.Ok? ==> pos < r.value.1 <= |t|
    decreases |t| - pos, 0
  {
    if pos == |t| then Err(NotParsedAt("None", i))
    else
      var c := t[pos];
      if c == '}' then Ok((acc, pos + 1))
      else if !IsSeparator(c) then
        var p :- Parse(fl, t, Some(c), pos + 1);
        if key.Some? then Entries(fl, t, i, p.next, None, acc[key.value := p.value])
        else Entries(fl, t, i, p.next, Some(p.value), acc)
      else Entries(fl, t, i, pos + 1, key, acc)
  }

  /** `read_map`, after the `{`. */
  function ReadMap(fl: FloatOps, t: string, pos: nat): (r: Result<Parsed>)
    requires pos <= |t|
    ensures r.Ok? ==> pos < r.value.next <= |t|
    decreases |t| - pos, 1
  {
    var i :- NextIndex(t, pos);
    var (m, next) :- Entries(fl, t, i, pos, None, map[]);
    Ok(Parsed(HashMap(m), next))
  }

  /** `parse(tokens.next(), &mut tokens)` on a whole text. */
  function ParseText(fl: FloatOps, t: string): Result<Parsed> {
    if t == [] then Parse(fl, t, None, 0) else Parse(fl, t, Some(t[0]), 1)
  }

  // ---------------------------------------------------------------------------
  // Strings
  // ---------------------------------------------------------------------------

  /** The escape sequence a string writer uses for one character: only `"` and `\` need one. */
  function EscapeChar(c: char): string {
    if c == '"' || c == '\\' then ['\\', c] else [c]
  }

  function Escape(s: string): string {
    if s == [] then "" else EscapeChar(s[0]) + Escape(s[1..])
  }

  /** Reading an escaped text up to a closing `"` decodes it back to the original. */
  lemma {:induction false} EscapedTextReadsBack(t: string, pos: nat, s: string, acc: string)
    requires pos + |Escape(s)| < |t|
    requires forall k | 0 <= k < |Escape(s)| :: t[pos + k] == Escape(s)[k]
    requires t[pos + |Escape(s)|] == '"'
    ensures StrFrom(t, pos, false, acc) == Ok(Parsed(String(acc + s), pos + |Escape(s)| + 1))
    decreases s
  {
    if s == [] {
      assert Escape(s) == [] && acc + s == acc;
    } else {
      var c, head, tail := s[0], EscapeChar(s[0]), Escape(s[1..]);
      assert Escape(s) == head + tail;
      assert forall k | 0 <= k < |tail| :: t[pos + |head| + k] == tail[k] by {
        forall k | 0 <= k < |tail| ensures t[pos + |head| + k] == tail[k] {
          assert Escape(s)[|head| + k] == tail[k];
        }
      }
      assert acc + s == (acc + [c]) + s[1..];
      if |head| == 2 {
        assert t[pos] == Escape(s)[0] == '\\' && t[pos + 1] == Escape(s)[1] == c;
        EscapedTextReadsBack(t, pos + 2, s[1..], acc + [c]);
      } else {
        assert t[pos] == Escape(s)[0] == c;
        EscapedTextReadsBack(t, pos + 1, s[1..], acc + [c]);
      }
    }
  }

  /** A text with no `"` and no `\` is its own escaped form. */
  lemma {:induction false} PlainTextNeedsNoEscape(s: string)
    requires '"' !in s && '\\' !in s
    ensures Escape(s) == s
    decreases s
  {
    if s != [] {
      PlainTextNeedsNoEscape(s[1..]);
    }
  }

  /**
   * A `"`, an escaped text and a closing `"` read back as the string they
   * encode, and the reader stops right behind the closing quote.
   */
  lemma StringRoundTrip(fl: FloatOps, s: string, rest: string)
    ensures ParseText(fl, "\"" + Escape(s) + "\"" + rest) == Ok(Parsed(String(s), |Escape(s)| + 2))
  {
    var t := "\"" + Escape(s) + "\"" + rest;
    assert forall k | 0 <= k < |Escape(s)| :: t[1 + k] == Escape(s)[k];
    assert t[0] == '"' && t[1 + |Escape(s)|] == '"';
    EscapedTextReadsBack(t, 1, s, "");
    assert ParseText(fl, t) == ReadStr(t, 1);
    assert "" + s == s;
  }

  /** The five escapes decode to tab, carriage return, newline, backslash and quote. */
  lemma EscapesDecode()
    ensures ReadStr("\"\\t\\r\\n\\\\\\\"\"", 1) == Ok(Parsed(String("\t\r\n\\\""), 12))
  {
    var t := "\"\\t\\r\\n\\\\\\\"\"";
    var r := Ok(Parsed(String("\t\r\n\\\""), 12));
    assert StrFrom(t, 11, false, "\t\r\n\\\"") == r;
    assert "\t\r\n\\" + ['"'] == "\t\r\n\\\"";
    assert "\t\r\n" + ['\\'] == "\t\r\n\\";
    assert "\t\r" + ['\n'] == "\t\r\n";
    assert "\t" + ['\r'] == "\t\r";
    assert "" + ['\t'] == "\t";
    assert StrFrom(t, 10, true, "\t\r\n\\") == r;
    assert StrFrom(t, 9, false, "\t\r\n\\") == r;
    assert StrFrom(t, 8, true, "\t\r\n") == r;
    assert StrFrom(t, 7, false, "\t\r\n") == r;
    assert StrFrom(t, 6, true, "\t\r") == r;
    assert StrFrom(t, 5, false, "\t\r") == r;
    assert StrFrom(t, 4, true, "\t") == r;
    assert StrFrom(t, 3, false, "\t") == r;
    assert StrFrom(t, 2, true, "") == r;
    assert StrFrom(t, 1, false, "") == r;
  }

  /** A backslash before any other character is an error naming it. */
  lemma UnknownEscapeFails(t: string, pos: nat, c: char, acc: string)
    requires pos + 1 < |t| && t[pos] == '\\' && t[pos + 1] == c && Unescape(c).None?
    ensures StrFrom(t, pos, false, acc) == Err(Reason("Invalid escape sequence \\" + [c]))
  {
  }

  // ---------------------------------------------------------------------------
  // Symbols, keywords, `true`, `false` and `nil`
  // ---------------------------------------------------------------------------

  /**
   * A symbol is the leading character and the symbol characters behind it,
   * and the reader stops before the delimiter that ends them (or after 201).
   */
  lemma SymbolStopsAtDelimiter(t: string, a: char, pos: nat)
    requires pos < |t| && !IsWhitespace(a)
    ensures ReadSymbol(t, a, pos).Ok?
    ensures var p := ReadSymbol(t, a, pos).value;
      && pos <= p.next <= pos + 201
      && p.value == Symbol([a] + t[pos..p.next])
      && (forall k | pos <= k < p.next :: InSymbol(t[k]))
      && (p.next == |t| || !InSymbol(t[p.next]) || p.next == pos + 201)
  {
  }

  /** A keyword is `:` and the keyword characters behind it; a `{` among them is refused. */
  lemma KeywordStopsAtDelimiter(t: string, pos: nat)
    requires pos <= |t|
    ensures var n := Span(t, pos, InKeyword);
      && (ReadKey(t, pos).Err? <==> exists k | pos <= k < pos + n :: t[k] == '{')
      && (ReadKey(t, pos).Ok? ==> ReadKey(t, pos) == Ok(Parsed(Keyword(":" + t[pos..pos + n]), pos + n)))
      && (pos + n == |t| || !InKeyword(t[pos + n]))
  {
    var n := Span(t, pos, InKeyword);
    if exists k | pos <= k < pos + n :: t[k] == '{' {
      var k :| pos <= k < pos + n && t[k] == '{';
      assert t[pos..pos + n][k - pos] == '{';
    }
  }

  /** A colon and a run of keyword characters without `{` reads as one keyword holding the colon. */
  lemma KeywordTextRead(fl: FloatOps, k: string)
    requires forall j | 0 <= j < |k| :: InKeyword(k[j]) && k[j] != '{'
    ensures ParseText(fl, ":" + k) == Ok(Parsed(Keyword(":" + k), |k| + 1))
  {
    var t := ":" + k;
    assert forall j | 1 <= j < |t| :: t[j] == k[j - 1];
    assert t[0] == ':' && t[1..1 + |k|] == k;
    assert Span(t, 1, InKeyword) == |k|;
    assert ReadKey(t, 1) == Ok(Parsed(Keyword(":" + k), |k| + 1));
    assert ParseText(fl, t) == ReadKey(t, 1);
  }

  /** The guard of `read_bool_or_nil`, stated on the text: the word, then a delimiter or the end. */
  lemma WordAheadMeans(t: string, pos: nat, word: string)
    requires pos <= |t|
    ensures WordAhead(t, pos, word) <==>
      && pos + |word| <= |t| && t[pos..pos + |word|] == word
      && (pos + |word| == |t| || t[pos + |word|] in " ,]})")
  {
    var val := Ahead(t, pos, |word| + 1);
    var w := |word|;
    if WordAhead(t, pos, word) {
      if val == word {
        assert pos + w == |t|;
      } else {
        assert |val| == w + 1 && pos + w + 1 <= |t|;
        assert val[..w] == word && t[pos + w] == val[w];
        assert t[pos..pos + w] == val[..w];
      }
    }
    if pos + w <= |t| && t[pos..pos + w] == word {
      if pos + w == |t| {
        assert val == word;
      } else {
        assert val == word + [t[pos + w]];
      }
    }
  }

  /** `true` at the end of the text is a literal. */
  lemma TrueAtEnd(fl: FloatOps)
    ensures ParseText(fl, "true") == Ok(Parsed(Bool(true), 4))
  {
    WordAheadMeans("true", 1, "rue");
  }

  /** `false` before a comma is a literal. */
  lemma FalseBeforeComma(fl: FloatOps)
    ensures ParseText(fl, "false,") == Ok(Parsed(Bool(false), 5))
  {
    WordAheadMeans("false,", 1, "alse");
  }

  /** `nil` before a closing parenthesis is a literal. */
  lemma NilBeforeParen(fl: FloatOps)
    ensures ParseText(fl, "nil)") == Ok(Parsed(Nil, 3))
  {
    WordAheadMeans("nil)", 1, "il");
  }

  /** Before any other character, such as `x` or a newline, `true` starts a symbol. */
  lemma TrueBeforeOtherCharacters(fl: FloatOps, t: string)
    requires |t| > 4 && t[..4] == "true" && t[4] !in " ,]})"
    ensures ParseText(fl, t) == ReadSymbol(t, 't', 1)
  {
    WordAheadMeans(t, 1, "rue");
    assert t[1..4] == t[..4][1..];
  }

  /** `truex` is one symbol. */
  lemma TrueThenLetterIsSymbol(fl: FloatOps)
    ensures ParseText(fl, "truex") == Ok(Parsed(Symbol("truex"), 5))
  {
    TrueBeforeOtherCharacters(fl, "truex");
    assert Span("truex", 5, InSymbol) == 0;
    assert Span("truex", 4, InSymbol) == 1;
    assert Span("truex", 3, InSymbol) == 2;
    assert Span("truex", 2, InSymbol) == 3;
    assert Span("truex", 1, InSymbol) == 4;
    assert "t" + "truex"[1..5] == "truex";
  }

  /** `true` and a newline is the symbol `true`, not the literal. */
  lemma TrueThenNewlineIsSymbol(fl: FloatOps)
    ensures ParseText(fl, "true\n") == Ok(Parsed(Symbol("true"), 4))
  {
    TrueBeforeOtherCharacters(fl, "true\n");
    assert Span("true\n", 4, InSymbol) == 0;
    assert Span("true\n", 3, InSymbol) == 1;
    assert Span("true\n", 2, InSymbol) == 2;
    assert Span("true\n", 1, InSymbol) == 3;
    assert "t" + "true\n"[1..4] == "true";
  }

  // ---------------------------------------------------------------------------
  // Numbers
  // ---------------------------------------------------------------------------

  /** Splitting at a separator and joining the parts back gives the text. */
  lemma {:induction false} SplitJoin(s: string, sep: char)
    ensures Join(Split(s, sep), sep) == s
    decreases s
  {
    if s != [] {
      SplitJoin(s[1..], sep);
      var rest := Split(s[1..], sep);
      if s[0] != sep && |rest| > 1 {
        assert Join([[s[0]] + rest[0]] + rest[1..], sep) == [s[0]] + rest[0] + [sep] + Join(rest[1..], sep) by {
          assert ([[s[0]] + rest[0]] + rest[1..])[1..] == rest[1..];
        }
      }
    }
  }

  /** Two texts without the separator, joined by it, split back into the two. */
  lemma {:induction false} SplitOfTwo(a: string, b: string, sep: char)
    requires sep !in a && sep !in b
    ensures Split(a + [sep] + b, sep) == [a, b]
    decreases a
  {
    if a == [] {
      SplitOfNone(b, sep);
      assert ([] + [sep] + b)[1..] == b;
    } else {
      SplitOfTwo(a[1..], b, sep);
      assert (a + [sep] + b)[1..] == a[1..] + [sep] + b;
      assert [a[0]] + a[1..] == a;
    }
  }

  lemma {:induction false} SplitOfNone(s: string, sep: char)
    requires sep !in s
    ensures Split(s, sep) == [s]
    decreases s
  {
    if s != [] {
      SplitOfNone(s[1..], sep);
      assert [s[0]] + s[1..] == s;
    }
  }

  /** The run of number characters from `pos`, when the text there is `digits` and then a non-number character. */
  lemma SpanOfDigits(t: string, pos: nat, len: nat)
    requires pos + len < |t| && !InNumber(t[pos + len])
    requires forall k | pos <= k < pos + len :: InNumber(t[k])
    ensures Span(t, pos, InNumber) == len
  {
  }

  /**
   * The text of an integer, followed by any character that cannot continue a
   * number, reads back as that integer; the reader stops before that character.
   */
  lemma IntegerReadsBack(fl: FloatOps, i: int, d: char, rest: string)
    requires !InNumber(d)
    ensures ParseText(fl, IntToString(i) + [d] + rest) == Ok(Parsed(Int(i), |IntToString(i)|))
  {
    var s := IntToString(i);
    IntegerTextIsNumberRun(i);
    IntegerText(fl, i, 1);
    NumberTextRead(fl, s, d, rest, Int(i));
  }

  /** A number run `s` followed by a character that cannot continue it is read as the value `s` is classified as. */
  lemma NumberTextRead(fl: FloatOps, s: string, c: char, rest: string, v: Value)
    requires |s| >= 1 && (s[0] == '-' || IsDigit(s[0])) && !InNumber(c)
    requires forall k | 1 <= k < |s| :: InNumber(s[k])
    requires NumberValue(fl, s, 1) == Ok(v)
    ensures ParseText(fl, s + [c] + rest) == Ok(Parsed(v, |s|))
  {
    var t := s + [c] + rest;
    assert t[..|s|] == s;
    assert forall k | 0 <= k < |s| :: t[k] == s[k];
    assert t[|s|] == c;
    NumberRunRead(fl, t, |s|);
  }

  /**
   * A text that starts with a digit or `-` and a run of number characters up
   * to index `len`, followed by another character, is read by `read_number`
   * as the classification of that run, stopping at `len`.
   */
  lemma NumberRunRead(fl: FloatOps, t: string, len: nat)
    requires 1 <= len < |t| && (t[0] == '-' || IsDigit(t[0])) && !InNumber(t[len])
    requires forall k | 1 <= k < len :: InNumber(t[k])
    ensures ParseText(fl, t) == match NumberValue(fl, t[..len], 1)
      case Ok(v) => Ok(Parsed(v, len))
      case Err(e) => Err(e)
  {
    SpanOfDigits(t, 1, len - 1);
    assert NumberRun(t, t[0], 1) == t[..len];
    assert ParseText(fl, t) == ReadNumber(fl, t, t[0], 1);
  }

  /** Behind its first character, the printed text of an integer is a run of digits. */
  lemma IntegerTextIsNumberRun(i: int)
    ensures var s := IntToString(i); (IsDigit(s[0]) || s[0] == '-') && forall k | 1 <= k < |s| :: IsDigit(s[k])
  {
    var s := IntToString(i);
    if i < 0 {
      assert forall k | 1 <= k < |s| :: s[k] == NatToString(-i)[k - 1];
    }
  }

  /** The printed text of an integer is classified as that integer. */
  lemma IntegerText(fl: FloatOps, i: int, k: nat)
    ensures NumberValue(fl, IntToString(i), k) == Ok(Int(i))
  {
    var s := IntToString(i);
    IntegerTextIsNumberRun(i);
    assert '/' !in s && '.' !in s;
    IntTextRoundTrip(i);
  }

  /**
   * The printed text of a rational with a non-negative denominator, followed by
   * a character that cannot continue a number, reads back as that rational.
   */
  lemma RationalReadsBack(fl: FloatOps, n: int, d: nat, c: char, rest: string)
    requires !InNumber(c)
    ensures var s := IntToString(n) + "/" + IntToString(d);
      ParseText(fl, s + [c] + rest) == Ok(Parsed(Rational(n, d), |s|))
  {
    var s := IntToString(n) + "/" + IntToString(d);
    RationalTextIsNumberRun(n, d);
    RationalText(fl, n, d, 1);
    NumberTextRead(fl, s, c, rest, Rational(n, d));
  }

  /** Behind its first character, the printed text of a rational is a run of number characters. */
  lemma RationalTextIsNumberRun(n: int, d: nat)
    ensures var s := IntToString(n) + "/" + IntToString(d);
      (s[0] == '-' || IsDigit(s[0])) && forall k | 1 <= k < |s| :: InNumber(s[k])
  {
    var a, b := IntToString(n), IntToString(d);
    var s := a + "/" + b;
    IntegerTextIsNumberRun(n);
    assert s[0] == a[0];
    assert forall k | 0 <= k < |a| :: IsDigit(a[k]) || a[k] == '-' by {
      if n < 0 {
        assert forall k | 1 <= k < |a| :: a[k] == NatToString(-n)[k - 1];
      }
    }
    forall k | 1 <= k < |s| ensures InNumber(s[k]) {
      if k < |a| { assert s[k] == a[k] && (k > 0 ==> a[k] != '-'); }
      else if k == |a| { assert s[k] == '/'; }
      else { assert s[k] == b[k - |a| - 1]; }
    }
  }

  /** The printed text of a rational is classified as that rational. */
  lemma RationalText(fl: FloatOps, n: int, d: nat, i: nat)
    ensures NumberValue(fl, IntToString(n) + "/" + IntToString(d), i) == Ok(Rational(n, d))
  {
    var a, b := IntToString(n), IntToString(d);
    SplitOfTwo(a, b, '/');
    IntTextRoundTrip(n);
    IntTextRoundTrip(d);
    assert (a + "/" + b)[|a|] == '/';
  }

  /**
   * A `-` that is not followed by a number character is not read as a symbol:
   * it is an error naming the `-` and the index behind it.
   */
  lemma BareMinusFails(fl: FloatOps, c: char, rest: string)
    requires !InNumber(c)
    ensures ParseText(fl, "-" + [c] + rest) == Err(Reason("- could not be parsed at char count 1"))
  {
    var t := "-" + [c] + rest;
    assert t[0] == '-' && t[1] == c && t[..1] == "-";
    NumberRunRead(fl, t, 1);
    BareMinusText(fl);
  }

  /** `-` alone is no number: the error names it and index 1. */
  lemma BareMinusText(fl: FloatOps)
    ensures NumberValue(fl, "-", 1) == Err(Reason("- could not be parsed at char count 1"))
  {
    assert '/' !in "-" && '.' !in "-";
    assert ParseBigInt("-") == None;
    assert !IsFloatText("-");
    MessageForBareMinus();
  }

  lemma MessageForBareMinus()
    ensures NotParsedAt("-", 1) == Reason("- could not be parsed at char count 1")
  {
    assert NatToString(1) == "1";
    assert "-" + " could not be parsed at char count " + "1" == "- could not be parsed at char count 1";
  }

  /** A character other than a digit, `.` or a sign makes a text no float literal. */
  lemma NotFloatText(s: string, k: nat)
    requires k < |s| && !IsDigit(s[k]) && s[k] != '.' && s[k] != '-' && s[k] != '+'
    ensures !IsFloatText(s)
  {
    if |s| > 0 && (s[0] == '-' || s[0] == '+') {
      assert s[1..][k - 1] == s[k];
    }
  }

  /** Two `.` make a text no float literal. */
  lemma TwoDotsAreNoFloat(s: string, a: nat, b: nat)
    requires a < b < |s| && s[a] == '.' && s[b] == '.'
    ensures !IsFloatText(s)
  {
    if |s| > 0 && (s[0] == '-' || s[0] == '+') {
      assert s[1..][a - 1] == '.' && s[1..][b - 1] == '.';
    }
  }

  /** The parts before the first separator, then the split of the rest. */
  lemma {:induction false} SplitAtFirst(a: string, rest: string, sep: char)
    requires sep !in a
    ensures Split(a + [sep] + rest, sep) == [a] + Split(rest, sep)
    decreases a
  {
    if a == [] {
      assert ([] + [sep] + rest)[1..] == rest;
    } else {
      SplitAtFirst(a[1..], rest, sep);
      assert (a + [sep] + rest)[1..] == a[1..] + [sep] + rest;
      assert [a[0]] + a[1..] == a;
    }
  }

  /** With more than two integer parts, a rational is built from the first two. */
  lemma RationalFromFirstTwoParts(fl: FloatOps)
    ensures NumberValue(fl, "1/2/3", 0) == Ok(Rational(1, 2))
  {
    ThreeParts();
    SmallIntegers();
    assert "1/2/3"[1] == '/';
  }

  lemma ThreeParts()
    ensures Split("1/2/3", '/') == ["1", "2", "3"]
  {
    SplitOfNone("3", '/');
    SplitAtFirst("2", "3", '/');
    SplitAtFirst("1", "2/3", '/');
    assert "1/2/3" == "1" + ['/'] + "2/3" && "2/3" == "2" + ['/'] + "3";
  }

  lemma SmallIntegers()
    ensures ParseBigInt("1") == Some(1) && ParseBigInt("2") == Some(2) && ParseBigInt("3") == Some(3)
  {
    IntTextRoundTrip(1);
    IntTextRoundTrip(2);
    IntTextRoundTrip(3);
    assert IntToString(1) == "1" && IntToString(2) == "2" && IntToString(3) == "3";
  }

  /**
   * A `.` in a text that is not a rational demands a float literal: with a
   * `/` behind it, it is the float error, not a fallback to another kind.
   */
  lemma SlashAfterDotIsNoFloat(fl: FloatOps)
    ensures NumberValue(fl, "1.5/2", 0) == Err(Reason("invalid float literal"))
  {
    SlashDotParts();
    NotAnInteger("1.5", 1);
    assert "1.5/2"[1] == '.' && "1.5/2"[3] == '/';
    NotFloatText("1.5/2", 3);
  }

  lemma SlashDotParts()
    ensures Split("1.5/2", '/') == ["1.5", "2"]
  {
    SplitOfNone("2", '/');
    SplitAtFirst("1.5", "2", '/');
    assert "1.5/2" == "1.5" + ['/'] + "2";
  }

  /** The same with a second `.`. */
  lemma SecondDotIsNoFloat(fl: FloatOps)
    ensures NumberValue(fl, "1.2.3", 0) == Err(Reason("invalid float literal"))
  {
    assert "1.2.3"[1] == '.';
    assert '/' !in "1.2.3";
    TwoDotsAreNoFloat("1.2.3", 1, 3);
  }

  /** A `/` with nothing behind it is neither a rational nor a number, and the error names the index. */
  lemma EmptyDenominatorFails(fl: FloatOps)
    ensures NumberValue(fl, "1/", 7) == Err(Reason("1/ could not be parsed at char count 7"))
  {
    NoEmptyDenominator(fl, 7);
    MessageForEmptyDenominator();
  }

  lemma MessageForEmptyDenominator()
    ensures NotParsedAt("1/", 7) == Reason("1/ could not be parsed at char count 7")
  {
    assert NatToString(7) == "7";
    assert "1/" + " could not be parsed at char count " + "7" == "1/ could not be parsed at char count 7";
  }

  lemma NoEmptyDenominator(fl: FloatOps, i: nat)
    ensures NumberValue(fl, "1/", i) == Err(NotParsedAt("1/", i))
  {
    SplitAtFirst("1", "", '/');
    assert "1/" == "1" + ['/'] + "";
    assert Split("", '/') == [""];
    assert ParseBigInt("") == None;
    assert "1/"[1] == '/';
    NotAnInteger("1/", 1);
    assert '.' !in "1/";
    NotFloatText("1/", 1);
  }

  // ---------------------------------------------------------------------------
  // Dispatch and collections
  // ---------------------------------------------------------------------------

  /**
   * At the end of the text, every reader fails to find the index of the next
   * character, except the keyword reader (which reads `:`) and the string
   * reader (which finds no closing quote).
   */
  lemma LeadAtEndOfText(fl: FloatOps, t: string, c: char)
    ensures c == ':' ==> Parse(fl, t, Some(c), |t|) == Ok(Parsed(Keyword(":"), |t|))
    ensures c == '"' ==> Parse(fl, t, Some(c), |t|) == Err(Reason("Unterminated string"))
    ensures c != ':' && c != '"' ==> Parse(fl, t, Some(c), |t|) == Err(Reason("Could not identify symbol index"))
  {
    assert t[|t|..|t|] == [] && ":" + [] == ":";
    if c == ':' {
      assert Span(t, |t|, InKeyword) == 0;
    }
  }

  /** Nothing to read is an error; a lone number is an error too, for lack of a next index. */
  lemma NothingToRead(fl: FloatOps, d: char)
    requires IsDigit(d)
    ensures ParseText(fl, "") == Err(Reason("Expression could not be parsed"))
    ensures ParseText(fl, [d]) == Err(Reason("Could not identify symbol index"))
  {
    LeadAtEndOfText(fl, [d], d);
  }

  /**
   * A collection whose closing character does not occur in the rest of the
   * text is an error: either an element fails or the end of the text does.
   */
  lemma UnclosedCollectionFails(fl: FloatOps, t: string, close: char, i: nat, pos: nat, acc: seq<Value>, key: Option<Value>, m: map<Value, Value>)
    requires pos <= |t|
    ensures (forall k | pos <= k < |t| :: t[k] != close) ==> Items(fl, t, close, i, pos, acc).Err?
    ensures (forall k | pos <= k < |t| :: t[k] != '}') ==> Entries(fl, t, i, pos, key, m).Err?
  {
    EntriesEndAtBrace(fl, t, i, pos, key, m);
  }

  /** The entry loop stops just after a `}`. */
  lemma {:induction false} EntriesEndAtBrace(fl: FloatOps, t: string, i: nat, pos: nat, key: Option<Value>, m: map<Value, Value>)
    requires pos <= |t|
    ensures var r := Entries(fl, t, i, pos, key, m); r.Ok? ==> t[r.value.1 - 1] == '}'
    decreases |t| - pos
  {
    if pos < |t| && t[pos] != '}' {
      if IsSeparator(t[pos]) {
        EntriesEndAtBrace(fl, t, i, pos + 1, key, m);
      } else {
        var p := Parse(fl, t, Some(t[pos]), pos + 1);
        if p.Ok? {
          var next := p.value.next;
          var key', m' := if key.Some? then None else Some(p.value.value), if key.Some? then m[key.value := p.value.value] else m;
          assert Entries(fl, t, i, pos, key, m) == Entries(fl, t, i, next, key', m');
          EntriesEndAtBrace(fl, t, i, next, key', m');
        }
      }
    }
  }

  /**
   * Running out of text inside a collection is the error `None could not be
   * parsed at char count i`, where `i` is the index just after the opening
   * character, however many elements were read before.
   */
  lemma {:induction false} EndOfTextInCollection(fl: FloatOps, t: string, close: char, i: nat, pos: nat, acc: seq<Value>, key: Option<Value>, m: map<Value, Value>)
    requires pos <= |t| && !IsSeparator(close)
    requires forall k | pos <= k < |t| :: IsSeparator(t[k])
    ensures Items(fl, t, close, i, pos, acc) == Err(NotParsedAt("None", i))
    ensures Entries(fl, t, i, pos, key, m) == Err(NotParsedAt("None", i))
    decreases |t| - pos
  {
    if pos < |t| {
      assert t[pos] != close && t[pos] != '}';
      EndOfTextInCollection(fl, t, close, i, pos + 1, acc, key, m);
    }
  }

  /** A single digit before a character that cannot continue a number reads as that digit's value. */
  lemma DigitRead(fl: FloatOps, t: string, d: char, pos: nat)
    requires pos < |t| && IsDigit(d) && !InNumber(t[pos])
    ensures Parse(fl, t, Some(d), pos) == Ok(Parsed(Int(DigitValue(d)), pos))
  {
    assert IntToString(DigitValue(d)) == [d];
    IntegerText(fl, DigitValue(d), pos);
    assert Span(t, pos, InNumber) == 0;
    assert NumberRun(t, d, pos) == [d];
  }

  /** `[1 `: the element is read, then the text ends before the `]`. */
  lemma VectorLeftOpen(fl: FloatOps)
    ensures ParseText(fl, "[1 ") == Err(NotParsedAt("None", 1))
  {
    var v := "[1 ";
    DigitRead(fl, v, '1', 2);
    EndOfTextInCollection(fl, v, ']', 1, 2, [Int(1)], None, map[]);
  }

  /** `{1 2 `: the pair is read, then the text ends before the `}`. */
  lemma MapLeftOpen(fl: FloatOps)
    ensures ParseText(fl, "{1 2 ") == Err(NotParsedAt("None", 1))
  {
    var w := "{1 2 ";
    DigitRead(fl, w, '1', 2);
    DigitRead(fl, w, '2', 4);
    EndOfTextInCollection(fl, w, '}', 1, 4, [], None, map[Int(1) := Int(2)]);
  }

  /** The message of an unclosed collection that opened at the start of the text. */
  lemma MessageForUnclosed()
    ensures NotParsedAt("None", 1) == Reason("None could not be parsed at char count 1")
  {
    assert NatToString(1) == "1";
    assert "None" + " could not be parsed at char count " + "1" == "None could not be parsed at char count 1";
  }

  /** The element loop collects the same elements whatever it has collected before. */
  lemma {:induction false} ItemsAccumulate(fl: FloatOps, t: string, close: char, i: nat, pos: nat, acc: seq<Value>)
    requires pos <= |t|
    ensures Items(fl, t, close, i, pos, acc) ==
      (match Items(fl, t, close, i, pos, [])
       case Ok((xs, next)) => Ok((acc + xs, next))
       case Err(e) => Err(e))
    decreases |t| - pos
  {
    assert acc + [] == acc;
    if pos < |t| && t[pos] != close {
      var c := t[pos];
      if !IsSeparator(c) {
        var p := Parse(fl, t, Some(c), pos + 1);
        if p.Ok? {
          assert [] + [p.value.value] == [p.value.value];
          ItemsAccumulate(fl, t, close, i, p.value.next, acc + [p.value.value]);
          ItemsAccumulate(fl, t, close, i, p.value.next, [p.value.value]);
          match Items(fl, t, close, i, p.value.next, []) {
            case Ok((xs, next)) => assert acc + [p.value.value] + xs == acc + ([p.value.value] + xs);
            case Err(_) =>
          }
        }
      } else {
        ItemsAccumulate(fl, t, close, i, pos + 1, acc);
      }
    }
  }

  /** Pairing forms as the map reader does: a pending key and its value make an entry. */
  function Pairs(m: map<Value, Value>, key: Option<Value>, xs: seq<Value>): map<Value, Value>
    decreases |xs|
  {
    if xs == [] then m
    else if key.Some? then Pairs(m[key.value := xs[0]], None, xs[1..])
    else Pairs(m, Some(xs[0]), xs[1..])
  }

  /**
   * The map reader reads the same forms, up to the same `}`, as the element
   * loop of the other collection readers, and pairs them.
   */
  lemma {:induction false} EntriesArePairedItems(fl: FloatOps, t: string, i: nat, pos: nat, key: Option<Value>, m: map<Value, Value>)
    requires pos <= |t|
    ensures Entries(fl, t, i, pos, key, m) ==
      (match Items(fl, t, '}', i, pos, [])
       case Ok((xs, next)) => Ok((Pairs(m, key, xs), next))
       case Err(e) => Err(e))
    decreases |t| - pos
  {
    if pos < |t| && t[pos] != '}' {
      var c := t[pos];
      if !IsSeparator(c) {
        var p := Parse(fl, t, Some(c), pos + 1);
        if p.Ok? {
          var v := p.value.value;
          assert [] + [v] == [v];
          ItemsAccumulate(fl, t, '}', i, p.value.next, [v]);
          if key.Some? {
            EntriesArePairedItems(fl, t, i, p.value.next, None, m[key.value := v]);
          } else {
            EntriesArePairedItems(fl, t, i, p.value.next, Some(v), m);
          }
          match Items(fl, t, '}', i, p.value.next, []) {
            case Ok((xs, next)) => assert ([v] + xs)[1..] == xs;
            case Err(_) =>
          }
        }
      } else {
        EntriesArePairedItems(fl, t, i, pos + 1, key, m);
      }
    }
  }

  /** Pairing one more key and value: the new entry replaces any earlier value of that key. */
  lemma {:induction false} LaterPairWins(m: map<Value, Value>, xs: seq<Value>, a: Value, b: Value)
    requires |xs| % 2 == 0
    ensures Pairs(m, None, xs + [a, b]) == Pairs(m, None, xs)[a := b]
    decreases |xs|
  {
    if xs == [] {
      assert xs + [a, b] == [a, b] && [a, b][1..] == [b] && [b][1..] == [];
      assert Pairs(m, None, [a, b]) == Pairs(m, Some(a), [b]);
      assert Pairs(m, Some(a), [b]) == Pairs(m[a := b], None, []);
    } else {
      assert (xs + [a, b])[0] == xs[0] && (xs + [a, b])[1..][0] == xs[1];
      assert (xs + [a, b])[1..][1..] == xs[2..] + [a, b];
      assert xs[1..][1..] == xs[2..];
      LaterPairWins(m[xs[0] := xs[1]], xs[2..], a, b);
    }
  }

  /** A key left without a value is dropped. */
  lemma {:induction false} TrailingKeyDropped(m: map<Value, Value>, xs: seq<Value>, a: Value)
    requires |xs| % 2 == 0
    ensures Pairs(m, None, xs + [a]) == Pairs(m, None, xs)
    decreases |xs|
  {
    if xs == [] {
      assert Pairs(m, None, [a]) == Pairs(m, Some(a), []);
    } else {
      assert (xs + [a])[1..][1..] == xs[2..] + [a];
      assert xs[1..][1..] == xs[2..];
      TrailingKeyDropped(m[xs[0] := xs[1]], xs[2..], a);
    }
  }
}
