/**
 * `read` (src/lib.rs): the entry point of the crate. The text is cleaned
 * (every `#{` becomes `@`, the set opener the reader knows, and leading
 * whitespace is dropped), one form is read from its start, and that form is
 * printed; printing a list evaluates it. Whatever follows the first form is
 * ignored.
 */
module Lib {
  import opened Errors
  import opened Numerals
  import opened Values
  import opened Runtime
  import Grammar
  import Helper
  import Parser
  import Evaluator

  /** `list.maybe_replace("#{", "@").trim_start()`. */
  function Clean(list: string): string {
    Helper.TrimStart(Helper.MaybeReplaceStr(list, "#{", "@").text)
  }

  /** `read`: the printed text of the first form of the cleaned text. */
  function Read(h: Host, list: string, fuel: nat): Outcome<string> {
    match Grammar.ParseText(h.floats, Clean(list))
    case Err(e) => Fail(e)
    case Ok(p) => Evaluator.Print(h, p.value, fuel)
  }

  /** `read` as it runs: a cursor over the cleaned text, one form, then `print`. */
  method ReadText(h: Host, list: string, fuel: nat) returns (r: Outcome<string>)
    ensures r == Read(h, list, fuel)
  {
    var clean := Helper.TrimStart(Helper.MaybeReplaceStr(list, "#{", "@").text);
    var tokens := new Parser.Cursor(clean, h.floats);
    var parsed := tokens.ParseForm();
    match parsed {
      case Err(e) =>
        r := Fail(e);
      case Ok(v) =>
        r := Evaluator.PrintValue(h, v, fuel);
    }
  }

  /**
   * The cleaned text holds no `#{`, does not start with whitespace, and is
   * what remains of the rewritten text once its leading whitespace is gone.
   */
  lemma CleanText(list: string)
    ensures var r := Helper.ReplaceAll(list, "#{", "@"); var c := Clean(list);
      && !Helper.Contains(c, "#{")
      && (c == [] || !Grammar.IsWhitespace(c[0]))
      && |c| <= |r| && c == r[|r| - |c|..]
      && forall k | 0 <= k < |r| - |c| :: Grammar.IsWhitespace(r[k])
  {
    var r := Helper.ReplaceAll(list, "#{", "@");
    var c := Clean(list);
    Helper.MaybeReplaceIsReplace(list, Helper.Borrowed(list), "#{", "@");
    Helper.NoSetOpenerLeft(list);
    Helper.AbsentFromSuffix(r, "#{", |r| - |c|);
  }

  /** A text without `#` that does not start with whitespace is read as it is. */
  lemma PlainTextUnchanged(list: string)
    requires '#' !in list
    requires list == [] || !Grammar.IsWhitespace(list[0])
    ensures Clean(list) == list
  {
    Helper.NoHashNoOpener(list);
  }

  /** Text made of whitespace only holds no form. */
  lemma BlankTextFails(h: Host, list: string, fuel: nat)
    requires forall k | 0 <= k < |list| :: Grammar.IsWhitespace(list[k])
    ensures Read(h, list, fuel) == Fail(Reason("Expression could not be parsed"))
  {
    Helper.NoHashNoOpener(list);
    assert Helper.MaybeReplaceStr(list, "#{", "@").text == list;
    assert Clean(list) == [];
  }

  /**
   * An integer's text followed by a character that cannot continue a number
   * reads as that integer, and everything behind it is ignored.
   */
  lemma LeadingIntegerRead(h: Host, i: int, d: char, rest: string, fuel: nat)
    requires !Grammar.InNumber(d) && d != '#' && '#' !in rest
    ensures Read(h, IntToString(i) + [d] + rest, fuel) == Return(IntToString(i))
  {
    var s := IntToString(i);
    var t := s + [d] + rest;
    Grammar.IntegerTextIsNumberRun(i);
    assert '#' !in s;
    assert t[0] == s[0];
    forall k | 0 <= k < |t|
      ensures t[k] != '#'
    {
      if k > |s| {
        assert t[k] == rest[k - |s| - 1];
      }
    }
    PlainTextUnchanged(t);
    Grammar.IntegerReadsBack(h.floats, i, d, rest);
  }

  /** A keyword prints with the colon the reader kept in its name: `:k` reads as `::k`. */
  lemma KeywordRead(h: Host, k: string, fuel: nat)
    requires forall j | 0 <= j < |k| :: Grammar.InKeyword(k[j]) && k[j] != '{' && k[j] != '#'
    ensures Read(h, ":" + k, fuel) == Return("::" + k)
  {
    var t := ":" + k;
    forall j | 0 <= j < |t|
      ensures t[j] != '#'
    {
      if j > 0 {
        assert t[j] == k[j - 1];
      }
    }
    PlainTextUnchanged(t);
    Grammar.KeywordTextRead(h.floats, k);
    ParsedThenPrinted(h, t, Keyword(":" + k), |t|, fuel);
    assert ":" + (":" + k) == "::" + k;
  }

  /** `read` prints whatever the cleaned text parses to. */
  lemma ParsedThenPrinted(h: Host, list: string, v: Value, next: nat, fuel: nat)
    requires Grammar.ParseText(h.floats, Clean(list)) == Ok(Grammar.Parsed(v, next))
    ensures Read(h, list, fuel) == Evaluator.Print(h, v, fuel)
  {
  }

  /** The rewrite of `#{` reaches into string literals as well: `"#{…"` reads as the string `@…`. */
  lemma StringsRewritten(h: Host, s: string, fuel: nat)
    requires '#' !in s && '"' !in s && '\\' !in s
    ensures Read(h, "\"#{" + s + "\"", fuel) == Return("\"@" + s + "\"")
  {
    QuotedOpenerParsed(h.floats, s);
    ParsedThenPrinted(h, "\"#{" + s + "\"", String("@" + s), |s| + 3, fuel);
    Helper.QuotedAt(s);
  }

  /** The cleaned `"#{…"` parses as the string `@…`. */
  lemma QuotedOpenerParsed(fl: FloatOps, s: string)
    requires '#' !in s && '"' !in s && '\\' !in s
    ensures Grammar.ParseText(fl, Clean("\"#{" + s + "\"")) == Ok(Grammar.Parsed(String("@" + s), |s| + 3))
  {
    var text := "@" + s;
    QuotedOpenerCleaned(s);
    assert '"' !in text && '\\' !in text;
    Grammar.PlainTextNeedsNoEscape(text);
    Grammar.StringRoundTrip(fl, text, "");
    Helper.QuotedAt(s);
    assert "\"" + text + "\"" + "" == "\"" + text + "\"";
  }

  /** Cleaning `"#{…"` gives `"@…"` when nothing else in it is a `#`. */
  lemma QuotedOpenerCleaned(s: string)
    requires '#' !in s
    ensures Clean("\"#{" + s + "\"") == "\"@" + s + "\""
  {
    var list := "\"#{" + s + "\"";
    Helper.OpenerInQuotes(s);
    Helper.MaybeReplaceIsReplace(list, Helper.Borrowed(list), "#{", "@");
    assert ("\"@" + s + "\"")[0] == '"';
  }
}
