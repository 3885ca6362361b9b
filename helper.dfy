/**
 * `MaybeReplaceExt::maybe_replace` (src/helper.rs): replace every occurrence
 * of a pattern, or hand the input back untouched when there is none. The
 * standard-library operations it is built on (`str::contains`,
 * `str::replace`, `str::trim_start`) are defined here too.
 */
module Helper {
  import Grammar

  /** `Cow<str>`: text borrowed from the caller, or a freshly built string. */
  datatype Cow = Borrowed(text: string) | Owned(text: string)

  /** `find` occurs in `s` at index `at`. */
  predicate OccursAt(s: string, find: string, at: nat) {
    at + |find| <= |s| && s[at..at + |find|] == find
  }

  /** `str::contains`: the empty pattern occurs in every text. */
  predicate Contains(s: string, find: string) {
    exists at: nat | at <= |s| :: OccursAt(s, find, at)
  }

  /**
   * `str::replace`: occurrences are matched left to right and do not overlap;
   * the empty pattern matches before every character and at the end.
   */
  function ReplaceAll(s: string, find: string, rep: string): string
    decreases |s|
  {
    if find == [] then
      if s == [] then rep else rep + [s[0]] + ReplaceAll(s[1..], find, rep)
    else if |s| < |find| then s
    else if s[..|find|] == find then rep + ReplaceAll(s[|find|..], find, rep)
    else [s[0]] + ReplaceAll(s[1..], find, rep)
  }

  /** `maybe_replace` on `&str`. */
  function MaybeReplaceStr(s: string, find: string, rep: string): Cow {
    if Contains(s, find) then Owned(ReplaceAll(s, find, rep)) else Borrowed(s)
  }

  /** `maybe_replace` on `Cow<str>`: without an occurrence the `Cow` itself comes back. */
  function MaybeReplaceCow(c: Cow, find: string, rep: string): Cow {
    if Contains(c.text, find) then Owned(ReplaceAll(c.text, find, rep)) else c
  }

  /** `str::trim_start`: the text without its leading whitespace. */
  function TrimStart(s: string): (r: string)
    ensures |r| <= |s| && r == s[|s| - |r|..]
    ensures forall k | 0 <= k < |s| - |r| :: Grammar.IsWhitespace(s[k])
    ensures r == [] || !Grammar.IsWhitespace(r[0])
  {
    if s != [] && Grammar.IsWhitespace(s[0]) then TrimStart(s[1..]) else s
  }

  /** Without an occurrence of a non-empty pattern, replacing changes nothing. */
  lemma {:induction false} NoOccurrenceNoChange(s: string, find: string, rep: string)
    requires find != [] && !Contains(s, find)
    ensures ReplaceAll(s, find, rep) == s
    decreases |s|
  {
    if |s| >= |find| {
      assert !OccursAt(s, find, 0);
      forall at: nat | OccursAt(s[1..], find, at)
        ensures false
      {
        assert s[1..][at..at + |find|] == s[at + 1..at + 1 + |find|];
        assert OccursAt(s, find, at + 1);
      }
      NoOccurrenceNoChange(s[1..], find, rep);
      assert [s[0]] + s[1..] == s;
    }
  }

  /** The `contains` test is only a shortcut: both impls give the text of a plain replace. */
  lemma MaybeReplaceIsReplace(s: string, c: Cow, find: string, rep: string)
    ensures MaybeReplaceStr(s, find, rep).text == ReplaceAll(s, find, rep)
    ensures MaybeReplaceCow(c, find, rep).text == ReplaceAll(c.text, find, rep)
  {
    if find == [] {
      assert OccursAt(s, find, 0) && OccursAt(c.text, find, 0);
    } else {
      if !Contains(s, find) {
        NoOccurrenceNoChange(s, find, rep);
      }
      if !Contains(c.text, find) {
        NoOccurrenceNoChange(c.text, find, rep);
      }
    }
  }

  /** Both impls give the same text for the same input, and borrow exactly when nothing matched. */
  lemma ImplsAgree(s: string, find: string, rep: string)
    ensures MaybeReplaceCow(Borrowed(s), find, rep) == MaybeReplaceStr(s, find, rep)
    ensures MaybeReplaceCow(Owned(s), find, rep).text == MaybeReplaceStr(s, find, rep).text
    ensures MaybeReplaceStr(s, find, rep).Borrowed? <==> !Contains(s, find)
  {
  }

  /** Rewriting `#{` to `@` puts a `{` first only where the text already began with one. */
  lemma SetOpenersHead(s: string)
    ensures var r := ReplaceAll(s, "#{", "@"); |r| > 0 ==> |s| > 0 && (r[0] == '{' ==> s[0] == '{')
  {
  }

  /** After `#{` is rewritten to `@`, no `#{` is left: the rewrite never forms a new one. */
  lemma {:induction false} NoSetOpenerLeft(s: string)
    ensures !Contains(ReplaceAll(s, "#{", "@"), "#{")
    decreases |s|
  {
    if |s| < 2 {
      assert ReplaceAll(s, "#{", "@") == s;
      assert forall at: nat | at <= |s| :: !OccursAt(s, "#{", at);
    } else if s[..2] == "#{" {
      NoSetOpenerLeft(s[2..]);
      Prepend('@', ReplaceAll(s[2..], "#{", "@"));
    } else {
      NoSetOpenerLeft(s[1..]);
      SetOpenersHead(s[1..]);
      Prepend(s[0], ReplaceAll(s[1..], "#{", "@"));
    }
  }

  /** A character put in front of a text without `#{` forms one only before a `{`. */
  lemma Prepend(c: char, r: string)
    requires !Contains(r, "#{")
    requires c == '#' ==> r == [] || r[0] != '{'
    ensures !Contains([c] + r, "#{")
  {
    var cr := [c] + r;
    forall at: nat | at <= |cr| && OccursAt(cr, "#{", at)
      ensures false
    {
      assert cr[at] == '#' && cr[at + 1] == '{';
      if at > 0 {
        assert r[at - 1..at + 1] == "#{";
        assert OccursAt(r, "#{", at - 1);
      }
    }
  }

  /** What a text does not contain, no suffix of it contains. */
  lemma AbsentFromSuffix(s: string, find: string, drop: nat)
    requires drop <= |s| && !Contains(s, find)
    ensures !Contains(s[drop..], find)
  {
    var c := s[drop..];
    forall at: nat | at <= |c| && OccursAt(c, find, at)
      ensures false
    {
      assert c[at..at + |find|] == s[drop + at..drop + at + |find|];
      assert OccursAt(s, find, drop + at);
    }
  }

  /** Without a `#` there is no `#{` to rewrite. */
  lemma NoHashNoOpener(s: string)
    requires '#' !in s
    ensures !Contains(s, "#{")
  {
    forall at: nat | at <= |s|
      ensures !OccursAt(s, "#{", at)
    {
      if at + 2 <= |s| {
        assert s[at..at + 2][0] == s[at];
      }
    }
  }

  /** A character other than `#` in front is kept as it is. */
  lemma RewriteKeepsHead(c: char, t: string)
    requires c != '#'
    ensures ReplaceAll([c] + t, "#{", "@") == [c] + ReplaceAll(t, "#{", "@")
  {
    var ct := [c] + t;
    if |ct| >= 2 {
      assert ct[..2][0] == c;
    }
    assert ct[1..] == t;
  }

  /** A leading `#{` becomes `@`. */
  lemma RewriteOpener(t: string)
    ensures ReplaceAll("#{" + t, "#{", "@") == "@" + ReplaceAll(t, "#{", "@")
  {
    var ot := "#{" + t;
    assert ot[..2] == "#{" && ot[2..] == t;
  }

  /** In `"#{…"` the one `#{` is rewritten, and the quotes and the rest are kept. */
  lemma OpenerInQuotes(s: string)
    requires '#' !in s
    ensures ReplaceAll("\"#{" + s + "\"", "#{", "@") == "\"@" + s + "\""
  {
    var tail := s + "\"";
    assert '#' !in tail;
    NoHashNoOpener(tail);
    NoOccurrenceNoChange(tail, "#{", "@");
    RewriteOpener(tail);
    RewriteKeepsHead('"', "#{" + tail);
    QuotedAt(s);
  }

  /** How the texts `"#{…"` and `"@…"` are put together. */
  lemma QuotedAt(s: string)
    ensures "\"#{" + s + "\"" == ['"'] + ("#{" + (s + "\""))
    ensures ['"'] + ("@" + (s + "\"")) == "\"@" + s + "\""
    ensures "\"" + ("@" + s) + "\"" == "\"@" + s + "\""
  {
  }
}
