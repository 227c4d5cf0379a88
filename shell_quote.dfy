/**
 * Python's `shlex.quote` and, as its independent partner, a reader for the
 * POSIX shell quoting it relies on (unquoted safe characters, '...' and "...").
 */
module ShellQuote {
  import opened Wrappers
  import opened Text

  /** Characters `shlex.quote` leaves unquoted: ASCII word characters and `@%+=:,./-`. */
  predicate SafeChar(c: char) {
    ('a' <= c <= 'z') || ('A' <= c <= 'Z') || ('0' <= c <= '9') ||
    c in "_@%+=:,./-"
  }

  predicate AllSafe(s: string) {
    forall k | 0 <= k < |s| :: SafeChar(s[k])
  }

  const QuoteEscape: string := "'\"'\"'"

  /** `shlex.quote(s)`. */
  function Quote(s: string): (r: string)
    ensures r != []
    ensures r == s <==> s != [] && AllSafe(s)
  {
    if s == [] then "''"
    else if AllSafe(s) then s
    else
      ReplaceLonger(s);
      "'" + ReplaceAll(s, "'", QuoteEscape) + "'"
  }

  lemma {:induction false} ReplaceLonger(s: string)
    ensures |ReplaceAll(s, "'", QuoteEscape)| >= |s|
    decreases |s|
  {
    if s != [] {
      ReplaceLonger(s[1..]);
    }
  }

  /** The escaping `shlex.quote` applies inside its single quotes, character by character. */
  function Escape(s: string): string {
    if s == [] then []
    else (if s[0] == '\'' then QuoteEscape else [s[0]]) + Escape(s[1..])
  }

  lemma {:induction false} ReplaceIsEscape(s: string)
    ensures ReplaceAll(s, "'", QuoteEscape) == Escape(s)
    decreases |s|
  {
    if s != [] {
      ReplaceIsEscape(s[1..]);
      assert s[..1] == [s[0]];
    }
  }

  function PrependAll(s: string, o: Option<string>): Option<string> {
    if o.Some? then Some(s + o.value) else None
  }

  /**
   * The single word a POSIX shell reads from `w`, or None when `w` is not one
   * literal word (an unquoted special character, an unterminated quote, or a
   * `$`, backquote or backslash inside double quotes, which this reader does not
   * interpret).
   */
  function Unquote(w: string): Option<string>
    decreases |w|, 0
  {
    if w == [] then Some([])
    else if w[0] == '\'' then InQuotes(w[1..], '\'')
    else if w[0] == '"' then InQuotes(w[1..], '"')
    else if SafeChar(w[0]) then PrependAll([w[0]], Unquote(w[1..]))
    else None
  }

  function InQuotes(w: string, q: char): Option<string>
    decreases |w|, 1
  {
    if w == [] then None
    else if w[0] == q then Unquote(w[1..])
    else if q == '"' && w[0] in "$`\\" then None
    else PrependAll([w[0]], InQuotes(w[1..], q))
  }

  lemma PrependStep(c: char, s: string, o: Option<string>)
    ensures PrependAll([c], PrependAll(s, o)) == PrependAll([c] + s, o)
  {
    if o.Some? {
      assert [c] + (s + o.value) == ([c] + s) + o.value;
    }
  }

  lemma {:induction false} UnquoteSafe(s: string, tail: string)
    requires AllSafe(s)
    ensures Unquote(s + tail) == PrependAll(s, Unquote(tail))
    decreases |s|
  {
    if s != [] {
      assert (s + tail)[1..] == s[1..] + tail;
      UnquoteSafe(s[1..], tail);
      PrependStep(s[0], s[1..], Unquote(tail));
      assert [s[0]] + s[1..] == s;
    } else {
      assert s + tail == tail;
      assert PrependAll(s, Unquote(tail)) == Unquote(tail) by {
        if Unquote(tail).Some? { assert s + Unquote(tail).value == Unquote(tail).value; }
      }
    }
  }

  /** Inside single quotes, `'"'"'` closes the quote, quotes one `'` in double quotes and reopens. */
  lemma InQuotesEscapedQuote(rest: string)
    ensures InQuotes("'\"'\"'" + rest, '\'') == PrependAll("'", InQuotes(rest, '\''))
  {
    var w := "'\"'\"'" + rest;
    assert w[1..] == "\"'\"'" + rest;
    assert ("\"'\"'" + rest)[1..] == "'\"'" + rest;
    assert ("'\"'" + rest)[1..] == "\"'" + rest;
    assert ("\"'" + rest)[1..] == "'" + rest;
    assert ("'" + rest)[1..] == rest;
    assert InQuotes(w, '\'') == Unquote("\"'\"'" + rest);
    assert Unquote("\"'\"'" + rest) == InQuotes("'\"'" + rest, '"');
    assert InQuotes("'\"'" + rest, '"') == PrependAll("'", InQuotes("\"'" + rest, '"'));
    assert InQuotes("\"'" + rest, '"') == Unquote("'" + rest);
    assert Unquote("'" + rest) == InQuotes(rest, '\'');
  }

  lemma {:induction false} InQuotesEscape(s: string, tail: string)
    ensures InQuotes(Escape(s) + "'" + tail, '\'') == PrependAll(s, Unquote(tail))
    decreases |s|
  {
    if s == [] {
      assert Escape(s) + "'" + tail == "'" + tail;
      assert ("'" + tail)[1..] == tail;
      assert PrependAll(s, Unquote(tail)) == Unquote(tail) by {
        if Unquote(tail).Some? { assert s + Unquote(tail).value == Unquote(tail).value; }
      }
    } else if s[0] != '\'' {
      var w := Escape(s) + "'" + tail;
      assert w == [s[0]] + (Escape(s[1..]) + "'" + tail);
      assert w[1..] == Escape(s[1..]) + "'" + tail;
      InQuotesEscape(s[1..], tail);
      PrependStep(s[0], s[1..], Unquote(tail));
      assert [s[0]] + s[1..] == s;
    } else {
      var rest := Escape(s[1..]) + "'" + tail;
      var w := Escape(s) + "'" + tail;
      assert w == "'\"'\"'" + rest;
      InQuotesEscapedQuote(rest);
      InQuotesEscape(s[1..], tail);
      PrependStep(s[0], s[1..], Unquote(tail));
      assert [s[0]] + s[1..] == s;
    }
  }

  /** The shell reads a quoted string back as exactly the original string. */
  lemma {:induction false} QuoteRoundTrip(s: string)
    ensures Unquote(Quote(s)) == Some(s)
  {
    if s == [] {
      assert Quote(s)[1..] == "'";
    } else if AllSafe(s) {
      UnquoteSafe(s, []);
      assert s + [] == s;
    } else {
      ReplaceIsEscape(s);
      var w := "'" + Escape(s) + "'";
      assert w[1..] == Escape(s) + "'" + [];
      InQuotesEscape(s, []);
      assert s + [] == s;
    }
  }
}
