/** The one-line rendering of a response body that an error message may carry. */
module Snippet {
  import opened Machine
  import opened Wrappers

  const BODY_SNIPPET_MAX_CHARS: nat := 500
  const MARKER := "... (truncated)"

  function Truncate(body: string): string {
    if |body| > BODY_SNIPPET_MAX_CHARS then body[..BODY_SNIPPET_MAX_CHARS] + MARKER else body
  }

  /** Every occurrence of one character replaced, left to right. */
  function Replace(s: string, c: char, with: string): string {
    if s == [] then [] else (if s[0] == c then with else [s[0]]) + Replace(s[1..], c, with)
  }

  /** The four replacements, one after the other. */
  function FourReplacements(s: string): string {
    Replace(Replace(Replace(Replace(s, '\\', "\\\\"), '\r', "\\r"), '\n', "\\n"), '\t', "\\t")
  }

  function TruncateBodySnippet(body: string): string {
    FourReplacements(Truncate(body))
  }

  function EscapeChar(c: char): string {
    match c
    case '\\' => "\\\\"
    case '\r' => "\\r"
    case '\n' => "\\n"
    case '\t' => "\\t"
    case _ => [c]
  }

  /** The same substitution in one pass over the characters. */
  function Escape(s: string): string {
    if s == [] then [] else EscapeChar(s[0]) + Escape(s[1..])
  }

  function UnescapeChar(c: char): char {
    match c
    case 'r' => '\r'
    case 'n' => '\n'
    case 't' => '\t'
    case _ => c
  }

  function Unescape(s: string): string {
    if s == [] then []
    else if s[0] == '\\' && |s| > 1 then [UnescapeChar(s[1])] + Unescape(s[2..])
    else [s[0]] + Unescape(s[1..])
  }

  lemma {:induction false} ReplaceConcat(a: string, b: string, c: char, with: string)
    ensures Replace(a + b, c, with) == Replace(a, c, with) + Replace(b, c, with)
  {
    if a == [] {
      assert a + b == b;
    } else {
      ReplaceConcat(a[1..], b, c, with);
      assert (a + b)[0] == a[0] && (a + b)[1..] == a[1..] + b;
      Append3(if a[0] == c then with else [a[0]], Replace(a[1..], c, with), Replace(b, c, with));
    }
  }

  lemma ReplaceOne(a: char, c: char, with: string)
    ensures Replace([a], c, with) == if a == c then with else [a]
  {
    assert Replace([a][1..], c, with) == [];
  }

  lemma {:induction false} ReplaceAbsent(s: string, c: char, with: string)
    requires c !in s
    ensures Replace(s, c, with) == s
  {
    if s != [] {
      ReplaceAbsent(s[1..], c, with);
    }
  }

  lemma OneCharFourReplacements(c: char)
    ensures FourReplacements([c]) == EscapeChar(c)
  {
    ReplaceOne(c, '\\', "\\\\");
    ReplaceOne(c, '\r', "\\r");
    ReplaceOne(c, '\n', "\\n");
    ReplaceOne(c, '\t', "\\t");
    ReplaceAbsent("\\\\", '\r', "\\r");
    ReplaceAbsent("\\\\", '\n', "\\n");
    ReplaceAbsent("\\\\", '\t', "\\t");
    ReplaceAbsent("\\r", '\n', "\\n");
    ReplaceAbsent("\\r", '\t', "\\t");
    ReplaceAbsent("\\n", '\t', "\\t");
  }

  /** The order of the four replacements is right: together they are one simultaneous substitution. */
  lemma {:induction false} EscapingIsOnePass(s: string)
    ensures FourReplacements(s) == Escape(s)
  {
    if s != [] {
      assert s == [s[0]] + s[1..];
      var s1 := Replace(s[1..], '\\', "\\\\");
      var s2 := Replace(s1, '\r', "\\r");
      var s3 := Replace(s2, '\n', "\\n");
      var c1 := Replace([s[0]], '\\', "\\\\");
      var c2 := Replace(c1, '\r', "\\r");
      var c3 := Replace(c2, '\n', "\\n");
      ReplaceConcat([s[0]], s[1..], '\\', "\\\\");
      ReplaceConcat(c1, s1, '\r', "\\r");
      ReplaceConcat(c2, s2, '\n', "\\n");
      ReplaceConcat(c3, s3, '\t', "\\t");
      OneCharFourReplacements(s[0]);
      EscapingIsOnePass(s[1..]);
    }
  }

  lemma {:induction false} EscapeRoundTrip(s: string)
    ensures Unescape(Escape(s)) == s
  {
    if s != [] {
      EscapeRoundTrip(s[1..]);
      var e := EscapeChar(s[0]);
      assert Escape(s) == e + Escape(s[1..]) && Escape(s)[|e|..] == Escape(s[1..]);
      assert s == [s[0]] + s[1..];
    }
  }

  lemma {:induction false} EscapeIsOneLine(s: string)
    ensures forall i :: 0 <= i < |Escape(s)| ==> Escape(s)[i] !in {'\r', '\n', '\t'}
  {
    if s != [] {
      EscapeIsOneLine(s[1..]);
    }
  }

  /** A body of at most 500 characters stays as it is; a longer one is cut there and marked. */
  lemma TruncatedIff(body: string)
    ensures |body| <= 500 ==> Truncate(body) == body
    ensures |body| > 500 ==> Truncate(body) == body[..500] + "... (truncated)"
  {
  }

  /** What the error message carries: one line, from which the truncated body can be read back. */
  lemma SnippetIsFaithful(body: string)
    ensures Unescape(TruncateBodySnippet(body)) == Truncate(body)
    ensures forall i :: 0 <= i < |TruncateBodySnippet(body)| ==>
              TruncateBodySnippet(body)[i] !in {'\r', '\n', '\t'}
    ensures |Truncate(body)| <= BODY_SNIPPET_MAX_CHARS + |MARKER|
    ensures Truncate(body)[..Min(|body|, BODY_SNIPPET_MAX_CHARS)] == body[..Min(|body|, BODY_SNIPPET_MAX_CHARS)]
  {
    EscapingIsOnePass(Truncate(body));
    EscapeRoundTrip(Truncate(body));
    EscapeIsOneLine(Truncate(body));
  }
}
