/** The two escaping helpers of the product and cart markup:
    `escapeHtml` (script.js:521-525) and `escapeJs` (script.js:517-519). */
module Escape {

  /** `s.replace(/c/g, rep)` for a single character `c`. */
  function ReplaceChar(s: string, c: char, rep: string): (r: string)
    ensures c !in s ==> r == s
    ensures forall d :: d in r ==> (d in s && d != c) || d in rep
  {
    if s == [] then []
    else (if s[0] == c then rep else [s[0]]) + ReplaceChar(s[1..], c, rep)
  }

  lemma {:induction false} ReplaceCharConcat(a: string, b: string, c: char, rep: string)
    ensures ReplaceChar(a + b, c, rep) == ReplaceChar(a, c, rep) + ReplaceChar(b, c, rep)
    decreases |a|
  {
    if a == [] {
      assert a + b == b;
    } else {
      assert (a + b)[1..] == a[1..] + b;
      ReplaceCharConcat(a[1..], b, c, rep);
    }
  }

  // ---------------------------------------------------------------------------
  // escapeHtml

  /** `escapeHtml(s)`: three passes, '&' first, then '<', then '>'. */
  function EscapeHtml(s: string): (r: string)
    ensures '<' !in r && '>' !in r
  {
    ReplaceChar(ReplaceChar(ReplaceChar(s, '&', "&amp;"), '<', "&lt;"), '>', "&gt;")
  }

  /** What one character becomes in `escapeHtml`. */
  function HtmlEntity(c: char): string {
    if c == '&' then "&amp;" else if c == '<' then "&lt;" else if c == '>' then "&gt;" else [c]
  }

  /** The three passes act character by character: '&' is replaced before
      the entities that start with '&' are introduced, so none is escaped twice. */
  lemma EscapeHtmlCons(c: char, s: string)
    ensures EscapeHtml([c] + s) == HtmlEntity(c) + EscapeHtml(s)
  {
    var t := [c] + s;
    assert t[0] == c && t[1..] == s;
    var p1 := if c == '&' then "&amp;" else [c];
    var s1 := ReplaceChar(s, '&', "&amp;");
    assert ReplaceChar(t, '&', "&amp;") == p1 + s1;
    ReplaceCharConcat(p1, s1, '<', "&lt;");
    var p2 := ReplaceChar(p1, '<', "&lt;");
    var s2 := ReplaceChar(s1, '<', "&lt;");
    ReplaceCharConcat(p2, s2, '>', "&gt;");
    EntityPasses(c);
  }

  /** The three passes on one character give its entity. */
  lemma EntityPasses(c: char)
    ensures ReplaceChar(ReplaceChar(if c == '&' then "&amp;" else [c], '<', "&lt;"), '>', "&gt;") == HtmlEntity(c)
  {
    if c == '&' {
      assert '<' !in "&amp;" && '>' !in "&amp;";
    } else {
      ReplaceSingle(c, '<', "&lt;");
      if c == '<' {
        assert '>' !in "&lt;";
      } else {
        ReplaceSingle(c, '>', "&gt;");
      }
    }
  }

  /** Replacing in a one-character string. */
  lemma ReplaceSingle(c: char, x: char, rep: string)
    ensures ReplaceChar([c], x, rep) == if c == x then rep else [c]
  {
    assert [c][1..] == [];
  }

  /** Reads the entities `escapeHtml` writes back as characters; every other
      character stands for itself. */
  function UnescapeHtml(t: string): string
    decreases |t|
  {
    if t == [] then []
    else if |t| >= 5 && t[..5] == "&amp;" then "&" + UnescapeHtml(t[5..])
    else if |t| >= 4 && t[..4] == "&lt;" then "<" + UnescapeHtml(t[4..])
    else if |t| >= 4 && t[..4] == "&gt;" then ">" + UnescapeHtml(t[4..])
    else [t[0]] + UnescapeHtml(t[1..])
  }

  /** An entity written by `escapeHtml` reads back as its character. */
  lemma UnescapeEntity(c: char, rest: string)
    ensures UnescapeHtml(HtmlEntity(c) + rest) == [c] + UnescapeHtml(rest)
  {
    if c == '&' {
      UnescapeAmp(rest);
    } else if c == '<' {
      UnescapeLt(rest);
    } else if c == '>' {
      UnescapeGt(rest);
    } else {
      UnescapePlain(c, rest);
    }
  }

  lemma UnescapeAmp(rest: string)
    ensures UnescapeHtml("&amp;" + rest) == "&" + UnescapeHtml(rest)
  {
    var t := "&amp;" + rest;
    assert t[..5] == "&amp;" && t[5..] == rest;
  }

  lemma UnescapeLt(rest: string)
    ensures UnescapeHtml("&lt;" + rest) == "<" + UnescapeHtml(rest)
  {
    var t := "&lt;" + rest;
    assert t[1] == 'l';
    assert |t| >= 5 ==> t[..5] != "&amp;" by {
      if |t| >= 5 { assert t[..5][1] == 'l'; }
    }
    assert t[..4] == "&lt;" && t[4..] == rest;
  }

  lemma UnescapeGt(rest: string)
    ensures UnescapeHtml("&gt;" + rest) == ">" + UnescapeHtml(rest)
  {
    var t := "&gt;" + rest;
    assert t[1] == 'g';
    assert |t| >= 5 ==> t[..5] != "&amp;" by {
      if |t| >= 5 { assert t[..5][1] == 'g'; }
    }
    assert t[..4] != "&lt;" by {
      assert t[..4][1] == 'g';
    }
    assert t[..4] == "&gt;" && t[4..] == rest;
  }

  lemma UnescapePlain(c: char, rest: string)
    requires c != '&'
    ensures UnescapeHtml([c] + rest) == [c] + UnescapeHtml(rest)
  {
    var t := [c] + rest;
    assert t[0] == c;
    assert |t| >= 5 ==> t[..5] != "&amp;" by {
      if |t| >= 5 { assert t[..5][0] == c; }
    }
    assert |t| >= 4 ==> t[..4] != "&lt;" && t[..4] != "&gt;" by {
      if |t| >= 4 { assert t[..4][0] == c; }
    }
    assert t[1..] == rest;
  }

  /** What the browser shows for escaped text is the text itself. */
  lemma {:induction false} UnescapeEscapeHtml(s: string)
    ensures UnescapeHtml(EscapeHtml(s)) == s
    decreases |s|
  {
    if s != [] {
      var c := s[0];
      assert s == [c] + s[1..];
      EscapeHtmlCons(c, s[1..]);
      UnescapeEntity(c, EscapeHtml(s[1..]));
      UnescapeEscapeHtml(s[1..]);
    }
  }

  // ---------------------------------------------------------------------------
  // escapeJs

  /** `escapeJs(s)`: a quote becomes backslash-quote, a line feed a space. */
  function EscapeJs(s: string): (r: string)
    ensures '\n' !in r
  {
    ReplaceChar(ReplaceChar(s, '\'', "\\'"), '\n', " ")
  }

  /** `escapeJs` with the backslash escaped first, as a single-quoted
      JavaScript literal needs. */
  function EscapeJsFixed(s: string): (r: string)
    ensures '\n' !in r
  {
    ReplaceChar(ReplaceChar(ReplaceChar(s, '\\', "\\\\"), '\'', "\\'"), '\n', " ")
  }

  /** How the text between the quotes of a single-quoted JavaScript string
      literal reads (ECMAScript 2023, section 12.9.4). */
  datatype Reading = Text(value: string) | Broken | Unmodelled

  function Prepend(c: char, r: Reading): Reading {
    if r.Text? then Text([c] + r.value) else r
  }

  /** The character a single-character escape stands for. */
  function EscapedChar(e: char): char {
    if e == 'n' then '\n' else if e == 't' then '\t' else if e == 'r' then '\r'
    else if e == 'b' then '\U{0008}' else if e == 'f' then '\U{000C}' else if e == 'v' then '\U{000B}'
    else e
  }

  /** The escapes this model does not read: hexadecimal, Unicode, numeric
      and line continuations. */
  predicate OtherEscape(e: char) {
    e == 'x' || e == 'u' || ('0' <= e <= '9') || e == '\n' || e == '\r' || e == '\U{2028}' || e == '\U{2029}'
  }

  /** Reads the body of a single-quoted literal: an unescaped quote or line
      break ends the literal too early, a final lone backslash escapes the
      closing quote (both Broken); hexadecimal, Unicode, numeric and
      line-continuation escapes are outside this model (Unmodelled). */
  function ReadQuoted(t: string): (r: Reading)
    decreases |t|
  {
    if t == [] then Text([])
    else if t[0] == '\'' || t[0] == '\n' || t[0] == '\r' then Broken
    else if t[0] == '\\' then
      if |t| == 1 then Broken
      else if OtherEscape(t[1]) then Unmodelled
      else Prepend(EscapedChar(t[1]), ReadQuoted(t[2..]))
    else Prepend(t[0], ReadQuoted(t[1..]))
  }

  /** What `escapeJs` evidently aims at: the name itself, line feeds as spaces. */
  function Flattened(s: string): string {
    ReplaceChar(s, '\n', " ")
  }

  /** As written, a name ending in a backslash breaks the literal
      (`changeQty('a\', -1)` never closes), and a backslash before 'n'
      turns into a line feed. */
  lemma EscapeJsBackslash()
    ensures ReadQuoted(EscapeJs("a\\")) == Broken
    ensures ReadQuoted(EscapeJs("\\n")) == Text("\n") != Text(Flattened("\\n"))
  {
    assert EscapeJs("a\\") == "a\\";
    assert ReadQuoted("\\") == Broken;
    assert EscapeJs("\\n") == "\\n";
    assert ReadQuoted("\\n") == Prepend('\n', ReadQuoted([]));
    assert Flattened("\\n") == "\\n";
  }

  /** What one character becomes in `EscapeJsFixed`. */
  function JsEscape(c: char): string {
    if c == '\\' then "\\\\" else if c == '\'' then "\\'" else if c == '\n' then " " else [c]
  }

  lemma EscapeJsFixedCons(c: char, s: string)
    ensures EscapeJsFixed([c] + s) == JsEscape(c) + EscapeJsFixed(s)
  {
    var t := [c] + s;
    assert t[0] == c && t[1..] == s;
    var p1 := if c == '\\' then "\\\\" else [c];
    var s1 := ReplaceChar(s, '\\', "\\\\");
    assert ReplaceChar(t, '\\', "\\\\") == p1 + s1;
    ReplaceCharConcat(p1, s1, '\'', "\\'");
    var p2 := if c == '\'' then "\\'" else p1;
    assert ReplaceChar(p1, '\'', "\\'") == p2 by {
      if c == '\\' { assert '\'' !in p1; } else { assert p1[1..] == []; }
    }
    var s2 := ReplaceChar(s1, '\'', "\\'");
    ReplaceCharConcat(p2, s2, '\n', " ");
    assert ReplaceChar(p2, '\n', " ") == JsEscape(c) by {
      if c == '\\' || c == '\'' { assert '\n' !in p2; } else { assert p2 == [c] && p2[1..] == []; }
    }
  }

  /** `escapeJs` as written acts character by character; on every character
      but the backslash it agrees with the corrected escaping. */
  lemma EscapeJsCons(c: char, s: string)
    requires c != '\\'
    ensures EscapeJs([c] + s) == JsEscape(c) + EscapeJs(s)
  {
    var t := [c] + s;
    assert t[0] == c && t[1..] == s;
    var p1 := if c == '\'' then "\\'" else [c];
    var s1 := ReplaceChar(s, '\'', "\\'");
    assert ReplaceChar(t, '\'', "\\'") == p1 + s1;
    ReplaceCharConcat(p1, s1, '\n', " ");
    assert ReplaceChar(p1, '\n', " ") == JsEscape(c) by {
      if c == '\'' { assert '\n' !in p1; } else { assert p1 == [c] && p1[1..] == []; }
    }
  }

  /** One escaped character reads back as itself (a line feed as a space). */
  lemma ReadEscaped(c: char, rest: string)
    requires c != '\r'
    ensures ReadQuoted(JsEscape(c) + rest) == Prepend(if c == '\n' then ' ' else c, ReadQuoted(rest))
  {
    var t := JsEscape(c) + rest;
    if c == '\\' || c == '\'' {
      assert t[0] == '\\' && t[1] == c && t[2..] == rest;
    } else {
      assert t[0] == (if c == '\n' then ' ' else c) && t[1..] == rest;
    }
  }

  /** With the backslash escaped, every name without a carriage return reads
      back from the literal as itself, line feeds flattened to spaces. */
  lemma {:induction false} EscapeJsFixedReadsBack(s: string)
    requires '\r' !in s
    ensures ReadQuoted(EscapeJsFixed(s)) == Text(Flattened(s))
    decreases |s|
  {
    if s != [] {
      var c := s[0];
      assert s == [c] + s[1..];
      EscapeJsFixedCons(c, s[1..]);
      ReadEscaped(c, EscapeJsFixed(s[1..]));
      EscapeJsFixedReadsBack(s[1..]);
      assert Flattened(s) == (if c == '\n' then " " else [c]) + Flattened(s[1..]);
    }
  }

  /** What `escapeJs` as written does protect: a name with no backslash and
      no carriage return reads back from the literal as itself, line feeds
      flattened to spaces, every quote escaped. */
  lemma {:induction false} EscapeJsReadsBack(s: string)
    requires '\\' !in s && '\r' !in s
    ensures ReadQuoted(EscapeJs(s)) == Text(Flattened(s))
    decreases |s|
  {
    if s != [] {
      var c := s[0];
      assert s == [c] + s[1..];
      EscapeJsCons(c, s[1..]);
      ReadEscaped(c, EscapeJs(s[1..]));
      EscapeJsReadsBack(s[1..]);
      assert Flattened(s) == (if c == '\n' then " " else [c]) + Flattened(s[1..]);
    }
  }
}
