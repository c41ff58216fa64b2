/** The JavaScript string operations the storefront script relies on:
    `String.prototype.trim`, `split` with a one-character separator,
    `includes`, `toLowerCase` on ASCII letters and `Number.prototype.toString`
    for natural numbers. */
module JsText {

  /** White space and line terminators, the characters `trim` removes
      (WhiteSpace and LineTerminator of ECMAScript 2023, sections 12.2 and 12.3). */
  predicate IsSpace(c: char) {
    c == '\t' || c == '\n' || c == '\U{000B}' || c == '\U{000C}' || c == '\r' || c == ' '
    || c == '\U{00A0}' || c == '\U{1680}' || ('\U{2000}' <= c <= '\U{200A}')
    || c == '\U{2028}' || c == '\U{2029}' || c == '\U{202F}' || c == '\U{205F}'
    || c == '\U{3000}' || c == '\U{FEFF}'
  }

  /** Every character of `s` is white space. */
  predicate Blank(s: string) {
    forall k :: 0 <= k < |s| ==> IsSpace(s[k])
  }

  /** `s` neither starts nor ends with white space. */
  predicate Trimmed(s: string) {
    s == [] || (!IsSpace(s[0]) && !IsSpace(s[|s| - 1]))
  }

  /** Drops leading white space: the result is a suffix of `s` and what was dropped is blank. */
  function TrimStart(s: string): (r: string)
    ensures |r| <= |s| && r == s[|s| - |r|..]
    ensures r == [] || !IsSpace(r[0])
    ensures Blank(s[..|s| - |r|])
  {
    if s != [] && IsSpace(s[0]) then TrimStart(s[1..]) else s
  }

  /** Drops trailing white space: the result is a prefix of `s` and what was dropped is blank. */
  function TrimEnd(s: string): (r: string)
    ensures |r| <= |s| && r == s[..|r|]
    ensures r == [] || !IsSpace(r[|r| - 1])
    ensures Blank(s[|r|..])
  {
    if s != [] && IsSpace(s[|s| - 1]) then TrimEnd(s[..|s| - 1]) else s
  }

  /** The number of white-space characters at the front of `s`. */
  function Leading(s: string): (n: nat)
    ensures n <= |s| && Blank(s[..n])
    ensures n < |s| ==> !IsSpace(s[n])
  {
    |s| - |TrimStart(s)|
  }

  /** `String.prototype.trim`. */
  function Trim(s: string): (r: string)
    ensures Trimmed(r)
    ensures r == [] <==> Blank(s)
    ensures |r| <= |s|
    ensures Trimmed(s) ==> r == s
  {
    var t := TrimStart(s);
    var r := TrimEnd(t);
    CutBoth(s, t, r);
    r
  }

  /** What `trim` keeps: the text of `s` after its leading white space, up
      to a blank suffix. With `Trimmed` this leaves exactly one candidate. */
  lemma TrimCuts(s: string)
    ensures Leading(s) + |Trim(s)| <= |s|
    ensures Trim(s) == s[Leading(s)..Leading(s) + |Trim(s)|]
    ensures Blank(s[Leading(s) + |Trim(s)|..])
  {
    var t := TrimStart(s);
    var r := TrimEnd(t);
    assert Trim(s) == r && Leading(s) == |s| - |t|;
    CutSlice(s, |s| - |t|, t, r);
  }

  /** Cutting a prefix of `i` characters and then a blank suffix leaves a
      slice of `s` with a blank suffix after it. */
  lemma CutSlice(s: string, i: nat, t: string, r: string)
    requires i <= |s| && t == s[i..]
    requires |r| <= |t| && r == t[..|r|] && Blank(t[|r|..])
    ensures i + |r| <= |s| && r == s[i..i + |r|] && Blank(s[i + |r|..])
  {
    assert s[i + |r|..] == t[|r|..];
  }

  /** Cutting a blank prefix from `s` and then a blank suffix leaves a slice
      of `s` between two blank ends, trimmed, and empty exactly when `s` is blank. */
  lemma CutBoth(s: string, t: string, r: string)
    requires |t| <= |s| && t == s[|s| - |t|..] && Blank(s[..|s| - |t|]) && (t == [] || !IsSpace(t[0]))
    requires |r| <= |t| && r == t[..|r|] && Blank(t[|r|..]) && (r == [] || !IsSpace(r[|r| - 1]))
    ensures |s| - |t| + |r| <= |s| && r == s[|s| - |t|..|s| - |t| + |r|] && Blank(s[|s| - |t| + |r|..])
    ensures Trimmed(r)
    ensures r == [] <==> Blank(s)
    ensures |r| <= |s|
    ensures Trimmed(s) ==> r == s
  {
    CutSlice(s, |s| - |t|, t, r);
    assert r != [] ==> !IsSpace(r[0]) by {
      if r != [] { assert r[0] == t[0]; }
    }
    assert r == [] ==> Blank(s) by {
      if r == [] {
        assert t == [];
        forall k | 0 <= k < |s| ensures IsSpace(s[k]) {
          assert s[k] == s[..|s| - |t|][k];
        }
      }
    }
  }

  /** Trimming twice is trimming once. */
  lemma TrimIdempotent(s: string)
    ensures Trim(Trim(s)) == Trim(s)
  {
  }

  /** `toLowerCase`, on the ASCII letters A to Z. */
  function ToLower(s: string): (r: string)
    ensures |r| == |s|
    ensures forall k :: 0 <= k < |r| ==> !('A' <= r[k] <= 'Z')
    ensures forall k :: 0 <= k < |r| ==> ('A' <= s[k] <= 'Z' || r[k] == s[k])
    ensures forall k :: 0 <= k < |r| && 'A' <= s[k] <= 'Z' ==>
              'a' <= r[k] <= 'z' && r[k] as int - 'a' as int == s[k] as int - 'A' as int
    ensures forall k :: 0 <= k < |r| ==> (IsSpace(r[k]) <==> IsSpace(s[k]))
  {
    seq(|s|, k requires 0 <= k < |s| => LowerChar(s[k]))
  }

  /** One character of `toLowerCase`. */
  function LowerChar(c: char): (d: char)
    ensures !('A' <= d <= 'Z')
    ensures 'A' <= c <= 'Z' || d == c
    ensures 'A' <= c <= 'Z' ==> 'a' <= d <= 'z' && d as int - 'a' as int == c as int - 'A' as int
    ensures IsSpace(d) <==> IsSpace(c)
  {
    if 'A' <= c <= 'Z' then (c as int + 32) as char else c
  }

  // ---------------------------------------------------------------------------
  // split / join

  /** The position of the first `c` in `s`. */
  function IndexOf(s: string, c: char): (i: nat)
    requires c in s
    ensures i < |s| && s[i] == c && c !in s[..i]
  {
    if s[0] == c then 0 else 1 + IndexOf(s[1..], c)
  }

  /** The inverse of `Split`: the pieces with `sep` between each two neighbours. */
  function Join(parts: seq<string>, sep: char): string {
    if parts == [] then []
    else if |parts| == 1 then parts[0]
    else parts[0] + [sep] + Join(parts[1..], sep)
  }

  /** `s.split(sep)` for a one-character separator: the maximal pieces of `s`
      that do not contain `sep`, always at least one (`"".split(",")` is `[""]`). */
  function Split(s: string, sep: char): (r: seq<string>)
    ensures |r| >= 1
    ensures forall k :: 0 <= k < |r| ==> sep !in r[k]
    ensures Join(r, sep) == s
    decreases |s|
  {
    if sep !in s then [s]
    else
      var i := IndexOf(s, sep);
      var rest := Split(s[i + 1..], sep);
      assert s == s[..i] + [sep] + s[i + 1..];
      [s[..i]] + rest
  }

  /** Joining one more piece puts one more separator in front of it. */
  lemma {:induction false} JoinSnoc(parts: seq<string>, last: string, sep: char)
    requires |parts| >= 1
    ensures Join(parts + [last], sep) == Join(parts, sep) + [sep] + last
    decreases |parts|
  {
    if |parts| == 1 {
      assert parts + [last] == [parts[0], last];
    } else {
      assert (parts + [last])[1..] == parts[1..] + [last];
      JoinSnoc(parts[1..], last, sep);
    }
  }

  /** Splitting a join gives back the pieces, when none of them holds the separator. */
  lemma {:induction false} SplitJoin(parts: seq<string>, sep: char)
    requires |parts| >= 1
    requires forall k :: 0 <= k < |parts| ==> sep !in parts[k]
    ensures Split(Join(parts, sep), sep) == parts
    decreases |parts|
  {
    if |parts| > 1 {
      var s := Join(parts, sep);
      assert s == parts[0] + [sep] + Join(parts[1..], sep);
      assert sep in s by { assert s[|parts[0]|] == sep; }
      var i := IndexOf(s, sep);
      assert i == |parts[0]|;
      assert s[..i] == parts[0];
      assert s[i + 1..] == Join(parts[1..], sep);
      SplitJoin(parts[1..], sep);
    }
  }

  /** A text without the separator followed by the separator: its split starts with that text. */
  lemma SplitCons(head: string, sep: char, tail: string)
    requires sep !in head
    ensures Split(head + [sep] + tail, sep) == [head] + Split(tail, sep)
  {
    var parts := [head] + Split(tail, sep);
    assert parts[1..] == Split(tail, sep);
    assert Join(parts, sep) == head + [sep] + tail;
    SplitJoin(parts, sep);
  }

  /** One more separator and piece at the end of a text add one more piece at the end of its split. */
  lemma SplitSnoc(s: string, sep: char, last: string)
    requires sep !in last
    ensures Split(s + [sep] + last, sep) == Split(s, sep) + [last]
  {
    var parts := Split(s, sep);
    JoinSnoc(parts, last, sep);
    SplitJoin(parts + [last], sep);
  }

  // ---------------------------------------------------------------------------
  // substrings

  /** `p` occurs in `s` starting at index `i`. */
  predicate OccursAt(s: string, p: string, i: int) {
    0 <= i && i + |p| <= |s| && s[i..i + |p|] == p
  }

  /** Whether `p` occurs in `s` at or after index `from`. */
  function ContainsFrom(s: string, p: string, from: nat): (r: bool)
    requires from <= |s|
    ensures r <==> exists i :: from <= i <= |s| && OccursAt(s, p, i)
    decreases |s| - from
  {
    if OccursAt(s, p, from) then true
    else if from == |s| then false
    else
      var r := ContainsFrom(s, p, from + 1);
      assert !r ==> forall i :: from <= i <= |s| ==> !OccursAt(s, p, i) by {
        if !r {
          forall i | from <= i <= |s| ensures !OccursAt(s, p, i) {
            if i > from { assert from + 1 <= i; }
          }
        }
      }
      r
  }

  /** `s.includes(p)`. */
  function Contains(s: string, p: string): (r: bool)
    ensures r <==> exists i :: 0 <= i <= |s| && OccursAt(s, p, i)
  {
    ContainsFrom(s, p, 0)
  }

  // ---------------------------------------------------------------------------
  // decimal digits

  predicate IsDigit(c: char) { '0' <= c <= '9' }

  /** Every character is a decimal digit. */
  predicate AllDigits(s: string) {
    forall k :: 0 <= k < |s| ==> IsDigit(s[k])
  }

  /** The digits of a decimal numeral: no leading zero except for "0" itself. */
  predicate Canonical(s: string) {
    s != [] && AllDigits(s) && (s[0] == '0' ==> |s| == 1)
  }

  /** The value of a string of decimal digits, most significant first. */
  function ValueOf(s: string): nat
    requires AllDigits(s)
  {
    if s == [] then 0 else 10 * ValueOf(s[..|s| - 1]) + (s[|s| - 1] as int - '0' as int)
  }

  /** `n.toString()` for a natural number. */
  function DecimalDigits(n: nat): (r: string)
    ensures Canonical(r)
    ensures ValueOf(r) == n
  {
    var d := [(n % 10 + '0' as int) as char];
    if n < 10 then d
    else
      var r := DecimalDigits(n / 10) + d;
      assert r[..|r| - 1] == DecimalDigits(n / 10);
      r
  }

  /** Two numerals with the same value have the same canonical form:
      `DecimalDigits` is the inverse of `ValueOf` on canonical numerals. */
  lemma {:induction false} DigitsOfValue(s: string)
    requires Canonical(s)
    ensures DecimalDigits(ValueOf(s)) == s
    decreases |s|
  {
    var v := ValueOf(s);
    var last := s[|s| - 1] as int - '0' as int;
    if |s| == 1 {
      assert s[..0] == [];
    } else {
      var p := s[..|s| - 1];
      assert Canonical(p) by { assert p[0] == s[0]; }
      assert ValueOf(p) > 0 by { LeadingDigitPositive(p); }
      DigitsOfValue(p);
      assert v / 10 == ValueOf(p) && v % 10 == last;
      assert s == p + [s[|s| - 1]];
    }
  }

  /** A canonical numeral of two or more digits has a positive value. */
  lemma {:induction false} LeadingDigitPositive(s: string)
    requires Canonical(s) && s[0] != '0'
    ensures ValueOf(s) > 0
    decreases |s|
  {
    if |s| > 1 {
      var p := s[..|s| - 1];
      assert p[0] == s[0];
      LeadingDigitPositive(p);
    }
  }
}
