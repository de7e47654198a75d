/**
 * The Python `str` built-ins that the process server relies on:
 * `isspace`, `strip`, `split()` (no separator), `lower`, `sep.join`,
 * `split(sep)` (only used here to state what `join` produces) and `repr`.
 * Strings are sequences of Unicode scalar values. Python strings may also
 * hold lone surrogates, which text decoded with `errors='ignore'` never
 * contains.
 */
module PyStr {

  /** Python's `str.isspace()` for one character: the 29 code points whose
      bidirectional class is WS, B or S, or whose category is Zs. */
  predicate IsSpace(c: char) {
    || ('\t' <= c <= '\r')
    || ('\U{1C}' <= c <= ' ')
    || c == '\U{85}' || c == '\U{A0}' || c == '\U{1680}'
    || ('\U{2000}' <= c <= '\U{200A}')
    || c == '\U{2028}' || c == '\U{2029}' || c == '\U{202F}' || c == '\U{205F}'
    || c == '\U{3000}'
  }

  predicate AllSpace(s: string) {
    forall i :: 0 <= i < |s| ==> IsSpace(s[i])
  }

  /** A word `split()` can return: non-empty and free of whitespace. */
  predicate IsToken(w: string) {
    |w| > 0 && forall i :: 0 <= i < |w| ==> !IsSpace(w[i])
  }

  // ---------------------------------------------------------------------
  // strip()

  /** `s.lstrip()`: leading whitespace removed. The result is no longer
      than `s` and does not start with whitespace. */
  function LStrip(s: string): (r: string)
    ensures |r| <= |s|
    ensures r == [] || !IsSpace(r[0])
  {
    if |s| > 0 && IsSpace(s[0]) then LStrip(s[1..]) else s
  }

  /** `s.rstrip()`: trailing whitespace removed. The result is no longer
      than `s` and does not end with whitespace. */
  function RStrip(s: string): (r: string)
    ensures |r| <= |s|
    ensures r == [] || !IsSpace(r[|r| - 1])
  {
    if |s| > 0 && IsSpace(s[|s| - 1]) then RStrip(s[..|s| - 1]) else s
  }

  /** `s.strip()`: whitespace at neither end. */
  function Strip(s: string): (r: string)
    ensures |r| <= |s|
    ensures r == [] || (!IsSpace(r[0]) && !IsSpace(r[|r| - 1]))
  {
    var l := LStrip(s);
    RStripSpec(l);
    RStrip(l)
  }

  // ---------------------------------------------------------------------
  // split()

  /** Length of the maximal whitespace-free prefix of `s`. */
  function TokenEnd(s: string): (n: nat)
    ensures n <= |s|
    ensures forall i :: 0 <= i < n ==> !IsSpace(s[i])
    ensures n < |s| ==> IsSpace(s[n])
  {
    if |s| == 0 || IsSpace(s[0]) then 0 else 1 + TokenEnd(s[1..])
  }

  /** `s.split()`: the maximal runs of non-whitespace characters, in order.
      Every word is a token, and there are none exactly when `s` is blank. */
  function Split(s: string): (r: seq<string>)
    ensures forall k :: 0 <= k < |r| ==> IsToken(r[k])
    ensures r == [] <==> AllSpace(s)
    decreases |s|
  {
    if |s| == 0 then []
    else if IsSpace(s[0]) then Split(s[1..])
    else
      var n := TokenEnd(s);
      [s[..n]] + Split(s[n..])
  }

  // ---------------------------------------------------------------------
  // lower()

  function LowerChar(c: char): char {
    if 'A' <= c <= 'Z' then (c as int + 32) as char else c
  }

  /** `s.lower()` on the ASCII letters: each capital becomes its small
      letter and every other character is kept. */
  function Lower(s: string): (r: string)
    ensures |r| == |s|
    ensures forall i :: 0 <= i < |s| && 'A' <= s[i] <= 'Z' ==> r[i] as int == s[i] as int + 32
    ensures forall i :: 0 <= i < |s| && !('A' <= s[i] <= 'Z') ==> r[i] == s[i]
  {
    seq(|s|, i requires 0 <= i < |s| => LowerChar(s[i]))
  }

  /** No capital ASCII letter. */
  predicate NoCapitals(v: string) {
    forall i :: 0 <= i < |v| ==> !('A' <= v[i] <= 'Z')
  }

  /** `w` spells `v` up to the case of ASCII letters: each character of `w`
      is the one of `v` or, where `v` has a small letter, its capital. */
  predicate SameUpToCase(w: string, v: string) {
    && |w| == |v|
    && forall i :: 0 <= i < |w| ==>
         w[i] == v[i] || ('a' <= v[i] <= 'z' && w[i] as int == v[i] as int - 32)
  }

  // ---------------------------------------------------------------------
  // sep.join(parts) and s.split(c)

  /** `sep.join(parts)`: the parts with `sep` between neighbours and no
      separator before the first or after the last; so it starts with the
      first part. */
  function Join(parts: seq<string>, sep: string): (r: string)
    ensures |parts| > 0 ==> parts[0] <= r
  {
    if |parts| == 0 then ""
    else if |parts| == 1 then parts[0]
    else parts[0] + sep + Join(parts[1..], sep)
  }

  /** `s.split(c)` for a one-character separator: the pieces between the
      occurrences of `c`; there is always at least one piece. */
  function SplitAt(s: string, c: char): (r: seq<string>)
    ensures |r| >= 1
    ensures forall k :: 0 <= k < |r| ==> c !in r[k]
  {
    if |s| == 0 then [""]
    else
      var rest := SplitAt(s[1..], c);
      if s[0] == c then [""] + rest
      else [[s[0]] + rest[0]] + rest[1..]
  }

  // ---------------------------------------------------------------------
  // repr()

  const HexDigits: string := "0123456789abcdef"

  /** The quote `repr` wraps `s` in: a double quote when `s` holds a single
      quote and no double quote, a single quote otherwise. The chosen quote
      occurs in `s`, and so needs escaping, only when both quotes do. */
  function QuoteFor(s: string): (q: char)
    ensures q == '\'' || q == '"'
    ensures q == '"' <==> '\'' in s && '"' !in s
    ensures q in s ==> '\'' in s && '"' in s
  {
    if '\'' in s && '"' !in s then '"' else '\''
  }

  /** Characters `repr` writes as a `\xhh` escape: the ASCII controls
      other than tab, newline and carriage return, DEL, and the Latin-1
      characters Python does not consider printable. */
  predicate IsHexEscaped(c: char) {
    c != '\t' && c != '\n' && c != '\r' &&
    (c < ' ' || ('\U{7F}' <= c <= '\U{A0}') || c == '\U{AD}')
  }

  /** How `repr` writes one character inside a literal quoted with `q`. */
  function EscapeChar(c: char, q: char): (e: string)
    requires q == '\'' || q == '"'
    ensures |e| >= 1
    ensures '\n' !in e
  {
    if c == q || c == '\\' then ['\\', c]
    else if c == '\t' then "\\t"
    else if c == '\n' then "\\n"
    else if c == '\r' then "\\r"
    else if IsHexEscaped(c) then "\\x" + [HexDigits[c as int / 16], HexDigits[c as int % 16]]
    else [c]
  }

  /** The body of the literal `repr` produces for `s` with quote `q`; it
      never holds a raw line break. */
  function Escape(s: string, q: char): (r: string)
    requires q == '\'' || q == '"'
    ensures |r| >= |s|
    ensures '\n' !in r
  {
    if |s| == 0 then "" else EscapeChar(s[0], q) + Escape(s[1..], q)
  }

  /** `repr(s)` */
  function Repr(s: string): (r: string)
    ensures |r| >= 2
    ensures '\n' !in r
  {
    var q := QuoteFor(s);
    [q] + Escape(s, q) + [q]
  }

  /** Value of a lower-case hexadecimal digit (0 for anything else). */
  function HexValue(d: char): (v: nat)
    ensures v < 16
  {
    if '0' <= d <= '9' then d as int - '0' as int
    else if 'a' <= d <= 'f' then d as int - 'a' as int + 10
    else 0
  }

  /** Python's reading of a string-literal body, for the escapes `repr`
      writes: `\t`, `\n`, `\r`, `\xhh`, and a backslash before any other
      character standing for that character. */
  function Unescape(e: string): string
    decreases |e|
  {
    if |e| == 0 then ""
    else if e[0] == '\\' && |e| >= 2 then
      if e[1] == 't' then "\t" + Unescape(e[2..])
      else if e[1] == 'n' then "\n" + Unescape(e[2..])
      else if e[1] == 'r' then "\r" + Unescape(e[2..])
      else if e[1] == 'x' && |e| >= 4 then
        [(HexValue(e[2]) * 16 + HexValue(e[3])) as char] + Unescape(e[4..])
      else [e[1]] + Unescape(e[2..])
    else [e[0]] + Unescape(e[1..])
  }

  // =====================================================================
  // Lemmas

  /** A string without capitals is the lower-case form of exactly the
      strings that spell it up to case. */
  lemma LowerMatches(w: string, v: string)
    requires NoCapitals(v)
    ensures Lower(w) == v <==> SameUpToCase(w, v)
  {
    if Lower(w) == v {
      forall i | 0 <= i < |w|
        ensures w[i] == v[i] || ('a' <= v[i] <= 'z' && w[i] as int == v[i] as int - 32)
      {
        assert Lower(w)[i] == v[i];
      }
    }
    if SameUpToCase(w, v) {
      var l := Lower(w);
      forall i | 0 <= i < |w| ensures l[i] == v[i] {
        if 'A' <= w[i] <= 'Z' {
          assert w[i] != v[i];
        }
      }
    }
  }

  /** `lstrip` keeps what follows the maximal whitespace prefix. */
  lemma {:induction false} LStripSpec(s: string)
    ensures var r := LStrip(s);
      && |r| <= |s| && r == s[|s| - |r|..]
      && (forall i :: 0 <= i < |s| - |r| ==> IsSpace(s[i]))
      && (r == [] || !IsSpace(r[0]))
  {
    if |s| > 0 && IsSpace(s[0]) {
      LStripSpec(s[1..]);
      var r := LStrip(s[1..]);
      assert s[1..][|s| - 1 - |r|..] == s[|s| - |r|..];
    }
  }

  /** `rstrip` keeps what precedes the maximal whitespace suffix. */
  lemma {:induction false} RStripSpec(s: string)
    ensures var r := RStrip(s);
      && |r| <= |s| && r == s[..|r|]
      && (forall i :: |r| <= i < |s| ==> IsSpace(s[i]))
      && (r == [] || !IsSpace(r[|r| - 1]))
  {
    if |s| > 0 && IsSpace(s[|s| - 1]) {
      RStripSpec(s[..|s| - 1]);
      var r := RStrip(s[..|s| - 1]);
      assert s[..|s| - 1][..|r|] == s[..|r|];
    }
  }

  /** Whitespace in front of the input does not change `split()`. */
  lemma {:induction false} SplitLStrip(s: string)
    ensures Split(LStrip(s)) == Split(s)
  {
    if |s| > 0 && IsSpace(s[0]) {
      SplitLStrip(s[1..]);
    }
  }

  lemma {:induction false} TokenEndAppend(s: string, t: string)
    requires TokenEnd(s) < |s| || t == [] || IsSpace(t[0])
    ensures TokenEnd(s + t) == TokenEnd(s)
  {
    if |s| > 0 && !IsSpace(s[0]) {
      assert (s + t)[1..] == s[1..] + t;
      TokenEndAppend(s[1..], t);
    }
  }

  /** One whitespace character at the end does not change `split()`. */
  lemma {:induction false} SplitAppendSpace(s: string, c: char)
    requires IsSpace(c)
    ensures Split(s + [c]) == Split(s)
    decreases |s|
  {
    if |s| == 0 {
      assert Split([c]) == Split([c][1..]);
    } else if IsSpace(s[0]) {
      assert (s + [c])[1..] == s[1..] + [c];
      SplitAppendSpace(s[1..], c);
    } else {
      var n := TokenEnd(s);
      TokenEndAppend(s, [c]);
      assert (s + [c])[..n] == s[..n];
      assert (s + [c])[n..] == s[n..] + [c];
      SplitAppendSpace(s[n..], c);
    }
  }

  /** Whitespace at the end of the input does not change `split()`. */
  lemma {:induction false} SplitRStrip(s: string)
    ensures Split(RStrip(s)) == Split(s)
    decreases |s|
  {
    if |s| > 0 && IsSpace(s[|s| - 1]) {
      var init := s[..|s| - 1];
      SplitRStrip(init);
      assert s == init + [s[|s| - 1]];
      SplitAppendSpace(init, s[|s| - 1]);
    }
  }

  /** `s.strip().split()` and `s.split()` give the same words. */
  lemma SplitStrip(s: string)
    ensures Split(Strip(s)) == Split(s)
  {
    SplitRStrip(LStrip(s));
    SplitLStrip(s);
  }

  lemma {:induction false} TokenEndOfToken(w: string, t: string)
    requires IsToken(w)
    requires t == [] || IsSpace(t[0])
    ensures TokenEnd(w + t) == |w|
    decreases |w|
  {
    if |w| > 1 {
      assert (w + t)[1..] == w[1..] + t;
      TokenEndOfToken(w[1..], t);
    } else {
      assert (w + t)[1..] == t;
    }
  }

  /** A token followed by whitespace or nothing is split off whole. */
  lemma SplitToken(w: string, t: string)
    requires IsToken(w)
    requires t == [] || IsSpace(t[0])
    ensures Split(w + t) == [w] + Split(t)
  {
    var s := w + t;
    TokenEndOfToken(w, t);
    assert s[..|w|] == w;
    assert s[|w|..] == t;
  }

  /** One space in front does not change `split()`. */
  lemma SplitSpace(s: string)
    ensures Split(" " + s) == Split(s)
  {
    assert (" " + s)[1..] == s;
  }

  /** Joining tokens with single spaces and splitting again gives the
      tokens back. */
  lemma {:induction false} SplitJoin(toks: seq<string>)
    requires forall k :: 0 <= k < |toks| ==> IsToken(toks[k])
    ensures Split(Join(toks, " ")) == toks
  {
    if |toks| == 1 {
      SplitToken(toks[0], []);
      assert toks[0] + [] == toks[0];
    } else if |toks| > 1 {
      var w, rest := toks[0], Join(toks[1..], " ");
      assert Join(toks, " ") == w + " " + rest;
      SplitWordSpace(w, rest);
      SplitJoin(toks[1..]);
      assert toks == [w] + toks[1..];
    }
  }

  /** A word followed by a space and any text splits into the word and the
      words of that text. */
  lemma SplitWordSpace(w: string, rest: string)
    requires IsToken(w)
    ensures Split(w + " " + rest) == [w] + Split(rest)
  {
    var tail := " " + rest;
    assert w + " " + rest == w + tail;
    SplitToken(w, tail);
    SplitSpace(rest);
  }

  /** Appending one part to a join appends the separator and the part. */
  lemma {:induction false} JoinAppend(parts: seq<string>, p: string, sep: string)
    ensures Join(parts + [p], sep) == if parts == [] then p else Join(parts, sep) + sep + p
  {
    if |parts| == 1 {
      assert parts + [p] == [parts[0], p];
    } else if |parts| > 1 {
      var q := parts + [p];
      assert q[0] == parts[0] && q[1..] == parts[1..] + [p];
      assert Join(q, sep) == parts[0] + sep + Join(parts[1..] + [p], sep);
      JoinAppend(parts[1..], p, sep);
    }
  }

  lemma {:induction false} SplitAtNoSeparator(w: string, c: char)
    requires c !in w
    ensures SplitAt(w, c) == [w]
  {
    if |w| > 0 {
      SplitAtNoSeparator(w[1..], c);
      assert w == [w[0]] + w[1..];
    }
  }

  lemma {:induction false} SplitAtSeparator(w: string, c: char, t: string)
    requires c !in w
    ensures SplitAt(w + [c] + t, c) == [w] + SplitAt(t, c)
  {
    if |w| == 0 {
      assert w + [c] + t == [c] + t;
      assert ([c] + t)[1..] == t;
    } else {
      assert (w + [c] + t)[1..] == w[1..] + [c] + t;
      SplitAtSeparator(w[1..], c, t);
      assert w == [w[0]] + w[1..];
    }
  }

  /** `sep.join` and `split(sep)` are inverse when no part holds the
      separator. */
  lemma {:induction false} SplitAtJoin(parts: seq<string>, c: char)
    requires |parts| >= 1
    requires forall k :: 0 <= k < |parts| ==> c !in parts[k]
    ensures SplitAt(Join(parts, [c]), c) == parts
  {
    if |parts| == 1 {
      SplitAtNoSeparator(parts[0], c);
    } else {
      SplitAtSeparator(parts[0], c, Join(parts[1..], [c]));
      SplitAtJoin(parts[1..], c);
      assert parts == [parts[0]] + parts[1..];
    }
  }

  lemma HexDigitValue(k: nat)
    requires k < 16
    ensures HexValue(HexDigits[k]) == k
  {
  }

  /** Reading back a `\xhh` escape. */
  lemma UnescapeHex(c: char, rest: string)
    requires c as int < 256
    ensures Unescape("\\x" + [HexDigits[c as int / 16], HexDigits[c as int % 16]] + rest) == [c] + Unescape(rest)
  {
    var hi, lo := c as int / 16, c as int % 16;
    HexDigitValue(hi);
    HexDigitValue(lo);
    var e := "\\x" + [HexDigits[hi], HexDigits[lo]] + rest;
    assert e[0] == '\\' && e[1] == 'x' && e[2] == HexDigits[hi] && e[3] == HexDigits[lo];
    assert e[4..] == rest;
  }

  /** Reading back one escaped character. */
  lemma UnescapeEscapeChar(c: char, q: char, rest: string)
    requires q == '\'' || q == '"'
    ensures Unescape(EscapeChar(c, q) + rest) == [c] + Unescape(rest)
  {
    var e := EscapeChar(c, q) + rest;
    if c == q || c == '\\' || c == '\t' || c == '\n' || c == '\r' {
      assert e[2..] == rest;
    } else if IsHexEscaped(c) {
      UnescapeHex(c, rest);
    } else {
      assert e[1..] == rest;
    }
  }

  /** Python reads the body `repr` writes back as the original string. */
  lemma {:induction false} UnescapeEscape(s: string, q: char)
    requires q == '\'' || q == '"'
    ensures Unescape(Escape(s, q)) == s
  {
    if |s| > 0 {
      UnescapeEscapeChar(s[0], q, Escape(s[1..], q));
      UnescapeEscape(s[1..], q);
      assert s == [s[0]] + s[1..];
    }
  }

  /** `repr(s)` is a quoted literal whose body reads back as `s`. */
  lemma ReprRoundTrip(s: string)
    ensures var r := Repr(s);
      r[0] == r[|r| - 1] == QuoteFor(s) && Unescape(r[1..|r| - 1]) == s
  {
    var q := QuoteFor(s);
    var r := Repr(s);
    assert r[1..|r| - 1] == Escape(s, q);
    UnescapeEscape(s, q);
  }

  /** Printable ASCII without the quote `q` or a backslash: text that
      `repr` writes unchanged between quotes `q`. */
  predicate PlainIn(s: string, q: char) {
    forall i :: 0 <= i < |s| ==> ' ' <= s[i] <= '~' && s[i] != q && s[i] != '\\'
  }

  /** Text `repr` shows between plain single quotes. */
  predicate Plain(s: string) {
    PlainIn(s, '\'')
  }

  /** Plain text is written between its quotes exactly as it is. */
  lemma {:induction false} EscapePlain(s: string, q: char)
    requires q == '\'' || q == '"'
    requires PlainIn(s, q)
    ensures Escape(s, q) == s
  {
    if |s| > 0 {
      EscapePlain(s[1..], q);
      assert s == [s[0]] + s[1..];
    }
  }

  /** `repr` of a plain string is the string between single quotes. */
  lemma ReprPlain(s: string)
    requires Plain(s)
    ensures Repr(s) == "'" + s + "'"
  {
    EscapePlain(s, '\'');
  }

  /** `repr` of printable ASCII that holds a single quote but no double
      quote or backslash is the text between double quotes, unescaped. */
  lemma ReprDoubleQuoted(s: string)
    requires PlainIn(s, '"') && '\'' in s
    ensures Repr(s) == "\"" + s + "\""
  {
    EscapePlain(s, '"');
  }
}
