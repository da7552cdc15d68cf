/** Python's `repr` of a string, which `str(list)` applies to every item
    of a list of strings, and its reading back. */
module PyRepr {
  import opened Wrappers

  /** Python's `str.isspace`, which is also what `\s` matches in a
      pattern on strings. */
  predicate IsSpace(c: char) {
    || c == ' '
    || ('\t' <= c <= '\r')
    || ('\U{1c}' <= c <= '\U{1f}')
    || c == '\U{85}' || c == '\U{a0}' || c == '\U{1680}'
    || ('\U{2000}' <= c <= '\U{200a}')
    || c == '\U{2028}' || c == '\U{2029}' || c == '\U{202f}' || c == '\U{205f}' || c == '\U{3000}'
  }

  /** Python's `str.isprintable` on one character: the control characters
      and every separator but the space are not printable. */
  predicate Printable(c: char) {
    !(c < ' ' || ('\U{7f}' <= c <= '\U{9f}') || (IsSpace(c) && c != ' '))
  }

  /** The lower-case hexadecimal digit of `k`. */
  function HexChar(k: nat): (d: char)
    requires k < 16
    ensures '0' <= d <= '9' || 'a' <= d <= 'f'
  {
    if k < 10 then ('0' as int + k) as char else ('a' as int + k - 10) as char
  }

  predicate IsHexDigit(d: char) {
    '0' <= d <= '9' || 'a' <= d <= 'f'
  }

  function DigitValue(d: char): (k: nat)
    requires IsHexDigit(d)
    ensures k < 16
  {
    if d <= '9' then d as int - '0' as int else d as int - 'a' as int + 10
  }

  function Pow16(w: nat): (p: nat)
    ensures p > 0
  {
    if w == 0 then 1 else 16 * Pow16(w - 1)
  }

  /** `n` in `w` hexadecimal digits, the most significant first. */
  function Hex(n: nat, w: nat): (h: string)
    ensures |h| == w && forall i :: 0 <= i < w ==> IsHexDigit(h[i])
  {
    if w == 0 then "" else Hex(n / 16, w - 1) + [HexChar(n % 16)]
  }

  /** The number a run of hexadecimal digits writes. */
  function HexValue(h: string): nat
    requires forall i :: 0 <= i < |h| ==> IsHexDigit(h[i])
    decreases |h|
  {
    if h == [] then 0 else 16 * HexValue(h[..|h| - 1]) + DigitValue(h[|h| - 1])
  }

  /** `w` digits read back give the number they were written from. */
  lemma {:induction false} HexRoundTrip(n: nat, w: nat)
    requires n < Pow16(w)
    ensures HexValue(Hex(n, w)) == n
  {
    if w > 0 {
      HexRoundTrip(n / 16, w - 1);
      var h := Hex(n, w);
      assert h[..w - 1] == Hex(n / 16, w - 1);
      assert DigitValue(HexChar(n % 16)) == n % 16;
    }
  }

  /** How `repr` writes the character `c` inside a string quoted with `q`:
      the quote and the backslash get a backslash, tab, newline and
      carriage return their letter escapes, any other character that is
      not printable a `\x`, `\u` or `\U` escape of two, four or eight
      digits, and every other character stands for itself. */
  function Escape(c: char, q: char): string {
    if c == q || c == '\\' then ['\\', c]
    else if c == '\t' then "\\t"
    else if c == '\n' then "\\n"
    else if c == '\r' then "\\r"
    else if Printable(c) then [c]
    else if c as int < 0x100 then "\\x" + Hex(c as int, 2)
    else if c as int < 0x10000 then "\\u" + Hex(c as int, 4)
    else "\\U" + Hex(c as int, 8)
  }

  function EscapeAll(s: string, q: char): string
    decreases |s|
  {
    if s == [] then "" else Escape(s[0], q) + EscapeAll(s[1..], q)
  }

  /** The quote `repr` puts around `s`: a double quote when `s` holds a
      single quote and no double quote, else a single quote. */
  function QuoteFor(s: string): (q: char)
    ensures q == '\'' || q == '"'
  {
    if '\'' in s && '"' !in s then '"' else '\''
  }

  /** `repr(s)` of a string. */
  function Repr(s: string): string {
    var q := QuoteFor(s);
    [q] + EscapeAll(s, q) + [q]
  }

  /* ---------------------------------------------------------------
     Reading a representation back
     --------------------------------------------------------------- */

  function Prepend(c: char, o: Option<string>): Option<string> {
    if o.None? then None else Some([c] + o.value)
  }

  /** The text of a literal quoted with `q`, read with the escapes `repr`
      writes; `None` for a bare quote or an escape it does not write. */
  function ReadBody(s: string, q: char): Option<string>
    decreases |s|
  {
    if s == [] then Some("")
    else if s[0] == q then None
    else if s[0] != '\\' then Prepend(s[0], ReadBody(s[1..], q))
    else if |s| < 2 then None
    else
      var e := s[1];
      if e == '\\' || e == '\'' || e == '"' then Prepend(e, ReadBody(s[2..], q))
      else if e == 't' then Prepend('\t', ReadBody(s[2..], q))
      else if e == 'n' then Prepend('\n', ReadBody(s[2..], q))
      else if e == 'r' then Prepend('\r', ReadBody(s[2..], q))
      else if e == 'x' then ReadHex(s, 2, q)
      else if e == 'u' then ReadHex(s, 4, q)
      else if e == 'U' then ReadHex(s, 8, q)
      else None
  }

  /** A `\x`, `\u` or `\U` escape of `w` digits at the start of `s`, and
      the rest of the body after it. */
  function ReadHex(s: string, w: nat, q: char): Option<string>
    requires |s| >= 2
    decreases |s|, 0
  {
    if |s| < 2 + w || !(forall i :: 2 <= i < 2 + w ==> IsHexDigit(s[i])) then None
    else
      var v := HexValue(s[2..2 + w]);
      if 0xD800 <= v < 0xE000 || v >= 0x11_0000 then None
      else Prepend(v as char, ReadBody(s[2 + w..], q))
  }

  /** The string a representation stands for. */
  function ReadRepr(r: string): Option<string> {
    if |r| >= 2 && (r[0] == '\'' || r[0] == '"') && r[|r| - 1] == r[0]
    then ReadBody(r[1..|r| - 1], r[0])
    else None
  }

  /** Reading back one escaped character. */
  lemma ReadEscape(c: char, q: char, rest: string)
    requires q == '\'' || q == '"'
    ensures ReadBody(Escape(c, q) + rest, q) == Prepend(c, ReadBody(rest, q))
  {
    var s := Escape(c, q) + rest;
    if c == q || c == '\\' || c == '\t' || c == '\n' || c == '\r' {
      assert s[2..] == rest;
    } else if Printable(c) {
      assert s[1..] == rest;
    } else {
      ReadNonPrintable(c, q, rest);
    }
  }

  lemma ReadNonPrintable(c: char, q: char, rest: string)
    requires q == '\'' || q == '"'
    requires c != q && c != '\\' && c != '\t' && c != '\n' && c != '\r' && !Printable(c)
    ensures ReadBody(Escape(c, q) + rest, q) == Prepend(c, ReadBody(rest, q))
  {
    var w := if c as int < 0x100 then 2 else if c as int < 0x10000 then 4 else 8;
    var lead := if w == 2 then "\\x" else if w == 4 then "\\u" else "\\U";
    assert Escape(c, q) == lead + Hex(c as int, w);
    var s := lead + Hex(c as int, w) + rest;
    assert s[0] == '\\' && s[1] == lead[1];
    assert ReadBody(s, q) == ReadHex(s, w, q);
    ReadHexEscape(c, w, lead, q, rest);
  }

  /** Reading back `w` digits after a two-character escape opener. */
  lemma ReadHexEscape(c: char, w: nat, lead: string, q: char, rest: string)
    requires c as int < Pow16(w) && |lead| == 2
    ensures ReadHex(lead + Hex(c as int, w) + rest, w, q) == Prepend(c, ReadBody(rest, q))
  {
    var h := Hex(c as int, w);
    HexRoundTrip(c as int, w);
    var s := lead + h + rest;
    assert s[..2] == lead;
    HexPrefix(s, h, rest);
  }

  lemma HexPrefix(s: string, h: string, rest: string)
    requires |s| >= 2 && s == s[..2] + h + rest
    requires forall i :: 0 <= i < |h| ==> IsHexDigit(h[i])
    ensures s[2..2 + |h|] == h && s[2 + |h|..] == rest
    ensures forall i :: 2 <= i < 2 + |h| ==> IsHexDigit(s[i])
  {
    forall i | 2 <= i < 2 + |h|
      ensures s[i] == h[i - 2]
    {
      assert s[i] == (s[..2] + h + rest)[i];
    }
  }

  lemma {:induction false} ReadEscapeAll(s: string, q: char)
    requires q == '\'' || q == '"'
    ensures ReadBody(EscapeAll(s, q), q) == Some(s)
    decreases |s|
  {
    if s != [] {
      ReadEscapeAll(s[1..], q);
      ReadEscape(s[0], q, EscapeAll(s[1..], q));
      assert [s[0]] + s[1..] == s;
    }
  }

  /** Reading a representation back gives the string it was made from:
      no two strings have the same `repr`. */
  lemma ReprRoundTrip(s: string)
    ensures ReadRepr(Repr(s)) == Some(s)
  {
    var q := QuoteFor(s);
    var r := Repr(s);
    assert r[1..|r| - 1] == EscapeAll(s, q);
    ReadEscapeAll(s, q);
  }

  /* ---------------------------------------------------------------
     The shape of a representation
     --------------------------------------------------------------- */

  /** A character `repr` writes as itself between single quotes. */
  predicate Plain(c: char) {
    Printable(c) && c != '\'' && c != '\\'
  }

  /** A string of printable characters without a single quote or a
      backslash is shown between single quotes, as it is. */
  lemma ReprPlain(s: string)
    requires forall i :: 0 <= i < |s| ==> Plain(s[i])
    ensures Repr(s) == "'" + s + "'"
  {
    assert '\'' !in s;
    EscapeKept(s, '\'');
  }

  /** Printable characters other than the quote and the backslash are
      written as they are. */
  lemma {:induction false} EscapeKept(s: string, q: char)
    requires forall i :: 0 <= i < |s| ==> Printable(s[i]) && s[i] != q && s[i] != '\\'
    ensures EscapeAll(s, q) == s
    decreases |s|
  {
    if s != [] {
      EscapeKept(s[1..], q);
      assert [s[0]] + s[1..] == s;
    }
  }

  /** Not a whitespace character other than the space. */
  predicate NoOddSpace(c: char) {
    c == ' ' || !IsSpace(c)
  }

  /** `repr` never writes whitespace other than the space: a tab, a
      newline or any other such character comes out escaped. */
  lemma ReprNoOddSpace(s: string)
    ensures forall i :: 0 <= i < |Repr(s)| ==> NoOddSpace(Repr(s)[i])
  {
    var q := QuoteFor(s);
    EscapeAllNoOddSpace(s, q);
    var r := Repr(s);
    forall i | 0 <= i < |r|
      ensures NoOddSpace(r[i])
    {
      if 0 < i < |r| - 1 {
        assert r[i] == EscapeAll(s, q)[i - 1];
      }
    }
  }

  lemma {:induction false} EscapeAllNoOddSpace(s: string, q: char)
    requires q == '\'' || q == '"'
    ensures forall i :: 0 <= i < |EscapeAll(s, q)| ==> NoOddSpace(EscapeAll(s, q)[i])
    decreases |s|
  {
    if s != [] {
      EscapeAllNoOddSpace(s[1..], q);
      EscapeNoOddSpace(s[0], q);
      var e, t := Escape(s[0], q), EscapeAll(s[1..], q);
      forall i | 0 <= i < |e + t|
        ensures NoOddSpace((e + t)[i])
      {
        if i < |e| {
          assert (e + t)[i] == e[i];
        } else {
          assert (e + t)[i] == t[i - |e|];
        }
      }
    }
  }

  lemma EscapeNoOddSpace(c: char, q: char)
    requires q == '\'' || q == '"'
    ensures forall i :: 0 <= i < |Escape(c, q)| ==> NoOddSpace(Escape(c, q)[i])
  {
  }

  /** A single quote inside switches to double quotes. */
  lemma ReprQuoteExample()
    ensures Repr("it's") == "\"it's\""
  {
    var s := "it's";
    assert QuoteFor(s) == '"';
    forall i | 0 <= i < |s|
      ensures Printable(s[i]) && s[i] != '"' && s[i] != '\\'
    {
    }
    EscapeKept(s, '"');
  }

  /** A tab comes out as `\t`. */
  lemma ReprTabExample()
    ensures Repr("a\tb") == "'a\\tb'"
  {
    assert '\'' !in "a\tb";
    assert EscapeAll("b", '\'') == "b";
    assert EscapeAll("\tb", '\'') == "\\tb";
    assert EscapeAll("a\tb", '\'') == "a\\tb";
  }
}
