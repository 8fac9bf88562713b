/** The string printers of the code generator and of the JSON back end, and the compile-time
    reader of string literals that undoes them. */
module Escapes {
  import opened Ast

  // ---------- printing ----------

  /** How a raw string literal and a JSON string print one character. */
  function EscapeChar(c: char): string {
    if c == '\\' then "\\\\"
    else if c == '"' then "\\\""
    else if c == '\n' then "\\n"
    else if c == '\r' then "\\r"
    else if c == '\t' then "\\t"
    else [c]
  }

  function Escape(s: string): string {
    if s == "" then "" else EscapeChar(s[0]) + Escape(s[1..])
  }

  /** Printing is done character by character, from the front or from the back. */
  lemma {:induction false} EscapeAppend(s: string, t: string)
    ensures Escape(s + t) == Escape(s) + Escape(t)
  {
    if s == "" {
      assert s + t == t;
    } else {
      assert (s + t)[1..] == s[1..] + t;
      EscapeAppend(s[1..], t);
    }
  }

  lemma EscapeSnoc(s: string, i: nat)
    requires i < |s|
    ensures Escape(s[..i + 1]) == Escape(s[..i]) + EscapeChar(s[i])
  {
    assert s[..i + 1] == s[..i] + [s[i]];
    EscapeAppend(s[..i], [s[i]]);
    assert [s[i]][1..] == "";
  }

  /** The text being generated. */
  class Emitter {
    var text: string

    constructor ()
      ensures text == ""
    {
      text := "";
    }

    method Emit(s: string)
      modifies this
      ensures text == old(text) + s
    {
      text := text + s;
    }

    method EmitChar(c: char)
      modifies this
      ensures text == old(text) + EscapeChar(c)
    {
      if c == '\\' {
        Emit("\\\\");
      } else if c == '"' {
        Emit("\\\"");
      } else if c == '\n' {
        Emit("\\n");
      } else if c == '\r' {
        Emit("\\r");
      } else if c == '\t' {
        Emit("\\t");
      } else {
        Emit([c]);
      }
    }

    method EmitEscaped(s: string)
      modifies this
      ensures text == old(text) + Escape(s)
    {
      for i := 0 to |s|
        invariant text == old(text) + Escape(s[..i])
      {
        EscapeSnoc(s, i);
        EmitChar(s[i]);
      }
      assert s[..|s|] == s;
    }

    /** A string literal: its text as it stands, or escaped when the literal is raw. */
    method CodegenLiteral(s: string, raw: bool)
      modifies this
      ensures text == old(text) + "\"" + (if raw then Escape(s) else s) + "\""
    {
      Emit("\"");
      if raw {
        EmitEscaped(s);
      } else {
        for i := 0 to |s|
          invariant text == old(text) + "\"" + s[..i]
        {
          Emit([s[i]]);
          assert s[..i + 1] == s[..i] + [s[i]];
        }
        assert s[..|s|] == s;
      }
      Emit("\"");
    }

    method JsonEscape(s: Option<string>)
      modifies this
      ensures text == old(text) + (if s.None? then "null" else "\"" + Escape(s.value) + "\"")
    {
      match s {
        case None => Emit("null");
        case Some(t) =>
          Emit("\"");
          EmitEscaped(t);
          Emit("\"");
          assert text == old(text) + ("\"" + Escape(t) + "\"");
      }
    }
  }

  // ---------- reading ----------

  /** The character a one-letter escape stands for. */
  function SimpleEscape(c: char): Option<char> {
    match c
    case 'n' => Some('\n')
    case 't' => Some('\t')
    case 'r' => Some('\r')
    case 'a' => Some(7 as char)
    case 'b' => Some(8 as char)
    case 'f' => Some(12 as char)
    case 'v' => Some(11 as char)
    case 'e' => Some(27 as char)
    case _ => None
  }

  predicate IsHexDigit(c: char) {
    '0' <= c <= '9' || 'a' <= c <= 'f' || 'A' <= c <= 'F'
  }

  function HexDigit(c: char): (d: nat)
    requires IsHexDigit(c)
    ensures d < 16
  {
    if c <= '9' then c as int - '0' as int
    else if c >= 'a' then c as int - 'a' as int + 10
    else c as int - 'A' as int + 10
  }

  predicate IsOctalDigit(c: char) {
    '0' <= c <= '7'
  }

  /** How many of the first `limit` characters are digits, counted from the front. */
  function Digits(s: string, limit: nat, digit: char -> bool): (n: nat)
    ensures n <= |s| && n <= limit
    ensures forall i :: 0 <= i < n ==> digit(s[i])
  {
    if limit == 0 || s == "" || !digit(s[0]) then 0 else 1 + Digits(s[1..], limit - 1, digit)
  }

  function HexValue(s: string): nat
    requires forall i :: 0 <= i < |s| ==> IsHexDigit(s[i])
  {
    if s == "" then 0 else 16 * HexValue(s[..|s| - 1]) + HexDigit(s[|s| - 1])
  }

  function OctalDigit(c: char): nat
    requires IsOctalDigit(c)
  {
    c as int - '0' as int
  }

  function OctalValue(s: string): nat
    requires forall i :: 0 <= i < |s| ==> IsOctalDigit(s[i])
  {
    if s == "" then 0 else 8 * OctalValue(s[..|s| - 1]) + OctalDigit(s[|s| - 1])
  }

  /** A value stored in a byte. */
  function Byte(n: nat): char {
    (n % 256) as char
  }

  /** The characters a literal text stands for; a backslash at its very end stands for itself. */
  function Unescape(s: string): (r: string)
    ensures |r| <= |s|
    decreases |s|, 1
  {
    if s == "" then ""
    else if s[0] != '\\' || |s| == 1 then [s[0]] + Unescape(s[1..])
    else UnescapeCode(s[1..])
  }

  /** The same, just behind a backslash. */
  function UnescapeCode(s: string): (r: string)
    requires s != ""
    ensures |r| <= |s|
    decreases |s|, 0
  {
    if SimpleEscape(s[0]).Some? then [SimpleEscape(s[0]).value] + Unescape(s[1..])
    else if s[0] == 'x' then
      var n := Digits(s[1..], 2, IsHexDigit);
      [Byte(HexValue(s[1..][..n]))] + Unescape(s[1..][n..])
    else if IsOctalDigit(s[0]) then
      var n := Digits(s, 3, IsOctalDigit);
      [Byte(OctalValue(s[..n]))] + Unescape(s[n..])
    else [s[0]] + Unescape(s[1..])
  }

  /** The digits of a hexadecimal escape at `s[i..]`. */
  method ReadHex(s: string, i: nat) returns (c: char, j: nat)
    requires i <= |s|
    ensures var n := Digits(s[i..], 2, IsHexDigit); j == i + n && c == Byte(HexValue(s[i..][..n]))
  {
    var val := 0;
    j := i;
    var digits := 0;
    while digits < 2 && j < |s| && IsHexDigit(s[j])
      invariant j == i + digits <= |s| && digits <= 2
      invariant Digits(s[i..], 2, IsHexDigit) == digits + Digits(s[j..], 2 - digits, IsHexDigit)
      invariant forall k :: i <= k < j ==> IsHexDigit(s[k])
      invariant val == HexValue(s[i..j])
      decreases 2 - digits
    {
      assert s[j..][1..] == s[j + 1..];
      assert s[i..j + 1][..j - i] == s[i..j];
      val := 16 * val + HexDigit(s[j]);
      j := j + 1;
      digits := digits + 1;
    }
    assert s[i..][..j - i] == s[i..j];
    c := Byte(val);
  }

  /** The digits of an octal escape at `s[i..]`, the first of which is known to be one. */
  method ReadOctal(s: string, i: nat) returns (c: char, j: nat)
    requires i < |s| && IsOctalDigit(s[i])
    ensures var n := Digits(s[i..], 3, IsOctalDigit); j == i + n && c == Byte(OctalValue(s[i..][..n]))
  {
    var val := OctalDigit(s[i]);
    assert s[i..][1..] == s[i + 1..];
    assert s[i..i + 1] == [s[i]];
    j := i + 1;
    var digits := 0;
    while digits < 2 && j < |s| && IsOctalDigit(s[j])
      invariant j == i + 1 + digits <= |s| && digits <= 2
      invariant Digits(s[i..], 3, IsOctalDigit) == 1 + digits + Digits(s[j..], 2 - digits, IsOctalDigit)
      invariant forall k :: i <= k < j ==> IsOctalDigit(s[k])
      invariant val == OctalValue(s[i..j])
      decreases 2 - digits
    {
      assert s[j..][1..] == s[j + 1..];
      assert s[i..j + 1][..j - i] == s[i..j];
      val := 8 * val + OctalDigit(s[j]);
      j := j + 1;
      digits := digits + 1;
    }
    assert s[i..][..j - i] == s[i..j];
    c := Byte(val);
  }

  method ReadPiece(s: string, i: nat) returns (c: char, j: nat)
    requires i < |s|
    ensures i < j <= |s| && Unescape(s[i..]) == [c] + Unescape(s[j..])
  {
    assert s[i..][1..] == s[i + 1..];
    if s[i] != '\\' || i + 1 == |s| {
      return s[i], i + 1;
    }
    c, j := ReadCode(s, i + 1);
  }

  method ReadCode(s: string, i: nat) returns (c: char, j: nat)
    requires i < |s|
    ensures i < j <= |s| && UnescapeCode(s[i..]) == [c] + Unescape(s[j..])
  {
    assert s[i..][1..] == s[i + 1..] && s[i..][0] == s[i];
    var simple := SimpleEscape(s[i]);
    if simple.Some? {
      c, j := simple.value, i + 1;
    } else if s[i] == 'x' {
      c, j := ReadHex(s, i + 1);
      HexCode(s[i..], j - (i + 1));
      assert s[i + 1..][j - (i + 1)..] == s[j..];
    } else if IsOctalDigit(s[i]) {
      c, j := ReadOctal(s, i);
      OctalCode(s[i..], j - i);
      assert s[i..][j - i..] == s[j..];
    } else {
      c, j := s[i], i + 1;
    }
  }

  lemma HexCode(s: string, n: nat)
    requires s != "" && s[0] == 'x' && n == Digits(s[1..], 2, IsHexDigit)
    ensures UnescapeCode(s) == [Byte(HexValue(s[1..][..n]))] + Unescape(s[1..][n..])
  {
  }

  lemma OctalCode(s: string, n: nat)
    requires s != "" && IsOctalDigit(s[0]) && n == Digits(s, 3, IsOctalDigit)
    ensures UnescapeCode(s) == [Byte(OctalValue(s[..n]))] + Unescape(s[n..])
  {
  }

  /** The buffer has one cell more than the text has characters; the terminator always fits. */
  method UnescapeCString(s: string) returns (out: array<char>, len: nat)
    ensures fresh(out) && out.Length == |s| + 1
    ensures len < out.Length && out[..len] == Unescape(s) && out[len] == '\0'
  {
    out := new char[|s| + 1];
    len := 0;
    var i := 0;
    ghost var done: string := "";
    while i < |s|
      invariant len <= i <= |s| && out[..len] == done
      invariant done + Unescape(s[i..]) == Unescape(s)
      decreases |s| - i
    {
      var c, j := ReadPiece(s, i);
      assert done + ([c] + Unescape(s[j..])) == done + [c] + Unescape(s[j..]);
      out[len] := c;
      done := done + [c];
      len := len + 1;
      i := j;
    }
    assert s[i..] == "" && done + "" == done;
    out[len] := '\0';
  }

  // ---------- the two are inverse ----------

  /** Reading undoes printing. */
  lemma {:induction false} EscapeRoundTrip(s: string)
    ensures Unescape(Escape(s)) == s
    decreases |s|
  {
    if s != "" {
      EscapeRoundTrip(s[1..]);
      OneReadBack(s[0], Escape(s[1..]));
    }
  }

  /** One printed character is read back as one character. */
  lemma OneReadBack(c: char, t: string)
    ensures Unescape(EscapeChar(c) + t) == [c] + Unescape(t)
  {
    var e := EscapeChar(c);
    var all := e + t;
    assert all[|e|..] == t;
    if |e| == 2 {
      assert all[1..] == [e[1]] + t;
      CodeReadBack(e[1], c, t);
    }
  }

  lemma CodeReadBack(d: char, c: char, t: string)
    requires SimpleEscape(d) == Some(c) || (d == c && (c == '\\' || c == '"'))
    ensures UnescapeCode([d] + t) == [c] + Unescape(t)
  {
    assert ([d] + t)[1..] == t;
  }

  /** Where a quoted literal ends: the first quote that no backslash precedes. */
  function BodyEnd(s: string): (n: nat)
    ensures n <= |s|
    decreases |s|
  {
    if s == "" || s[0] == '"' then 0
    else if s[0] == '\\' && |s| >= 2 then 2 + BodyEnd(s[2..])
    else 1 + BodyEnd(s[1..])
  }

  /** No quote inside the printed text ends the literal early, and its last character does not
      swallow the closing quote. */
  lemma {:induction false} LiteralEndsAtItsQuote(s: string, rest: string)
    ensures BodyEnd(Escape(s) + "\"" + rest) == |Escape(s)|
    decreases |s|
  {
    if s != "" {
      var c, t := EscapeChar(s[0]), Escape(s[1..]) + "\"" + rest;
      LiteralEndsAtItsQuote(s[1..], rest);
      assert Escape(s) + "\"" + rest == c + t;
      OnePrinted(s[0], t);
    }
  }

  /** A printed character is passed over as a whole. */
  lemma OnePrinted(c: char, t: string)
    ensures BodyEnd(EscapeChar(c) + t) == |EscapeChar(c)| + BodyEnd(t)
  {
    var e := EscapeChar(c);
    assert (e + t)[|e|..] == t && e[0] == (e + t)[0];
  }

  /** What a reader of C text gets from a quoted literal at the front of `s`. */
  function ReadLiteral(s: string): string
    requires s != ""
  {
    Unescape(s[1..1 + BodyEnd(s[1..])])
  }

  /** A printed raw string or JSON string, whatever follows it, is read back as it was. */
  lemma PrintedLiteralIsReadBack(s: string, rest: string)
    ensures ReadLiteral("\"" + Escape(s) + "\"" + rest) == s
  {
    var whole := "\"" + Escape(s) + "\"" + rest;
    assert whole[1..] == Escape(s) + "\"" + rest;
    LiteralEndsAtItsQuote(s, rest);
    assert whole[1..1 + |Escape(s)|] == Escape(s);
    EscapeRoundTrip(s);
  }

  /** Printing keeps control characters other than newline, return and tab as they are; those
      three, quotes and backslashes never appear unescaped. */
  lemma {:induction false} NoBareControl(s: string, i: nat)
    requires i < |Escape(s)|
    ensures Escape(s)[i] !in {'\n', '\r', '\t'}
    ensures Escape(s)[i] < ' ' ==> Escape(s)[i] in s
    decreases |s|
  {
    var n := |EscapeChar(s[0])|;
    if i >= n {
      NoBareControl(s[1..], i - n);
    }
  }

  // ---------- what the escapes stand for ----------

  /** The one-letter escapes stand for the control characters of section 5.2.2 of C11, in ASCII, and
      for the escape character; a letter that is no escape stands for itself. */
  lemma EscapeCodes(c: char, tail: string)
    requires c != 'x' && !IsOctalDigit(c)
    ensures var codes := map['a' := 7, 'b' := 8, 't' := 9, 'n' := 10, 'v' := 11, 'f' := 12, 'r' := 13, 'e' := 27];
      Unescape("\\" + ([c] + tail)) == [if c in codes then codes[c] as char else c] + Unescape(tail)
  {
    assert ("\\" + ([c] + tail))[1..] == [c] + tail && ([c] + tail)[1..] == tail;
  }

  /** A hexadecimal digit, in either case. */
  function HexChar(d: nat, upper: bool): (c: char)
    requires d < 16
    ensures IsHexDigit(c)
  {
    if upper then "0123456789ABCDEF"[d] else "0123456789abcdef"[d]
  }

  lemma HexCharReads(d: nat, upper: bool)
    requires d < 16
    ensures HexDigit(HexChar(d, upper)) == d
  {
  }

  /** A byte written as two hexadecimal digits, in upper or lower case, is read back. */
  lemma HexReadsBack(n: nat, upper: bool, upper': bool, tail: string)
    requires n < 256
    ensures Unescape("\\x" + ([HexChar(n / 16, upper), HexChar(n % 16, upper')] + tail)) == [n as char] + Unescape(tail)
  {
    var a, b := HexChar(n / 16, upper), HexChar(n % 16, upper');
    HexCharReads(n / 16, upper);
    HexCharReads(n % 16, upper');
    var digits, rest := [a, b], [a, b] + tail;
    assert ("\\x" + rest)[1..] == "x" + rest && ("x" + rest)[1..] == rest;
    assert rest[1..][0] == b && rest[..2] == digits && rest[2..] == tail;
    assert Digits(rest[1..], 1, IsHexDigit) == 1;
    assert Digits(rest, 2, IsHexDigit) == 2;
    assert digits[..1] == [a] && [a][..0] == "";
    assert HexValue([a]) == n / 16 && HexValue(digits) == n;
    HexCode("x" + rest, 2);
  }

  function OctalChar(d: nat): (c: char)
    requires d < 8
    ensures IsOctalDigit(c) && OctalDigit(c) == d
  {
    ('0' as int + d) as char
  }

  /** A byte written as three octal digits is read back. */
  lemma OctalReadsBack(n: nat, tail: string)
    requires n < 256
    ensures Unescape("\\" + ([OctalChar(n / 64), OctalChar(n / 8 % 8), OctalChar(n % 8)] + tail)) == [n as char] + Unescape(tail)
  {
    var a, b, c := OctalChar(n / 64), OctalChar(n / 8 % 8), OctalChar(n % 8);
    var digits, rest := [a, b, c], [a, b, c] + tail;
    assert ("\\" + rest)[1..] == rest && rest[..3] == digits && rest[3..] == tail;
    assert rest[1..] == [b, c] + tail && rest[1..][1..] == [c] + tail;
    assert Digits([c] + tail, 1, IsOctalDigit) == 1;
    assert Digits(rest[1..], 2, IsOctalDigit) == 2;
    assert Digits(rest, 3, IsOctalDigit) == 3;
    assert digits[..2] == [a, b] && [a, b][..1] == [a] && [a][..0] == "";
    assert OctalValue([a]) == n / 64 && OctalValue([a, b]) == n / 8;
    assert OctalValue(digits) == n;
    OctalCode(rest, 3);
  }
}
