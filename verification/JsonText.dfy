/** How the encoder writes numbers and strings, and how the decoder reads them. */
module JsonText {
  import opened JsonValue
  import opened Options

  /** What a parsing step returns: the result and the input it left, or failure. */
  datatype Parsed<T> = Done(value: T, rest: string) | Fail

  // ---- characters ----

  function Current(s: string): char {
    if s == "" then '\0' else s[0]
  }

  function Advance(s: string): (r: string)
    ensures |r| <= |s|
  {
    if s == "" then s else s[1..]
  }

  predicate IsSpace(c: char) {
    c == ' ' || ('\t' <= c <= '\r')
  }

  function SkipWs(s: string): (r: string)
    ensures |r| <= |s|
  {
    if s != "" && IsSpace(s[0]) then SkipWs(s[1..]) else s
  }

  predicate IsDigit(c: char) {
    '0' <= c <= '9'
  }

  predicate IsHexDigit(c: char) {
    IsDigit(c) || 'a' <= c <= 'f' || 'A' <= c <= 'F'
  }

  function HexValue(c: char): (n: nat)
    requires IsHexDigit(c)
    ensures n < 16
  {
    if c <= '9' then (c - '0') as nat else if c >= 'a' then (c - 'a') as nat + 10 else (c - 'A') as nat + 10
  }

  function DigitChar(n: nat): (c: char)
    requires n < 16
    ensures IsHexDigit(c) && HexValue(c) == n && (IsDigit(c) <==> n < 10)
  {
    if n < 10 then '0' + n as char else 'a' + (n - 10) as char
  }

  // ---- integers ----

  function Decimal(n: nat): (s: string)
    ensures s != ""
  {
    if n < 10 then [DigitChar(n)] else Decimal(n / 10) + [DigitChar(n % 10)]
  }

  /** Lower case, without leading zeros. */
  function Hexadecimal(n: nat): (s: string)
    ensures s != ""
  {
    if n < 16 then [DigitChar(n)] else Hexadecimal(n / 16) + [DigitChar(n % 16)]
  }

  /** In hexadecimal a stream prints a negative number as its two's complement. */
  function Unsigned(bits: nat, n: int): nat
    requires 0 <= Pow2(bits) + n
  {
    if n < 0 then Pow2(bits) + n else n
  }

  function IntText(bits: nat, signed: bool, n: int, hex: bool): string
    requires InWidth(bits, signed, n)
  {
    if hex then Hexadecimal(Unsigned(bits, n))
    else if n < 0 then "-" + Decimal(-n)
    else Decimal(n)
  }

  function DecimalOf(s: string): nat
    requires forall i :: 0 <= i < |s| ==> IsDigit(s[i])
  {
    if s == "" then 0 else 10 * DecimalOf(s[..|s| - 1]) + HexValue(s[|s| - 1])
  }

  function AfterDigits(s: string): (r: string)
    ensures |r| <= |s|
  {
    if s != "" && IsDigit(s[0]) then AfterDigits(s[1..]) else s
  }

  /** At least one digit, and what follows the digits. */
  function SomeDigits(s: string): (r: Parsed<bool>)
    ensures r.Done? ==> |r.rest| < |s|
  {
    if IsDigit(Current(s)) then Done(true, AfterDigits(Advance(s))) else Fail
  }

  /** The rest after an optional fraction, and whether there is one. */
  function Fraction(s: string): (r: Parsed<bool>)
    ensures r.Done? ==> |r.rest| <= |s|
  {
    if Current(s) == '.' then SomeDigits(Advance(s)) else Done(false, s)
  }

  function AfterSign(s: string): (r: string)
    ensures |r| <= |s|
  {
    if Current(s) == '+' || Current(s) == '-' then Advance(s) else s
  }

  function Exponent(s: string): (r: Parsed<bool>)
    ensures r.Done? ==> |r.rest| <= |s|
  {
    if Current(s) == 'e' || Current(s) == 'E' then SomeDigits(AfterSign(Advance(s))) else Done(false, s)
  }

  function FractionAndExponent(s: string): (r: Parsed<bool>)
    ensures r.Done? ==> |r.rest| <= |s|
  {
    var f := Fraction(s);
    if f.Fail? then Fail
    else
      var e := Exponent(f.rest);
      if e.Fail? then Fail else Done(f.value || e.value, e.rest)
  }

  /** An unsigned number: whether it is a floating-point one, and what follows. */
  function Magnitude(s: string): (r: Parsed<bool>)
    ensures r.Done? ==> |r.rest| < |s|
  {
    if Current(s) == '0' then FractionAndExponent(Advance(s))
    else
      var d := SomeDigits(s);
      if d.Fail? then Fail else FractionAndExponent(d.rest)
  }

  const TOKEN_BUFFER := 512

  function NumberOf(token: string, float: bool, negative: bool, o: DecodeOptions): Option<Value> {
    if token == "" || |token| + 1 > TOKEN_BUFFER then None
    else if float then (if o.floats(token) then Some(Double(token)) else None)
    else
      var digits := if negative then token[1..] else token;
      if digits == "" || !(forall i :: 0 <= i < |digits| ==> IsDigit(digits[i])) then None
      else
        var n: int := DecimalOf(digits);
        if negative then (if n <= 0x8000_0000_0000_0000 then Some(Int(64, true, -n)) else None)
        else if n < 0x1_0000_0000_0000_0000 then Some(Int(64, false, n)) else None
  }

  function ParseNumber(s: string, o: DecodeOptions): (r: Parsed<Value>)
    ensures r.Done? ==> |r.rest| < |s|
  {
    var negative := Current(s) == '-';
    var m := Magnitude(if negative then Advance(s) else s);
    if m.Fail? then Fail
    else
      var n := NumberOf(s[..|s| - |m.rest|], m.value, negative, o);
      if n.None? then Fail else Done(n.value, m.rest)
  }

  // ---- strings ----

  const BACKSPACE := 8 as char
  const FORM_FEED := 12 as char

  function Hex4(c: char): string
    requires c as int < 256
  {
    "00" + [DigitChar(c as int / 16), DigitChar(c as int % 16)]
  }

  predicate IsUnicodeEscaped(c: char, o: EncodeOptions) {
    && c !in ['\"', '\\', BACKSPACE, FORM_FEED, '\n', '\r', '\t']
    && (c < ' ' || (o.escapeNonAscii && c as int >= 128))
  }

  function EscapeChar(c: char, o: EncodeOptions): string
    requires c as int < 256
  {
    if c == '\"' then "\\\""
    else if c == '\\' then "\\\\"
    else if c == BACKSPACE then "\\b"
    else if c == FORM_FEED then "\\f"
    else if c == '\n' then "\\n"
    else if c == '\r' then "\\r"
    else if c == '\t' then "\\t"
    else if IsUnicodeEscaped(c, o) then "\\u" + Hex4(c)
    else [c]
  }

  function Escape(s: string, o: EncodeOptions): string
    requires IsBytes(s)
  {
    if s == "" then "" else EscapeChar(s[0], o) + Escape(s[1..], o)
  }

  /** Whether printing the string switches the stream to hexadecimal. */
  predicate SwitchesToHex(s: string, o: EncodeOptions) {
    s != "" && (IsUnicodeEscaped(s[0], o) || SwitchesToHex(s[1..], o))
  }

  function StringText(s: string, o: EncodeOptions): string
    requires IsBytes(s)
  {
    "\"" + Escape(s, o) + "\""
  }

  function Utf8(code: nat): string
    requires code < 0x1_0000
  {
    if code <= 0x7F then [code as char]
    else if code <= 0x7FF then [(0xC0 + code / 64) as char, (0x80 + code % 64) as char]
    else [(0xE0 + code / 4096) as char, (0x80 + code / 64 % 64) as char, (0x80 + code % 64) as char]
  }

  function SimpleEscape(c: char): string {
    if c == '\"' || c == '\\' || c == '/' then [c]
    else if c == 'b' then [BACKSPACE]
    else if c == 'f' then [FORM_FEED]
    else if c == 'n' then "\n"
    else if c == 'r' then "\r"
    else if c == 't' then "\t"
    else ""
  }

  /** The character after a backslash, and what it stands for. */
  function ParseEscape(s: string): (r: Parsed<string>)
    ensures r.Done? ==> |r.rest| < |s|
  {
    if s == "" then Fail
    else if s[0] != 'u' then
      (if SimpleEscape(s[0]) == "" then Fail else Done(SimpleEscape(s[0]), s[1..]))
    else if |s| <= 4 || !(forall i :: 1 <= i < 5 ==> IsHexDigit(s[i])) then Fail
    else
      var code := HexValue(s[1]) * 4096 + HexValue(s[2]) * 256 + HexValue(s[3]) * 16 + HexValue(s[4]);
      Done(Utf8(code), s[5..])
  }

  /** The characters up to the closing quote, after those already read. */
  function ParseChars(s: string, read: string, o: DecodeOptions): (r: Parsed<string>)
    ensures r.Done? ==> |r.rest| < |s|
    decreases |s|
  {
    if s == "" then Fail
    else if s[0] == '\"' then (if |read| > o.maxString then Fail else Done(read, s[1..]))
    else if s[0] == '\\' then
      var e := ParseEscape(s[1..]);
      if e.Fail? then Fail else ParseChars(e.rest, read + e.value, o)
    else if s[0] < ' ' then Fail
    else ParseChars(s[1..], read + [s[0]], o)
  }

  function ParseString(s: string, o: DecodeOptions): (r: Parsed<string>)
    ensures r.Done? ==> |r.rest| < |s|
  {
    if s == "" then Fail else ParseChars(s[1..], "", o)
  }
}
