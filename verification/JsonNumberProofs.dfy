/** How numbers are read back. Digits that the encoder has printed in decimal come back
    as the same number, whatever text follows them; digits that it has printed in
    hexadecimal are read as decimal as far as they are decimal digits, and so come back
    as the same number exactly when there is one digit and it is below ten. The answer
    does not depend on what follows the number, as long as that does not continue it;
    this is what the lemmas called local say. */
module JsonNumberProofs {
  import opened JsonText
  import opened JsonValue
  import opened Options

  /** What follows a value in printed text: nothing, a separator or a closing
      bracket, possibly on a new line. */
  predicate Ends(z: string) {
    z == "" || z[0] == ',' || z[0] == ']' || z[0] == '}' || z[0] == '\n'
  }

  predicate AllDigits(s: string) {
    forall i :: 0 <= i < |s| ==> IsDigit(s[i])
  }

  predicate AllHex(s: string) {
    forall i :: 0 <= i < |s| ==> IsHexDigit(s[i])
  }

  // ---- a number is read from its own characters alone ----

  function Later<T>(r: Parsed<T>, z: string): Parsed<T> {
    if r.Fail? then Fail else Done(r.value, r.rest + z)
  }

  lemma {:induction false} AfterDigitsLocal(s: string, z: string)
    requires Ends(z)
    ensures AfterDigits(s + z) == AfterDigits(s) + z
  {
    if s == "" {
      assert s + z == z;
    } else {
      assert (s + z)[1..] == s[1..] + z;
      if IsDigit(s[0]) { AfterDigitsLocal(s[1..], z); }
    }
  }

  lemma CurrentLocal(s: string, z: string)
    requires s != ""
    ensures Current(s + z) == s[0] && Advance(s + z) == s[1..] + z
  {
    assert (s + z)[1..] == s[1..] + z;
  }

  lemma SomeDigitsLocal(s: string, z: string)
    requires Ends(z)
    ensures SomeDigits(s + z) == Later(SomeDigits(s), z)
  {
    if s == "" {
      assert s + z == z;
    } else {
      CurrentLocal(s, z);
      AfterDigitsLocal(s[1..], z);
    }
  }

  lemma FractionLocal(s: string, z: string)
    requires Ends(z)
    ensures Fraction(s + z) == Later(Fraction(s), z)
  {
    if s == "" {
      assert s + z == z;
    } else {
      CurrentLocal(s, z);
      SomeDigitsLocal(s[1..], z);
    }
  }

  lemma AfterSignLocal(s: string, z: string)
    requires Ends(z)
    ensures AfterSign(s + z) == AfterSign(s) + z
  {
    if s == "" { assert s + z == z; } else { CurrentLocal(s, z); }
  }

  lemma ExponentLocal(s: string, z: string)
    requires Ends(z)
    ensures Exponent(s + z) == Later(Exponent(s), z)
  {
    if s == "" {
      assert s + z == z;
    } else {
      CurrentLocal(s, z);
      AfterSignLocal(s[1..], z);
      SomeDigitsLocal(AfterSign(s[1..]), z);
    }
  }

  lemma MagnitudeLocal(s: string, z: string)
    requires s != "" && Ends(z)
    ensures Magnitude(s + z) == Later(Magnitude(s), z)
  {
    CurrentLocal(s, z);
    SomeDigitsLocal(s, z);
    var t := if s[0] == '0' then s[1..] else if SomeDigits(s).Done? then SomeDigits(s).rest else s;
    FractionLocal(t, z);
    if Fraction(t).Done? { ExponentLocal(Fraction(t).rest, z); }
  }

  lemma TokenLocal(t: string, z: string, r: string)
    requires |r| <= |t|
    ensures (t + z)[..|t + z| - |r + z|] == t[..|t| - |r|]
  {
  }

  lemma NumberLocal(t: string, z: string, p: DecodeOptions)
    requires t != "" && t != "-" && Ends(z)
    ensures ParseNumber(t + z, p) == Later(ParseNumber(t, p), z)
  {
    CurrentLocal(t, z);
    var a := if t[0] == '-' then t[1..] else t;
    MagnitudeLocal(a, z);
    hide Magnitude, Ends, NumberOf;
    if Magnitude(a).Done? { TokenLocal(t, z, Magnitude(a).rest); }
  }

  // ---- hexadecimal digits read as a number ----

  lemma {:induction false} AfterDigitsHex(s: string)
    requires AllHex(s)
    ensures AllHex(AfterDigits(s))
    ensures AfterDigits(s) == "" <==> AllDigits(s)
  {
    if s != "" && IsDigit(s[0]) { AfterDigitsHex(s[1..]); }
  }

  lemma TailHex(s: string)
    requires AllHex(s) && s != ""
    ensures AllHex(s[1..]) && (AllDigits(s) <==> IsDigit(s[0]) && AllDigits(s[1..]))
  {
    if IsDigit(s[0]) && AllDigits(s[1..]) {
      forall i | 0 <= i < |s| ensures IsDigit(s[i]) { if i > 0 { assert s[i] == s[1..][i - 1]; } }
    }
  }

  lemma FractionAndExponentHex(s: string)
    requires AllHex(s)
    ensures var r := FractionAndExponent(s);
            r.Done? ==> AllHex(r.rest) && (r.rest == "" && !r.value ==> s == "")
  {
    if s != "" {
      TailHex(s);
      var t := s[1..];
      if t != "" {
        TailHex(t);
        AfterDigitsHex(t[1..]);
      }
    }
  }

  lemma MagnitudeHex(s: string)
    requires s != "" && AllHex(s)
    ensures var r := Magnitude(s);
            r.Done? ==> AllHex(r.rest) && (r.rest == "" && !r.value ==> AllDigits(s))
  {
    TailHex(s);
    AfterDigitsHex(s[1..]);
    FractionAndExponentHex(s[1..]);
    FractionAndExponentHex(AfterDigits(s[1..]));
  }

  /** Reading hexadecimal digits as a number leaves hexadecimal digits, and takes
      all of them as an integer only if they are all decimal digits. */
  lemma HexNumber(t: string, p: DecodeOptions)
    requires t != "" && AllHex(t)
    ensures var r := ParseNumber(t, p);
            r.Done? ==> AllHex(r.rest) && (r.rest == "" && r.value.Int? ==> AllDigits(t) && r.value.n == DecimalOf(t))
  {
    MagnitudeHex(t);
    assert t[..|t|] == t;
  }

  // ---- decimal notation ----

  function Exp10(k: nat): nat {
    if k == 0 then 1 else 10 * Exp10(k - 1)
  }

  lemma {:induction false} DecimalShort(n: nat, k: nat)
    requires k > 0 && n < Exp10(k)
    ensures |Decimal(n)| <= k
  {
    if n >= 10 { DecimalShort(n / 10, k - 1); }
  }

  lemma SixtyFourBitsShort(n: nat)
    requires n < 0x1_0000_0000_0000_0000
    ensures |Decimal(n)| <= 20
  {
    assert Exp10(4) == 10_000 by { assert Exp10(2) == 100; }
    assert Exp10(8) == 10_000 * Exp10(4) by { assert Exp10(6) == 100 * Exp10(4); }
    assert Exp10(12) == 10_000 * Exp10(8) by { assert Exp10(10) == 100 * Exp10(8); }
    assert Exp10(16) == 10_000 * Exp10(12) by { assert Exp10(14) == 100 * Exp10(12); }
    assert Exp10(20) == 10_000 * Exp10(16) by { assert Exp10(18) == 100 * Exp10(16); }
    DecimalShort(n, 20);
  }

  lemma {:induction false} DecimalRound(n: nat)
    ensures AllDigits(Decimal(n)) && DecimalOf(Decimal(n)) == n
    ensures Decimal(n)[0] == '0' <==> n == 0
  {
    var s := Decimal(n);
    if n >= 10 {
      DecimalRound(n / 10);
      assert s[..|s| - 1] == Decimal(n / 10);
    } else {
      assert s[..0] == "" && DecimalOf("") == 0;
    }
  }

  lemma {:induction false} AfterDigitsAll(s: string)
    requires AllDigits(s)
    ensures AfterDigits(s) == ""
  {
    if s != "" { AfterDigitsAll(s[1..]); }
  }

  lemma MagnitudeDigits(t: string)
    requires t != "" && AllDigits(t) && (t[0] == '0' ==> |t| == 1)
    ensures Magnitude(t) == Done(false, "")
  {
    AfterDigitsAll(t[1..]);
  }

  lemma NaturalReads(n: nat, p: DecodeOptions)
    requires n < 0x1_0000_0000_0000_0000
    ensures ParseNumber(Decimal(n), p) == Done(Int(64, false, n), "")
  {
    var t := Decimal(n);
    DecimalRound(n);
    SixtyFourBitsShort(n);
    MagnitudeDigits(t);
    assert t[..|t|] == t;
    TokenReads(t, p);
  }

  lemma TokenReads(t: string, p: DecodeOptions)
    requires t != "" && AllDigits(t) && |t| <= 20
    ensures DecimalOf(t) < 0x1_0000_0000_0000_0000 ==>
              NumberOf(t, false, false, p) == Some(Int(64, false, DecimalOf(t)))
    ensures DecimalOf(t) <= 0x8000_0000_0000_0000 ==>
              NumberOf("-" + t, false, true, p) == Some(Int(64, true, 0 - DecimalOf(t)))
  {
    assert ("-" + t)[1..] == t;
  }

  lemma NegativeReads(k: nat, p: DecodeOptions)
    requires 0 < k <= 0x8000_0000_0000_0000
    ensures ParseNumber("-" + Decimal(k), p) == Done(Int(64, true, 0 - k), "")
  {
    var t := Decimal(k);
    DecimalRound(k);
    SixtyFourBitsShort(k);
    MagnitudeDigits(t);
    TokenReads(t, p);
    var m := "-" + t;
    assert m[1..] == t && m[..|m|] == m;
  }

  /** What reading the text of a number gives, if it is read to its end. */
  function ReadNumber(text: string, p: DecodeOptions): Option<Value>
    requires text != ""
  {
    var r := ParseNumber(text, p);
    if (text[0] == '-' || IsDigit(text[0])) && r.Done? && r.rest == "" then Some(r.value) else None
  }

  /** A number printed in decimal is read back. */
  lemma DecimalReads(bits: nat, signed: bool, n: int, p: DecodeOptions)
    requires InWidth(bits, signed, n)
    ensures ReadNumber(IntText(bits, signed, n, false), p) == Some(Int(64, n < 0, n))
  {
    if n < 0 {
      NegativeReads(-n, p);
    } else {
      NaturalReads(n, p);
      DecimalRound(n);
    }
  }

  // ---- hexadecimal notation ----

  lemma {:induction false} HexadecimalHex(n: nat)
    ensures AllHex(Hexadecimal(n))
  {
    if n >= 16 { HexadecimalHex(n / 16); }
  }

  /** Hexadecimal digits read as decimal give a smaller number, from ten on. */
  lemma {:induction false} HexReadsSmaller(n: nat)
    requires AllDigits(Hexadecimal(n))
    ensures DecimalOf(Hexadecimal(n)) <= n
    ensures DecimalOf(Hexadecimal(n)) == n <==> n < 10
  {
    var s := Hexadecimal(n);
    if n >= 16 {
      var front := Hexadecimal(n / 16);
      assert s[..|s| - 1] == front && s[|s| - 1] == DigitChar(n % 16);
      assert AllDigits(front) by { forall i | 0 <= i < |front| ensures IsDigit(front[i]) { assert front[i] == s[i]; } }
      HexReadsSmaller(n / 16);
    } else {
      assert IsDigit(s[0]);
      assert s[..0] == "" && DecimalOf("") == 0;
    }
  }

  /** A number printed in hexadecimal is read back exactly when it is one decimal digit. */
  lemma HexReads(bits: nat, signed: bool, n: int, p: DecodeOptions)
    requires InWidth(bits, signed, n)
    ensures var r := ReadNumber(IntText(bits, signed, n, true), p);
            (r.Some? && r.value.Int? && r.value.n == n) <==> 0 <= n <= 9
  {
    var u := Unsigned(bits, n);
    var t := Hexadecimal(u);
    HexadecimalHex(u);
    HexNumber(t, p);
    if AllDigits(t) { HexReadsSmaller(u); }
    if 0 <= n <= 9 {
      assert t == Decimal(n);
      NaturalReads(n, p);
      DecimalRound(n);
    }
  }
}
