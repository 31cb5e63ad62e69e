/** How strings are read back. What the encoder prints for a string is read as what the
    string shows, and no further than its closing quote; a string shows itself unless
    bytes of it were escaped for not being ASCII, each as a code point of its own; and
    two different strings are always shown differently, so that the keys of an object
    stay different. */
module JsonTextProofs {
  import opened JsonValue
  import opened JsonText

  // ---- strings ----

  function ShownChar(c: char, o: EncodeOptions): string
    requires c as int < 256
  {
    if o.escapeNonAscii && c as int >= 128 then Utf8(c as nat) else [c]
  }

  /** What reading a printed string gives: with escaping, every byte from 128 on is
      read as the character of that number, which takes two bytes of UTF-8. */
  function Shown(s: string, o: EncodeOptions): string
    requires IsBytes(s)
  {
    if s == "" then "" else ShownChar(s[0], o) + Shown(s[1..], o)
  }

  lemma EscapeReads(c: char, z: string, o: EncodeOptions)
    requires c as int < 256 && EscapeChar(c, o)[0] == '\\'
    ensures ParseEscape(EscapeChar(c, o)[1..] + z) == Done(ShownChar(c, o), z)
  {
    var t := EscapeChar(c, o)[1..];
    if IsUnicodeEscaped(c, o) {
      assert t == "u" + Hex4(c);
      assert (t + z)[5..] == z;
      assert (t + z)[1] == '0' && (t + z)[2] == '0';
      assert (t + z)[3] == DigitChar(c as int / 16) && (t + z)[4] == DigitChar(c as int % 16);
    } else {
      assert |t| == 1 && (t + z)[1..] == z;
    }
  }

  lemma CharReads(c: char, read: string, z: string, o: EncodeOptions, p: DecodeOptions)
    requires c as int < 256
    ensures ParseChars(EscapeChar(c, o) + z, read, p) == ParseChars(z, read + ShownChar(c, o), p)
  {
    var t := EscapeChar(c, o);
    if t[0] == '\\' {
      EscapeReads(c, z, o);
      assert (t + z)[1..] == t[1..] + z;
    } else {
      assert t == [c] && (t + z)[1..] == z;
    }
  }

  lemma {:induction false} CharsRead(s: string, read: string, z: string, o: EncodeOptions, p: DecodeOptions)
    requires IsBytes(s)
    ensures ParseChars(Escape(s, o) + "\"" + z, read, p)
         == if |read + Shown(s, o)| > p.maxString then Fail else Done(read + Shown(s, o), z)
  {
    if s == "" {
      assert ("\"" + z)[1..] == z;
      assert Escape(s, o) + "\"" + z == "\"" + z && read + "" == read;
    } else {
      var first, shown := EscapeChar(s[0], o), ShownChar(s[0], o);
      var more := Escape(s[1..], o) + "\"" + z;
      Regroup(first, Escape(s[1..], o), "\"", z);
      CharReads(s[0], read, more, o, p);
      CharsRead(s[1..], read + shown, z, o, p);
      Assoc(read, shown, Shown(s[1..], o));
    }
  }

  lemma Assoc(a: string, b: string, c: string)
    ensures a + b + c == a + (b + c)
  {
  }

  lemma Regroup(a: string, b: string, c: string, d: string)
    ensures a + b + c + d == a + (b + c + d)
  {
  }

  /** A printed string is read back as what it shows, if that is not too long. */
  lemma StringReads(s: string, z: string, o: EncodeOptions, p: DecodeOptions)
    requires IsBytes(s)
    ensures ParseString(StringText(s, o) + z, p)
         == if |Shown(s, o)| > p.maxString then Fail else Done(Shown(s, o), z)
  {
    assert (StringText(s, o) + z)[1..] == Escape(s, o) + "\"" + z;
    CharsRead(s, "", z, o, p);
    assert "" + Shown(s, o) == Shown(s, o);
  }

  /** A string is shown as itself exactly when nothing of it is escaped away. */
  lemma {:induction false} ShownIsSelf(s: string, o: EncodeOptions)
    requires IsBytes(s)
    ensures IsBytes(Shown(s, o)) && |Shown(s, o)| >= |s|
    ensures Shown(s, o) == s <==> (!o.escapeNonAscii || IsAscii(s))
    ensures Shown(s, o) == s || (|Shown(s, o)| > |s| && !IsAscii(Shown(s, o)))
  {
    if s != "" {
      ShownIsSelf(s[1..], o);
      assert IsBytes(s[1..]);
      var head, tail := ShownChar(s[0], o), Shown(s[1..], o);
      if |head| == 1 {
        assert (head + tail)[1..] == tail && s == [s[0]] + s[1..];
        if tail != s[1..] {
          var i :| 0 <= i < |tail| && tail[i] as int >= 128;
          assert (head + tail)[i + 1] == tail[i];
        }
      } else {
        assert (head + tail)[0] == head[0];
      }
    }
  }

  /** Different strings are shown differently. */
  lemma {:induction false} ShownDistinct(s: string, t: string, o: EncodeOptions)
    requires IsBytes(s) && IsBytes(t) && Shown(s, o) == Shown(t, o)
    ensures s == t
  {
    if s == "" || t == "" {
      ShownIsSelf(s, o);
      ShownIsSelf(t, o);
    } else {
      assert Shown(s, o)[0] == ShownChar(s[0], o)[0] && Shown(t, o)[0] == ShownChar(t[0], o)[0];
      var a, b := ShownChar(s[0], o), ShownChar(t[0], o);
      ShownIsSelf(s, o);
      ShownIsSelf(t, o);
      FirstShown(s[0], t[0], Shown(s[1..], o), Shown(t[1..], o), o);
      ShownDistinct(s[1..], t[1..], o);
      assert s == [s[0]] + s[1..] && t == [t[0]] + t[1..];
    }
  }

  lemma FirstShown(c: char, d: char, x: string, y: string, o: EncodeOptions)
    requires c as int < 256 && d as int < 256 && ShownChar(c, o) + x == ShownChar(d, o) + y
    ensures c == d && x == y
  {
    var a, b := ShownChar(c, o) + x, ShownChar(d, o) + y;
    assert a[0] == b[0];
    if |ShownChar(c, o)| == 2 && |ShownChar(d, o)| == 2 { assert a[1] == b[1]; }
    assert x == a[|ShownChar(c, o)|..] && y == b[|ShownChar(d, o)|..];
  }
}
