/** The decoder as the program has it: an object with a position in its text that its
    methods move forward, character by character. Each is proved to return what the
    parsing function of JsonCodec returns at that position, and to leave the position
    where that leaves it; where the function fails, so does the method. The loops over
    digits, over the characters of a string and over the entries of arrays and objects
    carry what has been read so far. The recursion ends because every method that opens
    a bracket has moved past it, and the depth limit is checked when a bracket is
    opened, as in the program. */
module JsonDecoder {
  import opened JsonText
  import opened JsonValue
  import opened Options
  import C = JsonCodec

  /** A method's result and the input it leaves are those of the parsing function. */
  predicate Matches<T(==)>(r: Parsed<T>, got: Option<T>, rest: string) {
    if r.Fail? then got.None? else got == Some(r.value) && rest == r.rest
  }

  class Decoder {
    const input: string
    const options: DecodeOptions
    var pos: nat
    var depth: nat

    ghost predicate Valid()
      reads this
    {
      pos <= |input|
    }

    /** The input not yet read. */
    ghost function Rest(): string
      requires Valid()
      reads this
    {
      input[pos..]
    }

    constructor (json: string, o: DecodeOptions)
      ensures Valid() && Rest() == json && input == json && options == o.Normalize() && depth == 0
    {
      input := json;
      options := o.Normalize();
      pos := 0;
      depth := 0;
    }

    method Peek() returns (c: char)
      requires Valid()
      ensures c == Current(Rest())
    {
      c := if pos >= |input| then '\0' else input[pos];
    }

    method Step()
      requires Valid()
      modifies this`pos
      ensures Valid() && Rest() == Advance(old(Rest()))
    {
      if pos < |input| { pos := pos + 1; }
    }

    method SkipWhitespace()
      requires Valid()
      modifies this`pos
      ensures Valid() && Rest() == SkipWs(old(Rest()))
    {
      while pos < |input| && IsSpace(input[pos])
        invariant Valid() && SkipWs(Rest()) == SkipWs(old(Rest()))
      {
        assert input[pos..][1..] == input[pos + 1..];
        pos := pos + 1;
      }
    }

    method ParseWord(word: string, v: Value) returns (r: Option<Value>)
      requires Valid() && word != ""
      modifies this`pos
      ensures Valid() && Matches(C.ParseWord(old(Rest()), word, v), r, Rest())
    {
      if pos + |word| <= |input| && input[pos..pos + |word|] == word {
        assert input[pos..pos + |word|] == Rest()[..|word|];
        assert Rest()[|word|..] == input[pos + |word|..];
        pos := pos + |word|;
        return Some(v);
      }
      assert |Rest()| >= |word| ==> Rest()[..|word|] == input[pos..pos + |word|];
      r := None;
    }

    /** After a backslash; leaves the position on the last character of the escape. */
    method HandleEscapeSequence() returns (r: Option<string>)
      requires Valid()
      modifies this`pos
      ensures Valid() && pos >= old(pos)
      ensures var e := ParseEscape(old(Rest()));
              if e.Fail? then r.None? else r == Some(e.value) && pos < |input| && Rest()[1..] == e.rest
    {
      if pos >= |input| { return None; }
      if input[pos] == 'u' {
        r := HandleUnicodeEscape();
      } else {
        var s := SimpleEscape(input[pos]);
        r := if s == "" then None else Some(s);
      }
    }

    method HandleUnicodeEscape() returns (r: Option<string>)
      requires Valid() && pos < |input| && input[pos] == 'u'
      modifies this`pos
      ensures Valid() && pos >= old(pos)
      ensures var e := ParseEscape(old(Rest()));
              if e.Fail? then r.None? else r == Some(e.value) && pos < |input| && Rest()[1..] == e.rest
    {
      if pos + 4 >= |input| { return None; }
      var hex := input[pos + 1..pos + 5];
      assert hex == Rest()[1..5];
      if !(IsHexDigit(hex[0]) && IsHexDigit(hex[1]) && IsHexDigit(hex[2]) && IsHexDigit(hex[3])) {
        assert !(IsHexDigit(Rest()[1]) && IsHexDigit(Rest()[2]) && IsHexDigit(Rest()[3]) && IsHexDigit(Rest()[4]));
        return None;
      }
      var code := HexValue(hex[0]) * 4096 + HexValue(hex[1]) * 256 + HexValue(hex[2]) * 16 + HexValue(hex[3]);
      assert Rest()[5..] == input[pos + 5..];
      pos := pos + 4;
      r := Some(Utf8(code));
    }

    /** One character of a string, escaped or not, added to those read. */
    method ParseChar(read: string) returns (r: Option<string>)
      requires Valid() && pos < |input| && input[pos] != '\"'
      modifies this`pos
      ensures Valid() && pos > old(pos)
      ensures ParseChars(old(Rest()), read, options) == if r.None? then Fail else ParseChars(Rest(), r.value, options)
    {
      var c := input[pos];
      assert Rest()[1..] == input[pos + 1..];
      pos := pos + 1;
      if c == '\\' {
        var e := HandleEscapeSequence();
        if e.None? { return None; }
        assert Rest()[1..] == input[pos + 1..];
        pos := pos + 1;
        r := Some(read + e.value);
      } else {
        r := if c < ' ' then None else Some(read + [c]);
      }
    }

    method ParseString() returns (r: Option<string>)
      requires Valid()
      modifies this`pos
      ensures Valid() && Matches(JsonText.ParseString(old(Rest()), options), r, Rest())
    {
      ghost var whole := Rest();
      Step();
      var read := "";
      while pos < |input|
        invariant Valid() && (whole != "" ==> JsonText.ParseString(whole, options) == ParseChars(Rest(), read, options))
        invariant whole == "" ==> Rest() == ""
        decreases |input| - pos
      {
        if input[pos] == '\"' {
          assert Rest()[1..] == input[pos + 1..];
          pos := pos + 1;
          return if |read| > options.maxString then None else Some(read);
        }
        var next := ParseChar(read);
        if next.None? { return None; }
        read := next.value;
      }
      r := None;
    }

    method SkipDigits()
      requires Valid()
      modifies this`pos
      ensures Valid() && Rest() == AfterDigits(old(Rest()))
    {
      while pos < |input| && IsDigit(input[pos])
        invariant Valid() && AfterDigits(Rest()) == AfterDigits(old(Rest()))
      {
        assert input[pos..][1..] == input[pos + 1..];
        pos := pos + 1;
      }
    }

    /** An optional fraction and an optional exponent. */
    method SkipFractionAndExponent() returns (r: Option<bool>)
      requires Valid()
      modifies this`pos
      ensures Valid() && Matches(FractionAndExponent(old(Rest())), r, Rest())
    {
      var float := false;
      var c := Peek();
      if c == '.' {
        float := true;
        Step();
        c := Peek();
        if !IsDigit(c) { return None; }
        Step();
        SkipDigits();
      }
      c := Peek();
      if c == 'e' || c == 'E' {
        float := true;
        Step();
        c := Peek();
        if c == '+' || c == '-' { Step(); }
        c := Peek();
        if !IsDigit(c) { return None; }
        Step();
        SkipDigits();
      }
      r := Some(float);
    }

    method SkipMagnitude() returns (r: Option<bool>)
      requires Valid()
      modifies this`pos
      ensures Valid() && Matches(Magnitude(old(Rest())), r, Rest())
    {
      var c := Peek();
      if c == '0' {
        Step();
      } else if IsDigit(c) {
        Step();
        SkipDigits();
      } else {
        return None;
      }
      r := SkipFractionAndExponent();
    }

    method ParseNumber() returns (r: Option<Value>)
      requires Valid()
      modifies this`pos
      ensures Valid() && Matches(JsonText.ParseNumber(old(Rest()), options), r, Rest())
    {
      hide Magnitude, NumberOf;
      var start := pos;
      ghost var whole := Rest();
      var c := Peek();
      var negative := c == '-';
      if negative { Step(); }
      var float := SkipMagnitude();
      if float.None? { return None; }
      Token(whole, start, pos);
      r := if start <= pos then NumberOf(input[start..pos], float.value, negative, options) else None;
    }

    lemma Token(whole: string, start: nat, end: nat)
      requires start <= |input| && end <= |input| && whole == input[start..]
      ensures start <= end ==> whole[..|whole| - (|input| - end)] == input[start..end]
    {
    }

    method ParseValue() returns (r: Option<Value>)
      requires Valid()
      modifies this`pos, this`depth
      ensures Valid() && Matches(C.ParseValue(old(Rest()), old(depth), options), r, Rest())
      ensures r.Some? ==> depth == old(depth)
      decreases |input| - pos, 2
    {
      SkipWhitespace();
      var c := Peek();
      if c == 'n' {
        r := ParseWord("null", Null);
      } else if c == 't' {
        r := ParseWord("true", Bool(true));
      } else if c == 'f' {
        r := ParseWord("false", Bool(false));
      } else if c == '\"' {
        var s := ParseString();
        r := if s.None? then None else Some(Str(s.value));
      } else if c == '[' {
        r := ParseArray();
      } else if c == '{' {
        r := ParseObject();
      } else if c == '-' || IsDigit(c) {
        r := ParseNumber();
      } else {
        r := None;
      }
    }

    method ParseArray() returns (r: Option<Value>)
      requires Valid() && Rest() != ""
      modifies this`pos, this`depth
      ensures Valid() && Matches(C.ParseArray(old(Rest()), old(depth), options), r, Rest())
      ensures r.Some? ==> depth == old(depth)
      decreases |input| - pos, 1
    {
      depth := depth + 1;
      if depth >= options.maxDepth { return None; }
      Step();
      SkipWhitespace();
      var c := Peek();
      if c == ']' {
        Step();
        depth := depth - 1;
        return Some(Arr([]));
      }
      r := ParseItems();
      if r.Some? { depth := depth - 1; }
    }

    method ParseItems() returns (r: Option<Value>)
      requires Valid()
      modifies this`pos, this`depth
      ensures Valid() && Matches(C.ParseItems(old(Rest()), [], old(depth), options), r, Rest())
      ensures r.Some? ==> depth == old(depth)
      decreases |input| - pos, 3
    {
      ghost var whole := Rest();
      var read: seq<Value> := [];
      while true
        invariant Valid() && depth == old(depth) && pos >= old(pos)
        invariant C.ParseItems(whole, [], depth, options) == C.ParseItems(Rest(), read, depth, options)
        decreases |input| - pos
      {
        if |read| >= options.maxArray { return None; }
        var item := ParseValue();
        if item.None? { return None; }
        SkipWhitespace();
        var c := Peek();
        if c == ']' {
          Step();
          return Some(Arr(read + [item.value]));
        }
        if c != ',' { return None; }
        read := read + [item.value];
        Step();
        SkipWhitespace();
      }
    }

    method ParseObject() returns (r: Option<Value>)
      requires Valid() && Rest() != ""
      modifies this`pos, this`depth
      ensures Valid() && Matches(C.ParseObject(old(Rest()), old(depth), options), r, Rest())
      ensures r.Some? ==> depth == old(depth)
      decreases |input| - pos, 1
    {
      depth := depth + 1;
      if depth >= options.maxDepth { return None; }
      Step();
      SkipWhitespace();
      var c := Peek();
      if c == '}' {
        Step();
        depth := depth - 1;
        return Some(Obj([]));
      }
      r := ParseFields();
      if r.Some? { depth := depth - 1; }
    }

    method ParseField() returns (r: Option<Field>)
      requires Valid()
      modifies this`pos, this`depth
      ensures Valid() && Matches(C.ParseField(old(Rest()), old(depth), options), r, Rest())
      ensures r.Some? ==> depth == old(depth)
      decreases |input| - pos, 3
    {
      var c := Peek();
      if c != '\"' { return None; }
      var key := ParseString();
      if key.None? { return None; }
      SkipWhitespace();
      c := Peek();
      if c != ':' { return None; }
      Step();
      var value := ParseValue();
      r := if value.None? then None else Some(Field(key.value, value.value));
    }

    method ParseFields() returns (r: Option<Value>)
      requires Valid()
      modifies this`pos, this`depth
      ensures Valid() && Matches(C.ParseFields(old(Rest()), [], 0, old(depth), options), r, Rest())
      ensures r.Some? ==> depth == old(depth)
      decreases |input| - pos, 4
    {
      ghost var whole := Rest();
      var read: seq<Field> := [];
      var count := 0;
      while true
        invariant Valid() && depth == old(depth) && pos >= old(pos)
        invariant C.ParseFields(whole, [], 0, depth, options) == C.ParseFields(Rest(), read, count, depth, options)
        decreases |input| - pos
      {
        if count >= options.maxObject { return None; }
        count := count + 1;
        var field := ParseField();
        if field.None? { return None; }
        read := C.Upsert(read, field.value.key, field.value.value);
        SkipWhitespace();
        var c := Peek();
        if c == '}' {
          Step();
          return Some(Obj(read));
        }
        if c != ',' { return None; }
        Step();
        SkipWhitespace();
      }
    }

    method Decode() returns (r: Option<Value>)
      requires Valid() && pos == 0 && depth == 0 && options == options.Normalize()
      modifies this
      ensures r == C.Decode(input, options)
    {
      if |input| > options.maxInput { return None; }
      SkipWhitespace();
      r := ParseValue();
      if r.Some? {
        SkipWhitespace();
        if pos < |input| { r := None; }
      }
    }
  }
}
