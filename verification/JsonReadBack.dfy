/** What the decoder makes of the text that the encoder prints for a value: `Back`. It
    is defined on the value, not on the text, and says for every value what comes back:
    an integer that was streamed in hexadecimal is whatever its digits mean in decimal,
    a string is what its escapes show, and a nesting or a length beyond the decoder's
    limits is nothing at all. `ValueReads` is the theorem. */
module JsonReadBack {
  import opened JsonCodec
  import opened JsonNumberProofs
  import opened JsonText
  import opened JsonTextProofs
  import opened JsonValue
  import opened Options

  /** The value read from the text of `v`, if it is read to its end. */
  function Back(v: Value, o: EncodeOptions, hex: bool, depth: nat, p: DecodeOptions): Option<Value>
    requires Valid(v)
    decreases v
  {
    match v
    case Null => Some(Null)
    case Bool(b) => Some(Bool(b))
    case Int(bits, signed, n) => ReadNumber(IntText(bits, signed, n, hex), p)
    case Str(s) => if |Shown(s, o)| > p.maxString then None else Some(Str(Shown(s, o)))
    case Arr(items) =>
      if depth + 1 >= p.maxDepth || |items| > p.maxArray then None
      else
        var r := BackItems(items, o, hex, depth + 1, p);
        if r.None? then None else Some(Arr(r.value))
    case Obj(fields) =>
      if depth + 1 >= p.maxDepth || |fields| > p.maxObject then None
      else
        var r := BackFields(fields, o, hex, depth + 1, p);
        if r.None? then None else Some(Obj(r.value))
  }

  function BackItems(items: seq<Value>, o: EncodeOptions, hex: bool, depth: nat, p: DecodeOptions): Option<seq<Value>>
    requires AllValid(items)
    decreases items
  {
    if items == [] then Some([])
    else
      var head := Back(items[0], o, hex, depth, p);
      var tail := BackItems(items[1..], o, hex || Switches(items[0], o), depth, p);
      if head.None? || tail.None? then None else Some([head.value] + tail.value)
  }

  function BackField(f: Field, o: EncodeOptions, hex: bool, depth: nat, p: DecodeOptions): Option<Field>
    requires IsBytes(f.key) && Valid(f.value)
    decreases f
  {
    var v := Back(f.value, o, hex || SwitchesToHex(f.key, o), depth, p);
    if |Shown(f.key, o)| > p.maxString || v.None? then None else Some(Field(Shown(f.key, o), v.value))
  }

  function BackFields(fs: seq<Field>, o: EncodeOptions, hex: bool, depth: nat, p: DecodeOptions): Option<seq<Field>>
    requires FieldsValid(fs)
    decreases fs
  {
    if fs == [] then Some([])
    else
      var head := BackField(fs[0], o, hex, depth, p);
      var tail := BackFields(fs[1..], o, HexAfter(fs[0], o, hex), depth, p);
      if head.None? || tail.None? then None else Some([head.value] + tail.value)
  }

  // ---- white space and first characters ----

  lemma {:induction false} SkipSpaces(ws: string, x: string)
    requires (forall i :: 0 <= i < |ws| ==> IsSpace(ws[i])) && (x != "" ==> !IsSpace(x[0]))
    ensures SkipWs(ws + x) == x
  {
    if ws == "" {
      assert ws + x == x;
    } else {
      assert (ws + x)[1..] == ws[1..] + x;
      SkipSpaces(ws[1..], x);
    }
  }

  predicate Opens(c: char) {
    !IsSpace(c) && c != ']' && c != '}' && c != ':'
  }

  lemma {:induction false} PrintStarts(v: Value, o: EncodeOptions, depth: nat, hex: bool)
    requires Valid(v) && Print(v, o, depth, hex).Some?
    ensures var t := Print(v, o, depth, hex).value; t != "" && Opens(t[0])
  {
    match v
    case Int(bits, signed, n) =>
      HexadecimalHex(Unsigned(bits, n));
      if n < 0 { DecimalRound(-n); } else { DecimalRound(n); }
    case _ =>
  }

  lemma ItemsStart(items: seq<Value>, o: EncodeOptions, depth: nat, hex: bool)
    requires AllValid(items) && items != [] && PrintItems(items, o, depth, hex).Some?
    ensures var t := PrintItems(items, o, depth, hex).value; t != "" && Opens(t[0])
  {
    PrintStarts(items[0], o, depth, hex);
  }

  lemma IndentIsSpace(o: EncodeOptions, depth: nat)
    ensures forall i :: 0 <= i < |Indent(o, depth)| ==> IsSpace(Indent(o, depth)[i])
    ensures Indent(o, depth) != "" ==> Indent(o, depth)[0] == '\n'
    ensures forall i :: 0 <= i < |Separator(o) + Indent(o, depth)| ==> IsSpace((Separator(o) + Indent(o, depth))[i])
  {
  }

  // ---- one value ----

  /** Left before the end of a number: the next character is part of it. */
  predicate Stuck(rest: string) {
    rest != "" && IsHexDigit(rest[0])
  }

  predicate Reads(r: Parsed<Value>, back: Option<Value>, z: string) {
    if back.Some? then r == Done(back.value, z) else r.Fail? || Stuck(r.rest)
  }

  lemma ParseHere(t: string, z: string, d: nat, p: DecodeOptions)
    requires t != "" && !IsSpace(t[0])
    ensures SkipWs(t + z) == t + z && Current(t + z) == t[0]
  {
  }

  lemma NotFalse(t: string, z: string)
    requires AllHex(t) && t != "" && Ends(z)
    ensures !StartsWith(t + z, "false")
  {
    var s := t + z;
    if |s| >= 5 {
      assert s[..5][1] == s[1] && s[..5][2] == s[2];
      assert |t| == 1 ==> s[1] == z[0];
      assert |t| == 2 ==> s[2] == z[0];
    }
  }

  lemma IntReads(bits: nat, signed: bool, n: int, hex: bool, d: nat, p: DecodeOptions, z: string)
    requires InWidth(bits, signed, n) && Ends(z)
    ensures var t := IntText(bits, signed, n, hex);
            t != "" && Reads(ParseValue(t + z, d, p), ReadNumber(t, p), z)
  {
    var t := IntText(bits, signed, n, hex);
    if hex {
      HexadecimalHex(Unsigned(bits, n));
      HexReadsHere(t, d, p, z);
    } else {
      DecimalReads(bits, signed, n, p);
      NumberHere(t, d, p, z);
      assert "" + z == z;
    }
  }

  lemma NumberHere(t: string, d: nat, p: DecodeOptions, z: string)
    requires t != "" && t != "-" && (t[0] == '-' || IsDigit(t[0])) && Ends(z)
    ensures ParseValue(t + z, d, p) == Later(ParseNumber(t, p), z)
  {
    NumberLocal(t, z, p);
    AtNumber(t + z, d, p);
  }

  lemma AtNumber(s: string, d: nat, p: DecodeOptions)
    requires s != "" && (s[0] == '-' || IsDigit(s[0]))
    ensures ParseValue(s, d, p) == ParseNumber(s, p)
  {
  }

  lemma HexReadsHere(t: string, d: nat, p: DecodeOptions, z: string)
    requires t != "" && AllHex(t) && Ends(z)
    ensures Reads(ParseValue(t + z, d, p), ReadNumber(t, p), z)
  {
    if IsDigit(t[0]) {
      NumberHere(t, d, p, z);
      HexNumber(t, p);
      assert "" + z == z;
    } else {
      ParseHere(t, z, d, p);
      NotFalse(t, z);
    }
  }

  lemma WordReads(word: string, v: Value, z: string)
    requires word != ""
    ensures ParseWord(word + z, word, v) == Done(v, z)
  {
    assert (word + z)[..|word|] == word && (word + z)[|word|..] == z;
  }

  lemma TextReads(s: string, o: EncodeOptions, d: nat, p: DecodeOptions, z: string)
    requires IsBytes(s)
    ensures ParseValue(StringText(s, o) + z, d, p)
         == if |Shown(s, o)| > p.maxString then Fail else Done(Str(Shown(s, o)), z)
  {
    ParseHere(StringText(s, o), z, d, p);
    StringReads(s, z, o, p);
  }

  /** Reading the text of a value, whatever follows it, gives `Back`. */
  lemma {:induction false} ValueReads(v: Value, o: EncodeOptions, depth: nat, hex: bool, d: nat, p: DecodeOptions, z: string)
    requires Valid(v) && Print(v, o, depth, hex).Some? && Ends(z)
    ensures Reads(ParseValue(Print(v, o, depth, hex).value + z, d, p), Back(v, o, hex, d, p), z)
    decreases v, 0
  {
    match v
    case Null => WordReads("null", Null, z);
    case Bool(b) => WordReads(if b then "true" else "false", Bool(b), z);
    case Int(bits, signed, n) => IntReads(bits, signed, n, hex, d, p, z);
    case Str(s) => TextReads(s, o, d, p, z);
    case Arr(items) => ArrayReads(items, o, depth, hex, d, p, z);
    case Obj(fields) => ObjectReads(fields, o, depth, hex, d, p, z);
  }

  lemma Bracketed(open: string, inner: string, indent: string, close: string, z: string)
    requires |open| == 1
    ensures (open + inner + indent + close + z)[1..] == inner + (indent + close + z)
  {
  }

  // ---- arrays ----

  lemma {:induction false} ArrayReads(items: seq<Value>, o: EncodeOptions, depth: nat, hex: bool, d: nat, p: DecodeOptions,
                                      z: string)
    requires AllValid(items) && Print(Arr(items), o, depth, hex).Some? && Ends(z)
    ensures Reads(ParseValue(Print(Arr(items), o, depth, hex).value + z, d, p), Back(Arr(items), o, hex, d, p), z)
    decreases items, 3
  {
    var t := Print(Arr(items), o, depth, hex).value;
    if items == [] {
      assert (t + z)[1..] == "]" + z && ("]" + z)[1..] == z;
    } else {
      var inner := PrintItems(items, o, depth + 1, hex).value + (Indent(o, depth + 1) + "]" + z);
      Bracketed("[", PrintItems(items, o, depth + 1, hex).value, Indent(o, depth + 1), "]", z);
      ItemsStart(items, o, depth + 1, hex);
      OpenArray(t + z, inner, d, p);
      ItemsRead(items, o, depth + 1, hex, [], d + 1, p, z);
      var back := BackItems(items, o, hex, d + 1, p);
      if back.Some? { assert [] + back.value == back.value; }
    }
  }

  lemma OpenArray(s: string, inner: string, d: nat, p: DecodeOptions)
    requires s != "" && s[0] == '[' && s[1..] == inner && inner != "" && Opens(inner[0])
    ensures ParseValue(s, d, p) == if d + 1 >= p.maxDepth then Fail else ParseItems(inner, [], d + 1, p)
  {
  }

  lemma ItemsSplit(items: seq<Value>, o: EncodeOptions, depth: nat, hex: bool, end: string)
    requires AllValid(items) && |items| > 1 && PrintItems(items, o, depth, hex).Some?
    ensures var head := Print(items[0], o, depth, hex);
            var tail := PrintItems(items[1..], o, depth, hex || Switches(items[0], o));
            && head.Some? && tail.Some?
            && PrintItems(items, o, depth, hex).value + end == head.value + (Lead(o, depth) + (tail.value + end))
  {
    var head := Print(items[0], o, depth, hex).value;
    var tail := PrintItems(items[1..], o, depth, hex || Switches(items[0], o)).value;
    Regroup(head, Lead(o, depth), tail, end);
  }

  lemma ClosingSkips(o: EncodeOptions, depth: nat, close: string, z: string)
    requires close == "]" || close == "}"
    ensures var end := Indent(o, depth) + close + z; Ends(end) && SkipWs(end) == close + z
  {
    IndentIsSpace(o, depth);
    SkipSpaces(Indent(o, depth), close + z);
    assert Indent(o, depth) + close + z == Indent(o, depth) + (close + z);
  }

  lemma {:induction false} LastItemReads(items: seq<Value>, o: EncodeOptions, depth: nat, hex: bool, read: seq<Value>,
                                         d: nat, p: DecodeOptions, z: string)
    requires AllValid(items) && |items| == 1 && PrintItems(items, o, depth, hex).Some?
    ensures var t := PrintItems(items, o, depth, hex).value;
            var back := BackItems(items, o, hex, d, p);
            ParseItems(t + (Indent(o, depth) + "]" + z), read, d, p)
            == if |read| + |items| > p.maxArray || back.None? then Fail else Done(Arr(read + back.value), z)
    decreases items, 1
  {
    var end := Indent(o, depth) + "]" + z;
    ClosingSkips(o, depth, "]", z);
    ValueReads(items[0], o, depth, hex, d, p, end);
    OneItem(items, o, hex, d, p);
    LastItem(Print(items[0], o, depth, hex).value + end, read, Back(items[0], o, hex, d, p), d, p, end, z);
  }

  /** Reading items after `read`, up to the closing bracket. */
  lemma {:induction false} ItemsRead(items: seq<Value>, o: EncodeOptions, depth: nat, hex: bool, read: seq<Value>, d: nat,
                                     p: DecodeOptions, z: string)
    requires AllValid(items) && items != [] && PrintItems(items, o, depth, hex).Some?
    ensures var t := PrintItems(items, o, depth, hex).value;
            var back := BackItems(items, o, hex, d, p);
            ParseItems(t + (Indent(o, depth) + "]" + z), read, d, p)
            == if |read| + |items| > p.maxArray || back.None? then Fail else Done(Arr(read + back.value), z)
    decreases items, 2
  {
    if |items| == 1 {
      LastItemReads(items, o, depth, hex, read, d, p, z);
    } else {
      var end, hex' := Indent(o, depth) + "]" + z, hex || Switches(items[0], o);
      ItemsSplit(items, o, depth, hex, end);
      ItemsStart(items[1..], o, depth, hex');
      var next := PrintItems(items[1..], o, depth, hex').value + end;
      LeadSkips(o, depth, next);
      ValueReads(items[0], o, depth, hex, d, p, Lead(o, depth) + next);
      var first := Back(items[0], o, hex, d, p);
      MiddleItem(Print(items[0], o, depth, hex).value + (Lead(o, depth) + next), read, first, d, p, Lead(o, depth) + next, next);
      if first.Some? {
        ItemsRead(items[1..], o, depth, hex', read + [first.value], d, p, z);
        MoreItems(items, o, hex, read, d, p);
      }
    }
  }

  lemma MoreItems(items: seq<Value>, o: EncodeOptions, hex: bool, read: seq<Value>, d: nat, p: DecodeOptions)
    requires AllValid(items) && items != [] && Back(items[0], o, hex, d, p).Some?
    ensures var first := Back(items[0], o, hex, d, p).value;
            var more := BackItems(items[1..], o, hex || Switches(items[0], o), d, p);
            var all := BackItems(items, o, hex, d, p);
            && all.Some? == more.Some?
            && (all.Some? ==> read + all.value == read + [first] + more.value)
  {
  }

  lemma OneItem(items: seq<Value>, o: EncodeOptions, hex: bool, d: nat, p: DecodeOptions)
    requires AllValid(items) && |items| == 1
    ensures var head := Back(items[0], o, hex, d, p);
            BackItems(items, o, hex, d, p) == if head.None? then None else Some([head.value])
  {
    assert items[1..] == [];
    var head := Back(items[0], o, hex, d, p);
    if head.Some? { assert [head.value] + [] == [head.value]; }
  }

  /** After a separator the parser is at the next item. */
  lemma LeadSkips(o: EncodeOptions, depth: nat, next: string)
    requires next != "" && !IsSpace(next[0])
    ensures var rest := Lead(o, depth) + next;
            Ends(rest) && SkipWs(rest) == rest && rest[0] == ',' && SkipWs(rest[1..]) == next
  {
    IndentIsSpace(o, depth);
    var rest := Lead(o, depth) + next;
    assert rest[1..] == Separator(o) + Indent(o, depth) + next;
    SkipSpaces(Separator(o) + Indent(o, depth), next);
  }

  lemma LastItem(s: string, read: seq<Value>, back: Option<Value>, d: nat, p: DecodeOptions, rest: string, z: string)
    requires Reads(ParseValue(s, d, p), back, rest) && SkipWs(rest) == "]" + z
    ensures ParseItems(s, read, d, p)
         == if |read| + 1 > p.maxArray || back.None? then Fail else Done(Arr(read + [back.value]), z)
  {
    assert ("]" + z)[1..] == z;
  }

  lemma MiddleItem(s: string, read: seq<Value>, back: Option<Value>, d: nat, p: DecodeOptions, rest: string, next: string)
    requires Reads(ParseValue(s, d, p), back, rest)
    requires rest != "" && SkipWs(rest) == rest && rest[0] == ',' && SkipWs(rest[1..]) == next
    ensures ParseItems(s, read, d, p)
         == if |read| + 1 > p.maxArray || back.None? then Fail else ParseItems(next, read + [back.value], d, p)
  {
  }

  // ---- objects ----

  lemma {:induction false} ObjectReads(fs: seq<Field>, o: EncodeOptions, depth: nat, hex: bool, d: nat, p: DecodeOptions,
                                       z: string)
    requires FieldsValid(fs) && Print(Obj(fs), o, depth, hex).Some? && Ends(z)
    ensures Reads(ParseValue(Print(Obj(fs), o, depth, hex).value + z, d, p), Back(Obj(fs), o, hex, d, p), z)
    decreases fs, 3
  {
    var t := Print(Obj(fs), o, depth, hex).value;
    if fs == [] {
      assert (t + z)[1..] == "}" + z && ("}" + z)[1..] == z;
    } else {
      var inner := PrintFields(fs, o, depth + 1, hex).value + (Indent(o, depth + 1) + "}" + z);
      Bracketed("{", PrintFields(fs, o, depth + 1, hex).value, Indent(o, depth + 1), "}", z);
      FieldsStart(fs, o, depth + 1, hex);
      OpenObject(t + z, inner, d, p);
      FreshInEmpty(fs, o);
      FieldsRead(fs, o, depth + 1, hex, [], 0, d + 1, p, z);
      var back := BackFields(fs, o, hex, d + 1, p);
      if back.Some? { assert [] + back.value == back.value; }
    }
  }

  lemma OpenObject(s: string, inner: string, d: nat, p: DecodeOptions)
    requires s != "" && s[0] == '{' && s[1..] == inner && inner != "" && Opens(inner[0])
    ensures ParseValue(s, d, p) == if d + 1 >= p.maxDepth then Fail else ParseFields(inner, [], 0, d + 1, p)
  {
  }

  predicate ReadsField(r: Parsed<Field>, back: Option<Field>, z: string) {
    if back.Some? then r == Done(back.value, z) else r.Fail? || Stuck(r.rest)
  }

  lemma {:induction false} FieldReads(f: Field, o: EncodeOptions, depth: nat, hex: bool, d: nat, p: DecodeOptions, z: string)
    requires IsBytes(f.key) && Valid(f.value) && PrintField(f, o, depth, hex).Some? && Ends(z)
    ensures ReadsField(ParseField(PrintField(f, o, depth, hex).value + z, d, p), BackField(f, o, hex, d, p), z)
    decreases f, 1
  {
    var hex' := hex || SwitchesToHex(f.key, o);
    var v := Print(f.value, o, depth, hex').value;
    var key, after := StringText(f.key, o), Separator(o) + (v + z);
    Split(key, ":", Separator(o), v, z);
    StringReads(f.key, ":" + after, o, p);
    PrintStarts(f.value, o, depth, hex');
    ValueReads(f.value, o, depth, hex', d, p, z);
    SkipSpaces(Separator(o), v + z);
    ParseHere(v, z, d, p);
    SkipThenParse(after, v + z, d, p);
    AfterKey(key + (":" + after), Shown(f.key, o), after, d, p);
  }

  lemma Split(a: string, b: string, c: string, d: string, e: string)
    ensures a + b + c + d + e == a + (b + (c + (d + e)))
  {
  }

  lemma SkipThenParse(s: string, t: string, d: nat, p: DecodeOptions)
    requires SkipWs(s) == t && SkipWs(t) == t
    ensures ParseValue(s, d, p) == ParseValue(t, d, p)
  {
  }

  lemma AfterKey(s: string, key: string, after: string, d: nat, p: DecodeOptions)
    requires Current(s) == '\"'
    requires ParseString(s, p) == if |key| > p.maxString then Fail else Done(key, ":" + after)
    ensures ParseField(s, d, p)
         == if |key| > p.maxString then Fail
            else
              var value := ParseValue(after, d, p);
              if value.Fail? then Fail else Done(Field(key, value.value), value.rest)
  {
    assert (":" + after)[1..] == after;
  }

  /** None of the fields' keys, as read, is among those already read. */
  predicate Fresh(read: seq<Field>, fs: seq<Field>, o: EncodeOptions)
    requires FieldsValid(fs)
  {
    fs != [] ==> !HasKey(read, Shown(fs[0].key, o)) && Fresh(read, fs[1..], o)
  }

  lemma {:induction false} FreshInEmpty(fs: seq<Field>, o: EncodeOptions)
    requires FieldsValid(fs)
    ensures Fresh([], fs, o)
  {
    if fs != [] { FreshInEmpty(fs[1..], o); }
  }

  lemma {:induction false} HasKeyConcat(a: seq<Field>, f: Field, k: string)
    ensures HasKey(a + [f], k) <==> HasKey(a, k) || f.key == k
  {
    if a == [] {
      assert a + [f] == [f];
    } else {
      assert (a + [f])[1..] == a[1..] + [f];
      HasKeyConcat(a[1..], f, k);
    }
  }

  lemma {:induction false} FreshExtends(read: seq<Field>, fs: seq<Field>, k: string, v: Value, o: EncodeOptions)
    requires FieldsValid(fs) && IsBytes(k) && !HasKey(fs, k) && Fresh(read, fs, o)
    ensures Fresh(read + [Field(Shown(k, o), v)], fs, o)
  {
    if fs != [] {
      if Shown(fs[0].key, o) == Shown(k, o) { ShownDistinct(fs[0].key, k, o); }
      HasKeyConcat(read, Field(Shown(k, o), v), Shown(fs[0].key, o));
      FreshExtends(read, fs[1..], k, v, o);
    }
  }

  lemma {:induction false} UpsertFresh(fs: seq<Field>, k: string, v: Value)
    requires !HasKey(fs, k)
    ensures Upsert(fs, k, v) == fs + [Field(k, v)]
  {
    if fs != [] { UpsertFresh(fs[1..], k, v); }
  }

  function FieldsResult(tooMany: bool, read: seq<Field>, back: Option<seq<Field>>, z: string): Parsed<Value> {
    if tooMany || back.None? then Fail else Done(Obj(read + back.value), z)
  }

  lemma FieldsParts(fs: seq<Field>, o: EncodeOptions, depth: nat, hex: bool)
    requires FieldsValid(fs) && |fs| > 1 && PrintFields(fs, o, depth, hex).Some?
    ensures var head := PrintField(fs[0], o, depth, hex);
            var tail := PrintFields(fs[1..], o, depth, HexAfter(fs[0], o, hex));
            && head.Some? && tail.Some?
            && PrintFields(fs, o, depth, hex).value == head.value + Lead(o, depth) + tail.value
  {
    hide PrintField, Lead, HexAfter;
  }

  lemma FieldsSplit(fs: seq<Field>, o: EncodeOptions, depth: nat, hex: bool, end: string)
    requires FieldsValid(fs) && |fs| > 1 && PrintFields(fs, o, depth, hex).Some?
    ensures var head := PrintField(fs[0], o, depth, hex);
            var tail := PrintFields(fs[1..], o, depth, HexAfter(fs[0], o, hex));
            && head.Some? && tail.Some?
            && PrintFields(fs, o, depth, hex).value + end == head.value + (Lead(o, depth) + (tail.value + end))
  {
    hide PrintFields, PrintField, Lead, HexAfter;
    FieldsParts(fs, o, depth, hex);
    Regroup(PrintField(fs[0], o, depth, hex).value, Lead(o, depth),
            PrintFields(fs[1..], o, depth, HexAfter(fs[0], o, hex)).value, end);
  }

  lemma {:induction false} LastFieldReads(fs: seq<Field>, o: EncodeOptions, depth: nat, hex: bool, read: seq<Field>,
                                          count: nat, d: nat, p: DecodeOptions, z: string)
    requires FieldsValid(fs) && |fs| == 1 && PrintFields(fs, o, depth, hex).Some? && Fresh(read, fs, o)
    ensures var t := PrintFields(fs, o, depth, hex).value;
            var back := BackFields(fs, o, hex, d, p);
            ParseFields(t + (Indent(o, depth) + "}" + z), read, count, d, p)
            == FieldsResult(count + |fs| > p.maxObject, read, back, z)
    decreases fs, 1
  {
    var end := Indent(o, depth) + "}" + z;
    var back := BackField(fs[0], o, hex, d, p);
    if back.Some? { UpsertFresh(read, back.value.key, back.value.value); }
    ClosingSkips(o, depth, "}", z);
    FieldReads(fs[0], o, depth, hex, d, p, end);
    OneField(fs, o, hex, d, p);
    LastField(PrintField(fs[0], o, depth, hex).value + end, read, count, back, d, p, end, z);
  }

  lemma {:induction false} FieldsRead(fs: seq<Field>, o: EncodeOptions, depth: nat, hex: bool, read: seq<Field>, count: nat,
                                      d: nat, p: DecodeOptions, z: string)
    requires FieldsValid(fs) && fs != [] && PrintFields(fs, o, depth, hex).Some? && Fresh(read, fs, o)
    ensures var t := PrintFields(fs, o, depth, hex).value;
            var back := BackFields(fs, o, hex, d, p);
            ParseFields(t + (Indent(o, depth) + "}" + z), read, count, d, p)
            == FieldsResult(count + |fs| > p.maxObject, read, back, z)
    decreases fs, 2
  {
    if |fs| == 1 {
      LastFieldReads(fs, o, depth, hex, read, count, d, p, z);
    } else {
      FirstFieldReads(fs, o, depth, hex, read, count, d, p, z);
      var first := BackField(fs[0], o, hex, d, p);
      if first.Some? { OtherFieldsRead(fs, o, depth, hex, read, first.value, count, d, p, z); }
      MoreFields(fs, o, hex, read, count, d, p, z);
    }
  }

  lemma {:induction false} OtherFieldsRead(fs: seq<Field>, o: EncodeOptions, depth: nat, hex: bool, read: seq<Field>,
                                           first: Field, count: nat, d: nat, p: DecodeOptions, z: string)
    requires FieldsValid(fs) && |fs| > 1 && Fresh(read, fs, o) && first.key == Shown(fs[0].key, o)
    requires PrintFields(fs[1..], o, depth, HexAfter(fs[0], o, hex)).Some?
    ensures var t := PrintFields(fs[1..], o, depth, HexAfter(fs[0], o, hex)).value;
            var back := BackFields(fs[1..], o, HexAfter(fs[0], o, hex), d, p);
            ParseFields(t + (Indent(o, depth) + "}" + z), read + [first], count + 1, d, p)
            == FieldsResult(count + 1 + |fs[1..]| > p.maxObject, read + [first], back, z)
    decreases fs, 1
  {
    FreshExtends(read, fs[1..], fs[0].key, first.value, o);
    FieldsRead(fs[1..], o, depth, HexAfter(fs[0], o, hex), read + [first], count + 1, d, p, z);
  }

  lemma {:induction false} FirstFieldReads(fs: seq<Field>, o: EncodeOptions, depth: nat, hex: bool, read: seq<Field>,
                                           count: nat, d: nat, p: DecodeOptions, z: string)
    requires FieldsValid(fs) && |fs| > 1 && PrintFields(fs, o, depth, hex).Some? && Fresh(read, fs, o)
    ensures var end, hex' := Indent(o, depth) + "}" + z, HexAfter(fs[0], o, hex);
            var first, tail := BackField(fs[0], o, hex, d, p), PrintFields(fs[1..], o, depth, hex');
            && tail.Some?
            && ParseFields(PrintFields(fs, o, depth, hex).value + end, read, count, d, p)
               == if count + 1 > p.maxObject || first.None? then Fail
                  else ParseFields(tail.value + end, read + [first.value], count + 1, d, p)
    decreases fs, 1
  {
    var end, hex' := Indent(o, depth) + "}" + z, HexAfter(fs[0], o, hex);
    FieldsSplit(fs, o, depth, hex, end);
    FieldsStart(fs[1..], o, depth, hex');
    var next := PrintFields(fs[1..], o, depth, hex').value + end;
    LeadSkips(o, depth, next);
    FieldReads(fs[0], o, depth, hex, d, p, Lead(o, depth) + next);
    var first := BackField(fs[0], o, hex, d, p);
    if first.Some? { UpsertFresh(read, first.value.key, first.value.value); }
    MiddleField(PrintField(fs[0], o, depth, hex).value + (Lead(o, depth) + next), read, count, first, d, p,
                Lead(o, depth) + next, next);
  }

  lemma MoreFields(fs: seq<Field>, o: EncodeOptions, hex: bool, read: seq<Field>, count: nat, d: nat, p: DecodeOptions,
                   z: string)
    requires FieldsValid(fs) && fs != []
    ensures var first := BackField(fs[0], o, hex, d, p);
            var more := BackFields(fs[1..], o, HexAfter(fs[0], o, hex), d, p);
            FieldsResult(count + |fs| > p.maxObject, read, BackFields(fs, o, hex, d, p), z)
            == if count + 1 > p.maxObject || first.None? then Fail
               else FieldsResult(count + 1 + |fs[1..]| > p.maxObject, read + [first.value], more, z)
  {
    var first := BackField(fs[0], o, hex, d, p);
    var more := BackFields(fs[1..], o, HexAfter(fs[0], o, hex), d, p);
    if first.Some? && more.Some? { assert read + [first.value] + more.value == read + ([first.value] + more.value); }
  }

  lemma OneField(fs: seq<Field>, o: EncodeOptions, hex: bool, d: nat, p: DecodeOptions)
    requires FieldsValid(fs) && |fs| == 1
    ensures var head := BackField(fs[0], o, hex, d, p);
            BackFields(fs, o, hex, d, p) == if head.None? then None else Some([head.value])
  {
    assert fs[1..] == [];
    var head := BackField(fs[0], o, hex, d, p);
    if head.Some? { assert [head.value] + [] == [head.value]; }
  }

  lemma FieldsStart(fs: seq<Field>, o: EncodeOptions, depth: nat, hex: bool)
    requires FieldsValid(fs) && fs != [] && PrintFields(fs, o, depth, hex).Some?
    ensures var t := PrintFields(fs, o, depth, hex).value; t != "" && t[0] == '\"'
  {
    assert StringText(fs[0].key, o)[0] == '\"';
  }

  lemma LastField(s: string, read: seq<Field>, count: nat, back: Option<Field>, d: nat, p: DecodeOptions, rest: string,
                  z: string)
    requires ReadsField(ParseField(s, d, p), back, rest) && SkipWs(rest) == "}" + z
    requires back.Some? ==> Upsert(read, back.value.key, back.value.value) == read + [back.value]
    ensures ParseFields(s, read, count, d, p)
         == if count + 1 > p.maxObject || back.None? then Fail else Done(Obj(read + [back.value]), z)
  {
    assert ("}" + z)[1..] == z;
  }

  lemma MiddleField(s: string, read: seq<Field>, count: nat, back: Option<Field>, d: nat, p: DecodeOptions, rest: string,
                    next: string)
    requires ReadsField(ParseField(s, d, p), back, rest)
    requires back.Some? ==> Upsert(read, back.value.key, back.value.value) == read + [back.value]
    requires rest != "" && SkipWs(rest) == rest && rest[0] == ',' && SkipWs(rest[1..]) == next
    ensures ParseFields(s, read, count, d, p)
         == if count + 1 > p.maxObject || back.None? then Fail
            else ParseFields(next, read + [back.value], count + 1, d, p)
  {
  }
}
