/** The text a value is printed as, and the value a text is read as: what the
    encoder and decoder objects compute. */
module JsonCodec {
  import opened JsonText
  import opened JsonValue
  import opened Options

  // ---- printing ----

  /** Whether printing the value switches the stream to hexadecimal, for good. */
  predicate Switches(v: Value, o: EncodeOptions) {
    match v
    case Str(s) => SwitchesToHex(s, o)
    case Arr(items) => ItemsSwitch(items, o)
    case Obj(fields) => FieldsSwitch(fields, o)
    case _ => false
  }

  predicate ItemsSwitch(items: seq<Value>, o: EncodeOptions) {
    items != [] && (Switches(items[0], o) || ItemsSwitch(items[1..], o))
  }

  predicate FieldsSwitch(fs: seq<Field>, o: EncodeOptions) {
    fs != [] && (SwitchesToHex(fs[0].key, o) || Switches(fs[0].value, o) || FieldsSwitch(fs[1..], o))
  }

  /** Whether the stream is in hexadecimal after a field. */
  function HexAfter(f: Field, o: EncodeOptions, hex: bool): bool {
    hex || SwitchesToHex(f.key, o) || Switches(f.value, o)
  }

  function Spaces(n: int): (s: string)
    ensures forall i :: 0 <= i < |s| ==> s[i] == ' '
  {
    if n <= 0 then "" else " " + Spaces(n - 1)
  }

  function Indent(o: EncodeOptions, depth: nat): string {
    if o.pretty then "\n" + Spaces(depth * o.indent) else ""
  }

  function Separator(o: EncodeOptions): string {
    if o.pretty then " " else ""
  }

  function Lead(o: EncodeOptions, depth: nat): string {
    "," + Separator(o) + Indent(o, depth)
  }

  /** The text of a value inside `depth` brackets, on a stream that is in
      hexadecimal or not; none if it is nested too deep. */
  function Print(v: Value, o: EncodeOptions, depth: nat, hex: bool): Option<string>
    requires Valid(v)
    decreases v
  {
    match v
    case Null => Some("null")
    case Bool(b) => Some(if b then "true" else "false")
    case Int(bits, signed, n) => Some(IntText(bits, signed, n, hex))
    case Double(_) => None
    case Str(s) => Some(StringText(s, o))
    case Arr(items) =>
      if depth + 1 >= o.maxDepth then None
      else if items == [] then Some("[]")
      else
        var t := PrintItems(items, o, depth + 1, hex);
        if t.None? then None else Some("[" + t.value + Indent(o, depth + 1) + "]")
    case Obj(fields) =>
      if depth + 1 >= o.maxDepth then None
      else if fields == [] then Some("{}")
      else
        var t := PrintFields(fields, o, depth + 1, hex);
        if t.None? then None else Some("{" + t.value + Indent(o, depth + 1) + "}")
  }

  function PrintItems(items: seq<Value>, o: EncodeOptions, depth: nat, hex: bool): Option<string>
    requires AllValid(items) && items != []
    decreases items
  {
    var head := Print(items[0], o, depth, hex);
    if head.None? then None
    else if |items| == 1 then head
    else
      var tail := PrintItems(items[1..], o, depth, hex || Switches(items[0], o));
      if tail.None? then None else Some(head.value + Lead(o, depth) + tail.value)
  }

  function PrintField(f: Field, o: EncodeOptions, depth: nat, hex: bool): Option<string>
    requires IsBytes(f.key) && Valid(f.value)
    decreases f
  {
    var t := Print(f.value, o, depth, hex || SwitchesToHex(f.key, o));
    if t.None? then None else Some(StringText(f.key, o) + ":" + Separator(o) + t.value)
  }

  function PrintFields(fs: seq<Field>, o: EncodeOptions, depth: nat, hex: bool): Option<string>
    requires FieldsValid(fs) && fs != []
    decreases fs
  {
    var head := PrintField(fs[0], o, depth, hex);
    if head.None? then None
    else if |fs| == 1 then head
    else
      var tail := PrintFields(fs[1..], o, depth, HexAfter(fs[0], o, hex));
      if tail.None? then None else Some(head.value + Lead(o, depth) + tail.value)
  }

  // ---- reading ----

  /** A field takes the place of an earlier one with its key. */
  function Upsert(fs: seq<Field>, k: string, v: Value): seq<Field> {
    if fs == [] then [Field(k, v)]
    else if fs[0].key == k then [Field(k, v)] + fs[1..]
    else [fs[0]] + Upsert(fs[1..], k, v)
  }

  predicate StartsWith(s: string, word: string) {
    |s| >= |word| && s[..|word|] == word
  }

  function ParseWord(s: string, word: string, v: Value): (r: Parsed<Value>)
    requires word != ""
    ensures r.Done? ==> |r.rest| < |s|
  {
    if StartsWith(s, word) then Done(v, s[|word|..]) else Fail
  }

  function ParseValue(s: string, depth: nat, o: DecodeOptions): (r: Parsed<Value>)
    ensures r.Done? ==> |r.rest| < |s|
    decreases |s|, 2
  {
    var t := SkipWs(s);
    var c := Current(t);
    if c == 'n' then ParseWord(t, "null", Null)
    else if c == 't' then ParseWord(t, "true", Bool(true))
    else if c == 'f' then ParseWord(t, "false", Bool(false))
    else if c == '\"' then
      var r := ParseString(t, o);
      if r.Fail? then Fail else Done(Str(r.value), r.rest)
    else if c == '[' then ParseArray(t, depth, o)
    else if c == '{' then ParseObject(t, depth, o)
    else if c == '-' || IsDigit(c) then ParseNumber(t, o)
    else Fail
  }

  function ParseArray(s: string, depth: nat, o: DecodeOptions): (r: Parsed<Value>)
    requires s != ""
    ensures r.Done? ==> |r.rest| < |s|
    decreases |s|, 1
  {
    if depth + 1 >= o.maxDepth then Fail
    else
      var t := SkipWs(s[1..]);
      if Current(t) == ']' then Done(Arr([]), t[1..]) else ParseItems(t, [], depth + 1, o)
  }

  /** The items up to the closing bracket, after those already read. */
  function ParseItems(s: string, read: seq<Value>, depth: nat, o: DecodeOptions): (r: Parsed<Value>)
    ensures r.Done? ==> |r.rest| < |s|
    decreases |s|, 3
  {
    if |read| >= o.maxArray then Fail
    else
      var item := ParseValue(s, depth, o);
      if item.Fail? then Fail
      else
        var t := SkipWs(item.rest);
        if Current(t) == ']' then Done(Arr(read + [item.value]), t[1..])
        else if Current(t) != ',' then Fail
        else ParseItems(SkipWs(t[1..]), read + [item.value], depth, o)
  }

  function ParseObject(s: string, depth: nat, o: DecodeOptions): (r: Parsed<Value>)
    requires s != ""
    ensures r.Done? ==> |r.rest| < |s|
    decreases |s|, 1
  {
    if depth + 1 >= o.maxDepth then Fail
    else
      var t := SkipWs(s[1..]);
      if Current(t) == '}' then Done(Obj([]), t[1..]) else ParseFields(t, [], 0, depth + 1, o)
  }

  /** One key, its colon and its value. */
  function ParseField(s: string, depth: nat, o: DecodeOptions): (r: Parsed<Field>)
    ensures r.Done? ==> |r.rest| < |s|
    decreases |s|, 3
  {
    if Current(s) != '\"' then Fail
    else
      var key := ParseString(s, o);
      if key.Fail? then Fail
      else
        var t := SkipWs(key.rest);
        if Current(t) != ':' then Fail
        else
          var value := ParseValue(t[1..], depth, o);
          if value.Fail? then Fail else Done(Field(key.value, value.value), value.rest)
  }

  function ParseFields(s: string, read: seq<Field>, count: nat, depth: nat, o: DecodeOptions): (r: Parsed<Value>)
    ensures r.Done? ==> |r.rest| < |s|
    decreases |s|, 4
  {
    if count >= o.maxObject then Fail
    else
      var field := ParseField(s, depth, o);
      if field.Fail? then Fail
      else
        var t := SkipWs(field.rest);
        var now := Upsert(read, field.value.key, field.value.value);
        if Current(t) == '}' then Done(Obj(now), t[1..])
        else if Current(t) != ',' then Fail
        else ParseFields(SkipWs(t[1..]), now, count + 1, depth, o)
  }

  // ---- the entry points ----

  function Decode(text: string, options: DecodeOptions): Option<Value> {
    var o := options.Normalize();
    if |text| > o.maxInput then None
    else
      var r := ParseValue(SkipWs(text), 0, o);
      if r.Fail? || SkipWs(r.rest) != "" then None else Some(r.value)
  }
}
