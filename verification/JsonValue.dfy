/** The values the JSON codec prints and reads, and when two of them are the same. */
module JsonValue {
  import opened Options

  /** Text is a sequence of bytes, each a character below 256. A number read as
      floating point is kept as its text. */
  datatype Value =
    | Null
    | Bool(b: bool)
    | Int(bits: nat, signed: bool, n: int)
    | Double(token: string)
    | Str(s: string)
    | Arr(items: seq<Value>)
    | Obj(fields: seq<Field>)

  datatype Field = Field(key: string, value: Value)

  datatype EncodeOptions = EncodeOptions(pretty: bool, indent: int, escapeNonAscii: bool, sortKeys: bool, maxDepth: int)
  {
    function Normalize(): (o: EncodeOptions)
      ensures 0 <= o.indent <= 8 && 1 <= o.maxDepth <= 512
    {
      this.(indent := if indent < 0 then 0 else if indent > 8 then 8 else indent,
            maxDepth := if maxDepth < 1 then 1 else if maxDepth > 512 then 512 else maxDepth)
    }
  }

  /** `floats` says which floating-point texts `strtod` takes without a range error. */
  datatype DecodeOptions = DecodeOptions(maxDepth: int, maxInput: nat, maxString: nat, maxArray: nat, maxObject: nat,
                                         floats: string -> bool)
  {
    function Normalize(): (o: DecodeOptions)
      ensures o.maxDepth > 0 && o.maxInput > 0 && o.maxString > 0 && o.maxArray > 0 && o.maxObject > 0
    {
      this.(maxDepth := AtLeastOne(maxDepth), maxInput := AtLeastOne(maxInput), maxString := AtLeastOne(maxString),
            maxArray := AtLeastOne(maxArray), maxObject := AtLeastOne(maxObject))
    }
  }

  function AtLeastOne(n: int): nat {
    if n < 1 then 1 else n
  }

  predicate IsBytes(s: string) {
    forall i :: 0 <= i < |s| ==> s[i] as int < 256
  }

  predicate IsAscii(s: string) {
    forall i :: 0 <= i < |s| ==> s[i] as int < 128
  }

  predicate HasKey(fs: seq<Field>, k: string) {
    fs != [] && (fs[0].key == k || HasKey(fs[1..], k))
  }

  function ValueAt(fs: seq<Field>, k: string): Value
    requires HasKey(fs, k)
  {
    if fs[0].key == k then fs[0].value else ValueAt(fs[1..], k)
  }

  /** A value the program can hold: integers of 16, 32 or 64 bits within their
      range, byte strings, keys without repetition. Doubles are not printed here. */
  predicate Valid(v: Value) {
    match v
    case Int(bits, signed, n) => InWidth(bits, signed, n)
    case Double(_) => false
    case Str(s) => IsBytes(s)
    case Arr(items) => AllValid(items)
    case Obj(fields) => FieldsValid(fields)
    case _ => true
  }

  predicate AllValid(items: seq<Value>) {
    items != [] ==> Valid(items[0]) && AllValid(items[1..])
  }

  predicate FieldsValid(fs: seq<Field>) {
    fs != [] ==>
      IsBytes(fs[0].key) && Valid(fs[0].value) && !HasKey(fs[1..], fs[0].key) && FieldsValid(fs[1..])
  }

  function Pow2(bits: nat): nat {
    if bits == 16 then 0x1_0000 else if bits == 32 then 0x1_0000_0000 else 0x1_0000_0000_0000_0000
  }

  predicate InWidth(bits: nat, signed: bool, n: int) {
    && (bits == 16 || bits == 32 || bits == 64)
    && if signed then 0 <= Pow2(bits) + 2 * n < 2 * Pow2(bits) else 0 <= n < Pow2(bits)
  }

  /** The same value up to the width and sign of integers and the order of keys. */
  predicate Alike(v: Value, w: Value)
    decreases v
  {
    match v
    case Null => w.Null?
    case Bool(b) => w == Bool(b)
    case Int(_, _, n) => w.Int? && w.n == n
    case Double(token) => w == Double(token)
    case Str(s) => w == Str(s)
    case Arr(items) => w.Arr? && AllAlike(items, w.items)
    case Obj(fields) => w.Obj? && FieldsAlike(fields, w.fields) && KeysWithin(w.fields, fields)
  }

  predicate AllAlike(xs: seq<Value>, ys: seq<Value>)
    decreases xs
  {
    |xs| == |ys| && (xs != [] ==> Alike(xs[0], ys[0]) && AllAlike(xs[1..], ys[1..]))
  }

  /** Every field is present, with a value alike, among `gs`. */
  predicate FieldsAlike(fs: seq<Field>, gs: seq<Field>)
    decreases fs
  {
    fs != [] ==>
      HasKey(gs, fs[0].key) && Alike(fs[0].value, ValueAt(gs, fs[0].key)) && FieldsAlike(fs[1..], gs)
  }

  predicate KeysWithin(gs: seq<Field>, fs: seq<Field>) {
    gs != [] ==> HasKey(fs, gs[0].key) && KeysWithin(gs[1..], fs)
  }

  // ---- the order in which fields are printed ----

  /** Byte-wise lexicographic order. */
  predicate Below(a: string, b: string) {
    b != "" && (a == "" || a[0] < b[0] || (a[0] == b[0] && Below(a[1..], b[1..])))
  }

  function Insert(f: Field, fs: seq<Field>): (r: seq<Field>)
    ensures |r| == |fs| + 1
  {
    if fs == [] || Below(f.key, fs[0].key) then [f] + fs else [fs[0]] + Insert(f, fs[1..])
  }

  function SortFields(fs: seq<Field>): (r: seq<Field>)
    ensures |r| == |fs|
  {
    if fs == [] then [] else Insert(fs[0], SortFields(fs[1..]))
  }

  /** The value with every object's fields in the order the encoder prints them. */
  function Arrange(v: Value, sort: bool): Value {
    match v
    case Arr(items) => Arr(ArrangeAll(items, sort))
    case Obj(fields) => Obj(if sort then SortFields(ArrangeFields(fields, sort)) else ArrangeFields(fields, sort))
    case _ => v
  }

  function ArrangeAll(items: seq<Value>, sort: bool): seq<Value> {
    if items == [] then [] else [Arrange(items[0], sort)] + ArrangeAll(items[1..], sort)
  }

  function ArrangeFields(fs: seq<Field>, sort: bool): seq<Field> {
    if fs == [] then [] else [Field(fs[0].key, Arrange(fs[0].value, sort))] + ArrangeFields(fs[1..], sort)
  }
}
