/** Values, their D-Bus signatures, and the typed trees that a message holds. */
module DbusValue {
  import opened Options

  datatype Kind = I8 | U8 | I16 | U16 | I32 | U32 | I64 | U64

  /** Doubles are kept as their text; strings are UTF-8. */
  datatype Variant =
    | Null
    | Bool(b: bool)
    | Num(kind: Kind, n: int)
    | Double(token: string)
    | Str(s: string)
    | Blob(bytes: string)
    | Arr(items: seq<Variant>)
    | Dict(entries: seq<Entry>)

  datatype Entry = Entry(key: Variant, value: Variant)

  /** What an iterator of the message library walks over. `WArray` holds the element
      signature it was opened with. */
  datatype Wire =
    | WBool(b: bool)
    | WNum(code: char, n: int)
    | WDouble(token: string)
    | WStr(s: string)
    | WArray(elem: string, items: seq<Wire>)
    | WEntry(key: Wire, value: Wire)
    | WStruct(members: seq<Wire>)
    | WVariant(sig: string, content: Wire)

  // ---- signatures ----

  const MAX_SIGNATURE := 255

  predicate IsBasic(c: char) {
    || c == 'y' || c == 'b' || c == 'n' || c == 'q' || c == 'i' || c == 'u' || c == 'x' || c == 't' || c == 'd'
    || c == 's' || c == 'o' || c == 'g' || c == 'h'
  }

  /** The length of the struct that starts a signature, by counting parentheses. */
  function StructLength(s: string, nesting: nat): nat {
    if nesting == 0 || s == "" then 0
    else 1 + StructLength(s[1..], if s[0] == '(' then nesting + 1 else if s[0] == ')' then nesting - 1 else nesting)
  }

  predicate Closes(s: string, nesting: nat) {
    nesting == 0 || (s != "" && Closes(s[1..], if s[0] == '(' then nesting + 1 else if s[0] == ')' then nesting - 1 else nesting))
  }

  /** The length of the complete type at the start of a signature, 0 if there is
      none. After `a` an incomplete type is not noticed here. */
  function CompleteLength(s: string): (n: nat)
    ensures n <= |s|
    decreases |s|
  {
    if s == "" then 0
    else if IsBasic(s[0]) || s[0] == 'v' then 1
    else if s[0] == 'a' then (if |s| == 1 then 0 else 1 + CompleteLength(s[1..]))
    else if s[0] == '(' then
      StructBounds(s[1..], 1);
      (if Closes(s[1..], 1) then 1 + StructLength(s[1..], 1) else 0)
    else if s[0] == '{' then
      if |s| == 1 || !IsBasic(s[1]) then 0
      else
        var value := CompleteLength(s[2..]);
        if value == 0 || 2 + value >= |s| || s[2 + value] != '}' then 0 else 3 + value
    else 0
  }

  lemma {:induction false} StructBounds(s: string, nesting: nat)
    ensures StructLength(s, nesting) <= |s|
  {
    if nesting != 0 && s != "" {
      StructBounds(s[1..], if s[0] == '(' then nesting + 1 else if s[0] == ')' then nesting - 1 else nesting);
    }
  }

  predicate StartsType(c: char) {
    IsBasic(c) || c == 'a' || c == 'r' || c == '(' || c == 'v' || c == 'e' || c == '{'
  }

  predicate AllComplete(s: string)
    decreases |s|
  {
    s != "" ==> StartsType(s[0]) && CompleteLength(s) != 0 && AllComplete(s[CompleteLength(s)..])
  }

  /** What the constructor of a signature iterator checks. */
  predicate IsValid(s: string) {
    |s| <= MAX_SIGNATURE && AllComplete(s)
  }

  predicate IsSingleComplete(s: string) {
    s != "" && CompleteLength(s) == |s|
  }

  // ---- the inferred signature ----

  function KindCode(kind: Kind): char {
    match kind
    case I8 => 'y'
    case U8 => 'y'
    case I16 => 'n'
    case U16 => 'q'
    case I32 => 'i'
    case U32 => 'u'
    case I64 => 'x'
    case U64 => 't'
  }

  predicate SameType(v: Variant, w: Variant) {
    match v
    case Null => w.Null?
    case Bool(_) => w.Bool?
    case Num(kind, _) => w.Num? && w.kind == kind
    case Double(_) => w.Double?
    case Str(_) => w.Str?
    case Blob(_) => w.Blob?
    case Arr(_) => w.Arr?
    case Dict(_) => w.Dict?
  }

  predicate AllType(items: seq<Variant>, first: Variant) {
    items != [] ==> SameType(first, items[0]) && AllType(items[1..], first)
  }

  predicate KeysType(es: seq<Entry>, first: Variant) {
    es != [] ==> SameType(first, es[0].key) && KeysType(es[1..], first)
  }

  predicate ValuesType(es: seq<Entry>, first: Variant) {
    es != [] ==> SameType(first, es[0].value) && ValuesType(es[1..], first)
  }

  predicate UniformItems(items: seq<Variant>) {
    items != [] && AllType(items, items[0])
  }

  predicate UniformKeys(es: seq<Entry>) {
    es != [] && KeysType(es, es[0].key)
  }

  predicate UniformValues(es: seq<Entry>) {
    es != [] && ValuesType(es, es[0].value)
  }

  function Infer(v: Variant): (s: string)
    ensures s != ""
    decreases v, 0
  {
    match v
    case Null => "ai"
    case Bool(_) => "b"
    case Num(kind, _) => [KindCode(kind)]
    case Double(_) => "d"
    case Str(_) => "s"
    case Blob(_) => "ay"
    case Arr(items) => if items == [] then "ai" else "a" + ItemSig(items)
    case Dict(es) => if es == [] then "a{sv}" else "a{" + EntrySig(es) + "}"
  }

  function ItemSig(items: seq<Variant>): (s: string)
    requires items != []
    ensures s != ""
    decreases items, 0
  {
    if UniformItems(items) then Infer(items[0]) else "v"
  }

  /** A dictionary that mixes both its keys and its values gets a whole dictionary
      signature where a key and a value signature belong. */
  predicate Mixed(es: seq<Entry>) {
    es != [] && !UniformKeys(es) && !UniformValues(es)
  }

  function EntrySig(es: seq<Entry>): (s: string)
    requires es != []
    ensures s != ""
    decreases es, 1
  {
    if Mixed(es) then "a{sv}" else KeySig(es) + ValueSig(es)
  }

  function FirstKey(e: Entry): (s: string)
    ensures s != ""
    decreases e, 0
  {
    Infer(e.key)
  }

  function FirstValue(e: Entry): (s: string)
    ensures s != ""
    decreases e, 0
  {
    Infer(e.value)
  }

  function KeySig(es: seq<Entry>): (s: string)
    requires es != []
    ensures s != ""
    decreases es, 0
  {
    if UniformKeys(es) then FirstKey(es[0]) else "s"
  }

  function ValueSig(es: seq<Entry>): (s: string)
    requires es != []
    ensures s != ""
    decreases es, 0
  {
    if UniformValues(es) then FirstValue(es[0]) else "v"
  }
}
