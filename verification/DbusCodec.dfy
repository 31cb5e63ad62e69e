/** What the message writer builds from a value, and what the message reader makes
    of a typed tree. */
module DbusCodec {
  import opened DbusValue
  import opened Options

  const MAX_DEPTH := 64
  const MAX_ARRAY := 0x400_0000

  // ---- writing ----

  function DecimalText(n: nat): string {
    if n < 10 then ['0' + n as char] else DecimalText(n / 10) + ['0' + (n % 10) as char]
  }

  /** A basic value as text; other values have none here. */
  function TextOf(v: Variant): Option<string> {
    match v
    case Bool(b) => Some(if b then "true" else "false")
    case Num(_, n) => Some(if n < 0 then "-" + DecimalText(-n) else DecimalText(n))
    case Double(token) => Some(token)
    case Str(s) => Some(s)
    case _ => None
  }

  /** The library takes a C string, which ends at its first NUL. */
  function CString(s: string): string {
    if s == "" || s[0] == '\0' then "" else [s[0]] + CString(s[1..])
  }

  /** A basic value written under its own code, or as text. A byte takes the low
      eight bits of a signed one. */
  function WriteBasic(code: char, v: Variant): Option<Wire> {
    if code == 's' then
      var t := TextOf(v);
      if t.None? then None else Some(WStr(CString(t.value)))
    else
      match v
      case Bool(b) => if code == 'b' then Some(WBool(b)) else None
      case Num(kind, n) =>
        if KindCode(kind) == code then Some(WNum(code, if kind == I8 then n % 256 else n)) else None
      case Double(token) => if code == 'd' then Some(WDouble(token)) else None
      case _ => None
  }

  /** Writes one value under the first type of a signature. */
  function Write(sig: string, v: Variant, depth: nat): Option<Wire>
    requires sig != ""
    decreases MAX_DEPTH - depth, 0
  {
    if depth >= MAX_DEPTH then None
    else if sig[0] == 'a' then
      var length := CompleteLength(sig);
      if length == 0 || !IsValid(sig[1..length]) then None
      else WriteArrayOrDict(sig[1..length], v, depth + 1)
    else if sig[0] == 'v' then WriteVariant(v, depth + 1)
    else WriteBasic(sig[0], v)
  }

  /** Writes a value as a variant, under its inferred signature. */
  function WriteVariant(v: Variant, depth: nat): Option<Wire>
    decreases MAX_DEPTH - depth, 1
  {
    if !IsValid(Infer(v)) then None
    else if depth + 1 >= MAX_DEPTH then None
    else
      var content := Write(Infer(v), v, depth + 1);
      if content.None? then None else Some(WVariant(Infer(v), content.value))
  }

  function WriteArrayOrDict(elem: string, v: Variant, depth: nat): Option<Wire>
    decreases MAX_DEPTH - depth, 0
  {
    if depth >= MAX_DEPTH || elem == "" then None
    else if elem[0] == '{' then
      if v.Arr? && v.items == [] then WriteDict(elem, [], depth + 1)
      else if v.Dict? then WriteDict(elem, v.entries, depth + 1)
      else None
    else if v.Null? then Some(WArray("i", []))
    else if v.Arr? then WriteArray(elem, v.items, depth + 1)
    else None
  }

  function WriteArray(elem: string, items: seq<Variant>, depth: nat): Option<Wire>
    requires elem != ""
    decreases MAX_DEPTH - depth, 0
  {
    if depth >= MAX_DEPTH || |items| > MAX_ARRAY then None
    else
      var ws := WriteItems(elem, items, depth + 1);
      if ws.None? then None else Some(WArray(elem, ws.value))
  }

  function WriteItems(elem: string, items: seq<Variant>, depth: nat): Option<seq<Wire>>
    requires elem != ""
    decreases MAX_DEPTH - depth, 1, items
  {
    if items == [] then Some([])
    else
      var first, rest := Write(elem, items[0], depth), WriteItems(elem, items[1..], depth);
      if first.None? || rest.None? then None else Some([first.value] + rest.value)
  }

  /** `elem` is a dictionary entry type: its key code follows the bracket, its value
      type follows the key. */
  function WriteDict(elem: string, es: seq<Entry>, depth: nat): Option<Wire>
    requires elem != "" && elem[0] == '{'
    decreases MAX_DEPTH - depth, 0
  {
    if depth >= MAX_DEPTH || |es| > MAX_ARRAY then None
    else
      var ws := WriteEntries(elem, es, depth + 1);
      if ws.None? then None else Some(WArray(elem, ws.value))
  }

  function WriteEntries(elem: string, es: seq<Entry>, depth: nat): Option<seq<Wire>>
    decreases MAX_DEPTH - depth, 2, es
  {
    if es == [] then Some([])
    else
      var first, rest := WriteEntry(elem, es[0], depth), WriteEntries(elem, es[1..], depth);
      if first.None? || rest.None? then None else Some([first.value] + rest.value)
  }

  function WriteEntry(elem: string, e: Entry, depth: nat): Option<Wire>
    decreases MAX_DEPTH - depth, 1
  {
    if |elem| < 3 || CompleteLength(elem[1..]) == 0 || 1 + CompleteLength(elem[1..]) >= |elem| then None
    else
      var k := Write(elem[1..], e.key, depth);
      var v := Write(elem[1 + CompleteLength(elem[1..])..], e.value, depth);
      if k.None? || v.None? then None else Some(WEntry(k.value, v.value))
  }

  // ---- reading ----

  function KindOf(code: char): Option<Kind> {
    if code == 'y' then Some(U8)
    else if code == 'n' then Some(I16)
    else if code == 'q' then Some(U16)
    else if code == 'i' then Some(I32)
    else if code == 'u' then Some(U32)
    else if code == 'x' then Some(I64)
    else if code == 't' then Some(U64)
    else None
  }

  /** `dict[key] = value`: a new key goes to the end. */
  function Upsert(es: seq<Entry>, k: Variant, v: Variant): seq<Entry> {
    if es == [] then [Entry(k, v)]
    else if es[0].key == k then [Entry(k, v)] + es[1..]
    else [es[0]] + Upsert(es[1..], k, v)
  }

  /** Reads a value by the type found in the tree. */
  function Read(w: Wire, depth: nat): Option<Variant>
    decreases w, 0
  {
    if depth >= MAX_DEPTH then None
    else
      match w
      case WBool(b) => Some(Bool(b))
      case WNum(code, n) => if KindOf(code).None? then None else Some(Num(KindOf(code).value, n))
      case WDouble(token) => Some(Double(token))
      case WStr(s) => Some(Str(s))
      case WArray(elem, items) =>
        if depth + 1 >= MAX_DEPTH then None
        else if elem != "" && elem[0] == '{' then
          var r := ReadEntries(items, [], depth + 2);
          if r.None? then None else Some(Dict(r.value))
        else
          var r := ReadItems(items, depth + 2);
          if r.None? then None else Some(Arr(r.value))
      case WStruct(members) =>
        if depth + 1 >= MAX_DEPTH then None
        else
          var r := ReadItems(members, depth + 2);
          if r.None? then None else Some(Arr(r.value))
      case WVariant(_, content) => Read(content, depth + 2)
      case WEntry(_, _) => None
  }

  function ReadItems(ws: seq<Wire>, depth: nat): Option<seq<Variant>>
    decreases ws, 0
  {
    if ws == [] then Some([])
    else
      var first, rest := Read(ws[0], depth), ReadItems(ws[1..], depth);
      if first.None? || rest.None? then None else Some([first.value] + rest.value)
  }

  function ReadEntries(ws: seq<Wire>, read: seq<Entry>, depth: nat): Option<seq<Entry>>
    decreases ws, 1
  {
    if ws == [] then Some(read)
    else
      var e := ReadEntry(ws[0], depth);
      if e.None? then None else ReadEntries(ws[1..], Upsert(read, e.value.key, e.value.value), depth)
  }

  function ReadEntry(w: Wire, depth: nat): Option<Entry>
    decreases w, 1
  {
    if !w.WEntry? then None
    else
      var k, v := Read(w.key, depth), Read(w.value, depth);
      if k.None? || v.None? then None else Some(Entry(k.value, v.value))
  }

  // ---- types of trees ----

  function SigOf(w: Wire): string {
    match w
    case WBool(_) => "b"
    case WNum(code, _) => [code]
    case WDouble(_) => "d"
    case WStr(_) => "s"
    case WArray(elem, _) => "a" + elem
    case WEntry(k, v) => "{" + SigOf(k) + SigOf(v) + "}"
    case WStruct(members) => "(" + SigsOf(members) + ")"
    case WVariant(_, _) => "v"
  }

  function SigsOf(ws: seq<Wire>): string {
    if ws == [] then "" else SigOf(ws[0]) + SigsOf(ws[1..])
  }

  /** Every array holds elements of its element type, and every variant one value of
      its signature, which is a single complete type. */
  predicate Conforms(w: Wire) {
    match w
    case WArray(elem, items) => AllConform(items, elem)
    case WEntry(k, v) => Conforms(k) && Conforms(v)
    case WStruct(members) => MembersConform(members)
    case WVariant(sig, content) => IsSingleComplete(sig) && SigOf(content) == sig && Conforms(content)
    case _ => true
  }

  predicate AllConform(ws: seq<Wire>, elem: string) {
    ws != [] ==> SigOf(ws[0]) == elem && Conforms(ws[0]) && AllConform(ws[1..], elem)
  }

  predicate MembersConform(ws: seq<Wire>) {
    ws != [] ==> Conforms(ws[0]) && MembersConform(ws[1..])
  }
}
