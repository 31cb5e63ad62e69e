/** What the writer makes of a value is read as that value. The inferred signature of a
    value is one complete type unless a mixed dictionary is part of it; whatever the
    writer writes under that type, or as a variant, conforms to it; and the reader,
    which goes by the types it finds, returns the value as `Back` describes it without
    reaching its depth limit, at any depth up to that of the writer. The lemmas follow
    the writer, container by container. */
module DbusRoundTrip {
  import opened DbusCodec
  import opened DbusValue
  import opened Options

  // ---- the values considered ----

  function Least(kind: Kind): int {
    match kind
    case I8 => -0x80
    case I16 => -0x8000
    case I32 => -0x8000_0000
    case I64 => -0x8000_0000_0000_0000
    case _ => 0
  }

  function Most(kind: Kind): int {
    match kind
    case I8 => 0x7F
    case U8 => 0xFF
    case I16 => 0x7FFF
    case U16 => 0xFFFF
    case I32 => 0x7FFF_FFFF
    case U32 => 0xFFFF_FFFF
    case I64 => 0x7FFF_FFFF_FFFF_FFFF
    case U64 => 0xFFFF_FFFF_FFFF_FFFF
  }

  predicate IsKey(v: Variant) {
    v.Bool? || v.Num? || v.Double? || v.Str?
  }

  predicate HasKey(es: seq<Entry>, k: Variant) {
    es != [] && (es[0].key == k || HasKey(es[1..], k))
  }

  /** No blobs, strings without NUL, distinct basic keys, and one signature for all
      the elements of a container whose elements have one type. */
  predicate Fine(v: Variant) {
    match v
    case Num(kind, n) => Least(kind) <= n <= Most(kind)
    case Str(s) => CString(s) == s
    case Blob(_) => false
    case Arr(items) => AllFine(items) && (UniformItems(items) ==> SameSigs(items, Infer(items[0])))
    case Dict(es) => EntriesFine(es) && (UniformValues(es) ==> SameValueSigs(es, Infer(es[0].value)))
    case _ => true
  }

  predicate AllFine(items: seq<Variant>) {
    items != [] ==> Fine(items[0]) && AllFine(items[1..])
  }

  predicate SameSigs(items: seq<Variant>, sig: string) {
    items != [] ==> Infer(items[0]) == sig && SameSigs(items[1..], sig)
  }

  predicate EntriesFine(es: seq<Entry>) {
    es != [] ==> EntryFine(es[0]) && !HasKey(es[1..], es[0].key) && EntriesFine(es[1..])
  }

  predicate EntryFine(e: Entry) {
    IsKey(e.key) && Fine(e.key) && Fine(e.value)
  }

  predicate SameValueSigs(es: seq<Entry>, sig: string) {
    es != [] ==> Infer(es[0].value) == sig && SameValueSigs(es[1..], sig)
  }

  // ---- the inferred signature ----

  /** A mixed dictionary's signature is part of this value's own. */
  predicate SigMixed(v: Variant) {
    match v
    case Arr(items) => UniformItems(items) && SigMixed(items[0])
    case Dict(es) => Mixed(es) || (es != [] && UniformValues(es) && EntryMixed(es[0]))
    case _ => false
  }

  predicate EntryMixed(e: Entry) {
    SigMixed(e.value)
  }

  lemma KeyIsBasic(es: seq<Entry>)
    requires EntriesFine(es) && es != []
    ensures |KeySig(es)| == 1 && IsBasic(KeySig(es)[0])
  {
    if UniformKeys(es) {
      assert KeySig(es) == FirstKey(es[0]);
      BasicSig(es[0].key);
    }
  }

  lemma BasicSig(v: Variant)
    requires IsKey(v)
    ensures |Infer(v)| == 1 && IsBasic(Infer(v)[0])
  {
  }

  /** The signature of a value with no mixed dictionary in it is one complete type,
      whatever follows. */
  lemma {:induction false} Complete(v: Variant, rest: string)
    requires Fine(v) && !SigMixed(v)
    ensures CompleteLength(Infer(v) + rest) == |Infer(v)|
    decreases v
  {
    match v
    case Null => assert ("ai" + rest)[1..] == "i" + rest;
    case Arr(items) => if items == [] { assert ("ai" + rest)[1..] == "i" + rest; } else { CompleteArray(items, rest); }
    case Dict(es) => CompleteDict(es, rest);
    case _ =>
  }

  lemma {:induction false} CompleteArray(items: seq<Variant>, rest: string)
    requires items != [] && AllFine(items) && !SigMixed(Arr(items))
    ensures CompleteLength("a" + ItemSig(items) + rest) == 1 + |ItemSig(items)|
    decreases items
  {
    assert ("a" + ItemSig(items) + rest)[1..] == ItemSig(items) + rest;
    if UniformItems(items) { Complete(items[0], rest); }
  }

  lemma {:induction false} CompleteDict(es: seq<Entry>, rest: string)
    requires EntriesFine(es) && !SigMixed(Dict(es))
    ensures CompleteLength(Infer(Dict(es)) + rest) == |Infer(Dict(es))|
    decreases es
  {
    if es == [] {
      assert ("v" + ("}" + rest))[0] == 'v';
      EntryLength("s", "v", rest);
      assert "a{" + ("s" + "v") + "}" == "a{sv}";
    } else {
      KeyIsBasic(es);
      if UniformValues(es) {
        assert ValueSig(es) == FirstValue(es[0]);
        CompleteValue(es[0], "}" + rest);
      } else {
        assert ("v" + ("}" + rest))[0] == 'v';
      }
      EntryLength(KeySig(es), ValueSig(es), rest);
    }
  }

  lemma {:induction false} CompleteValue(e: Entry, rest: string)
    requires Fine(e.value) && !EntryMixed(e)
    ensures CompleteLength(Infer(e.value) + rest) == |Infer(e.value)|
    decreases e
  {
    Complete(e.value, rest);
  }

  lemma EntryLength(k: string, v: string, rest: string)
    requires |k| == 1 && IsBasic(k[0]) && v != "" && CompleteLength(v + ("}" + rest)) == |v|
    ensures CompleteLength("a{" + (k + v) + "}" + rest) == |"a{" + (k + v) + "}"|
  {
    var s := "a{" + (k + v) + "}" + rest;
    assert s[1..][2..] == v + ("}" + rest);
    assert s[1] == '{' && s[2] == k[0];
    assert (v + ("}" + rest))[|v|] == '}';
    assert s[1..][2 + |v|] == '}';
  }

  /** Where checking a signature with a mixed dictionary in it stops: at the bracket
      of an entry type that is not complete. */
  predicate Stumbles(s: string) {
    var k := CompleteLength(s);
    0 < k < |s| && s[k] == '{' && CompleteLength(s[k..]) == 0
  }

  lemma {:induction false} MixedStumbles(v: Variant, rest: string)
    requires Fine(v) && SigMixed(v)
    ensures Stumbles(Infer(v) + rest)
    decreases v
  {
    match v
    case Arr(items) =>
      var s := Infer(v) + rest;
      assert Infer(v) == "a" + Infer(items[0]);
      assert s[1..] == Infer(items[0]) + rest;
      MixedStumbles(items[0], rest);
      assert s[CompleteLength(s)..] == s[1..][CompleteLength(s[1..])..];
    case Dict(es) => MixedDictStumbles(es, rest);
  }

  lemma {:induction false} MixedDictStumbles(es: seq<Entry>, rest: string)
    requires EntriesFine(es) && SigMixed(Dict(es))
    ensures Stumbles(Infer(Dict(es)) + rest)
    decreases es
  {
    if Mixed(es) {
      DictAsKey(rest);
    } else {
      KeyIsBasic(es);
      MixedValueStumbles(es[0], "}" + rest);
      assert ValueSig(es) == FirstValue(es[0]);
      StumblingValue(KeySig(es), ValueSig(es), rest);
    }
  }

  /** An entry type that begins with a container is no type. */
  lemma DictAsKey(rest: string)
    ensures Stumbles("a{" + "a{sv}" + "}" + rest)
  {
    var s := "a{" + "a{sv}" + "}" + rest;
    assert s[0] == 'a' && s[1] == '{' && s[2] == 'a';
    assert CompleteLength(s[1..]) == 0 by { assert s[1..][0] == '{' && s[1..][1] == 'a'; }
  }

  lemma StumblingValue(k: string, v: string, rest: string)
    requires |k| == 1 && IsBasic(k[0]) && Stumbles(v + ("}" + rest))
    ensures Stumbles("a{" + (k + v) + "}" + rest)
  {
    var s, more := "a{" + (k + v) + "}" + rest, v + ("}" + rest);
    var t, n := s[1..], CompleteLength(more);
    assert t[0] == '{' && t[1] == k[0] && t[2..] == more;
    assert t[2 + n] == more[n];
    assert CompleteLength(t) == 0;
    assert s[0] == 'a' && s[1] == '{';
  }

  lemma {:induction false} MixedValueStumbles(e: Entry, rest: string)
    requires Fine(e.value) && EntryMixed(e)
    ensures Stumbles(Infer(e.value) + rest)
    decreases e
  {
    MixedStumbles(e.value, rest);
  }

  lemma StumblingIsInvalid(s: string)
    requires Stumbles(s)
    ensures !AllComplete(s) && !IsSingleComplete(s)
  {
  }

  /** The inferred signature is one complete type exactly when no mixed dictionary
      is part of it. */
  lemma InferredIsCompleteIff(v: Variant)
    requires Fine(v)
    ensures IsSingleComplete(Infer(v)) <==> !SigMixed(v)
    ensures IsValid(Infer(v)) <==> !SigMixed(v) && |Infer(v)| <= MAX_SIGNATURE
  {
    var s := Infer(v);
    assert s + "" == s;
    if SigMixed(v) {
      MixedStumbles(v, "");
      StumblingIsInvalid(s);
    } else {
      Complete(v, "");
      InferStarts(v);
      assert CompleteLength(s) == |s| && s[|s|..] == "" && AllComplete("");
    }
  }

  lemma InferStarts(v: Variant)
    ensures StartsType(Infer(v)[0])
  {
  }

  // ---- what comes back ----

  function BackKey(k: Variant, uniform: bool): Variant {
    if uniform then BackBasic(k)
    else if TextOf(k).Some? then Str(CString(TextOf(k).value))
    else Null
  }

  function BackBasic(v: Variant): Variant {
    if v.Num? && v.kind == I8 then Num(U8, v.n % 256) else v
  }

  /** What a reader makes of the written value. Keys of several types come back as
      text. */
  function Back(v: Variant): Variant
    decreases v, 0
  {
    match v
    case Null => Arr([])
    case Arr(items) => Arr(BackAll(items))
    case Dict(es) => Dict(BackEntries(es, [], UniformKeys(es)))
    case _ => BackBasic(v)
  }

  function BackAll(items: seq<Variant>): seq<Variant>
    decreases items, 0
  {
    if items == [] then [] else [Back(items[0])] + BackAll(items[1..])
  }

  function BackValue(e: Entry): Variant
    decreases e, 0
  {
    Back(e.value)
  }

  function BackEntries(es: seq<Entry>, read: seq<Entry>, uniform: bool): seq<Entry>
    decreases es, 0
  {
    if es == [] then read
    else BackEntries(es[1..], Upsert(read, BackKey(es[0].key, uniform), BackValue(es[0])), uniform)
  }

  /** No dictionary anywhere in the value mixes both its keys and its values. */
  predicate Unmixed(v: Variant) {
    match v
    case Arr(items) => AllUnmixed(items)
    case Dict(es) => !Mixed(es) && EntriesUnmixed(es)
    case _ => true
  }

  predicate AllUnmixed(items: seq<Variant>) {
    items != [] ==> Unmixed(items[0]) && AllUnmixed(items[1..])
  }

  predicate EntryUnmixed(e: Entry) {
    Unmixed(e.value)
  }

  predicate EntriesUnmixed(es: seq<Entry>) {
    es != [] ==> EntryUnmixed(es[0]) && EntriesUnmixed(es[1..])
  }

  /** The tree is of the type, consistent in itself, and read as `back`, without
      reaching the depth limit, at any depth up to that at which it was written. */
  ghost predicate Carries(w: Wire, sig: string, back: Variant, d: nat) {
    SigOf(w) == sig && Conforms(w) && Read(w, d) == Some(back)
  }

  // ---- writing under a signature ----

  /** An element is written as a variant or under its own signature. */
  predicate Element(v: Variant, elem: string) {
    elem == "v" || (elem == Infer(v) && !SigMixed(v))
  }

  predicate Elements(items: seq<Variant>, elem: string) {
    items != [] ==> Element(items[0], elem) && Elements(items[1..], elem)
  }

  lemma {:induction false} SameSigsElements(items: seq<Variant>, elem: string)
    requires AllFine(items) && SameSigs(items, elem) && IsSingleComplete(elem)
    ensures Elements(items, elem)
  {
    if items != [] {
      InferredIsCompleteIff(items[0]);
      SameSigsElements(items[1..], elem);
    }
  }

  lemma ItemSigElements(items: seq<Variant>)
    requires items != [] && Fine(Arr(items)) && !SigMixed(Arr(items))
    ensures Elements(items, ItemSig(items))
  {
    if UniformItems(items) {
      InferredIsCompleteIff(items[0]);
      SameSigsElements(items, ItemSig(items));
    } else {
      VariantElements(items);
    }
  }

  lemma {:induction false} VariantElements(items: seq<Variant>)
    ensures Elements(items, "v")
  {
    if items != [] { VariantElements(items[1..]); }
  }

  lemma InferIsNoEntry(v: Variant)
    ensures Infer(v)[0] != '{'
  {
  }

  /** The element type that the writer takes out of an array's signature. */
  lemma ArrayContent(v: Variant, rest: string)
    requires Fine(v) && !SigMixed(v) && Infer(v)[0] == 'a'
    ensures var sig := Infer(v) + rest; CompleteLength(sig) == |Infer(v)| && sig[1..CompleteLength(sig)] == Infer(v)[1..]
  {
    Complete(v, rest);
  }

  lemma BasicWrites(v: Variant, rest: string, depth: nat, d: nat)
    requires IsKey(v) && Fine(v) && d <= depth && Write(Infer(v) + rest, v, depth).Some?
    ensures Carries(Write(Infer(v) + rest, v, depth).value, Infer(v), BackBasic(v), d)
  {
    BasicSig(v);
    assert (Infer(v) + rest)[0] == Infer(v)[0];
  }

  /** The steps between an array's signature and its elements. */
  lemma ListWrites(sig: string, elem: string, v: Variant, depth: nat)
    requires sig != "" && sig[0] == 'a' && CompleteLength(sig) == 1 + |elem| && sig[1..1 + |elem|] == elem
    requires elem != "" && elem[0] != '{' && Write(sig, v, depth).Some?
    ensures depth + 1 < MAX_DEPTH
    ensures v.Null? ==> Write(sig, v, depth).value == WArray("i", [])
    ensures v.Arr? ==>
              && depth + 2 < MAX_DEPTH && WriteItems(elem, v.items, depth + 3).Some?
              && Write(sig, v, depth).value == WArray(elem, WriteItems(elem, v.items, depth + 3).value)
  {
    var w := WriteArrayOrDict(elem, v, depth + 1);
    assert Write(sig, v, depth) == w;
    if v.Arr? { assert w == WriteArray(elem, v.items, depth + 2); }
  }

  lemma ListReads(elem: string, ws: seq<Wire>, d: nat)
    requires (elem == "" || elem[0] != '{') && d + 1 < MAX_DEPTH
    ensures Read(WArray(elem, ws), d)
         == if ReadItems(ws, d + 2).None? then None else Some(Arr(ReadItems(ws, d + 2).value))
  {
  }

  lemma NoItems(d: nat)
    ensures Carries(WArray("i", []), "ai", Arr([]), d) <==> d + 1 < MAX_DEPTH
  {
    if d + 1 < MAX_DEPTH { ListReads("i", [], d); }
    assert ReadItems([], d + 2) == Some([]) && AllConform([], "i");
  }

  lemma NullWrites(rest: string, depth: nat, d: nat)
    requires d <= depth && Write("ai" + rest, Null, depth).Some?
    ensures Carries(Write("ai" + rest, Null, depth).value, "ai", Arr([]), d)
  {
    ArrayContent(Null, rest);
    ListWrites("ai" + rest, "i", Null, depth);
    NoItems(d);
  }

  lemma EmptyArrayWrites(rest: string, depth: nat, d: nat)
    requires d <= depth && Write("ai" + rest, Arr([]), depth).Some?
    ensures Carries(Write("ai" + rest, Arr([]), depth).value, "ai", Arr([]), d)
  {
    ArrayContent(Arr([]), rest);
    ListWrites("ai" + rest, "i", Arr([]), depth);
    assert WriteItems("i", [], depth + 3) == Some([]);
    NoItems(d);
  }

  /** A value written under its own signature. */
  lemma {:induction false} OwnWrites(v: Variant, rest: string, depth: nat, d: nat)
    requires Fine(v) && !SigMixed(v) && d <= depth && Write(Infer(v) + rest, v, depth).Some?
    ensures Carries(Write(Infer(v) + rest, v, depth).value, Infer(v), Back(v), d) && Unmixed(v)
    decreases v, 0
  {
    match v
    case Null => NullWrites(rest, depth, d);
    case Arr(items) => if items == [] { EmptyArrayWrites(rest, depth, d); } else { ArrayWrites(items, rest, depth, d); }
    case Dict(es) => DictWrites(es, rest, depth, d);
    case _ => BasicWrites(v, rest, depth, d);
  }

  /** A value written as a variant. */
  lemma {:induction false} VariantWrites(v: Variant, depth: nat, d: nat)
    requires Fine(v) && d <= depth && WriteVariant(v, depth).Some?
    ensures var content := Write(Infer(v), v, depth + 1);
            && content.Some? && Carries(content.value, Infer(v), Back(v), d + 1)
            && WriteVariant(v, depth).value == WVariant(Infer(v), content.value)
    ensures Unmixed(v) && !SigMixed(v)
    decreases v, 1
  {
    InferredIsCompleteIff(v);
    VariantIs(v, depth);
    assert Infer(v) + "" == Infer(v);
    OwnWrites(v, "", depth + 1, d + 1);
  }

  lemma VariantCarries(sig: string, content: Wire, back: Variant, d: nat)
    requires Carries(content, sig, back, d + 2) && IsSingleComplete(sig) && d < MAX_DEPTH
    ensures Carries(WVariant(sig, content), "v", back, d)
  {
  }

  lemma VariantIs(v: Variant, depth: nat)
    requires WriteVariant(v, depth).Some?
    ensures IsValid(Infer(v)) && Write(Infer(v), v, depth + 1).Some?
    ensures WriteVariant(v, depth).value == WVariant(Infer(v), Write(Infer(v), v, depth + 1).value)
  {
  }

  lemma {:induction false} ElementWrites(v: Variant, elem: string, rest: string, depth: nat, d: nat)
    requires Fine(v) && Element(v, elem) && d <= depth && elem != "" && Write(elem + rest, v, depth).Some?
    ensures Carries(Write(elem + rest, v, depth).value, elem, Back(v), d) && Unmixed(v)
    decreases v, 2
  {
    if elem == "v" {
      assert (elem + rest)[0] == 'v';
      assert Write(elem + rest, v, depth) == WriteVariant(v, depth + 1);
      VariantWrites(v, depth + 1, d + 1);
      InferredIsCompleteIff(v);
      VariantCarries(Infer(v), Write(Infer(v), v, depth + 2).value, Back(v), d);
    } else {
      OwnWrites(v, rest, depth, d);
    }
  }

  lemma {:induction false} ItemsWrite(elem: string, items: seq<Variant>, depth: nat, d: nat)
    requires AllFine(items) && Elements(items, elem) && d <= depth && elem != "" && WriteItems(elem, items, depth).Some?
    ensures var ws := WriteItems(elem, items, depth).value;
            AllConform(ws, elem) && ReadItems(ws, d) == Some(BackAll(items)) && AllUnmixed(items)
    decreases items, 0
  {
    if items != [] {
      assert elem + "" == elem;
      ElementWrites(items[0], elem, "", depth, d);
      ItemsWrite(elem, items[1..], depth, d);
      var w, ws := Write(elem, items[0], depth).value, WriteItems(elem, items[1..], depth).value;
      assert ([w] + ws)[1..] == ws;
    }
  }

  lemma {:induction false} ArrayWrites(items: seq<Variant>, rest: string, depth: nat, d: nat)
    requires items != [] && Fine(Arr(items)) && !SigMixed(Arr(items)) && d <= depth
    requires Write(Infer(Arr(items)) + rest, Arr(items), depth).Some?
    ensures Carries(Write(Infer(Arr(items)) + rest, Arr(items), depth).value, Infer(Arr(items)), Back(Arr(items)), d)
    ensures AllUnmixed(items)
    decreases items, 1
  {
    var elem := ItemSig(items);
    ArrayContent(Arr(items), rest);
    assert Infer(Arr(items))[1..] == elem;
    ItemSigElements(items);
    InferIsNoEntry(items[0]);
    ListWrites(Infer(Arr(items)) + rest, elem, Arr(items), depth);
    ItemsWrite(elem, items, depth + 3, d + 2);
    ListReads(elem, WriteItems(elem, items, depth + 3).value, d);
  }

  // ---- dictionaries ----

  predicate KeysUnder(es: seq<Entry>, code: char, uniform: bool) {
    es != [] ==>
      IsKey(es[0].key) && (if uniform then Infer(es[0].key) == [code] else code == 's') && KeysUnder(es[1..], code, uniform)
  }

  predicate ValuesUnder(es: seq<Entry>, elem: string) {
    es != [] ==> Element(es[0].value, elem) && ValuesUnder(es[1..], elem)
  }

  lemma {:induction false} UniformKeysUnder(es: seq<Entry>, first: Variant)
    requires EntriesFine(es) && KeysType(es, first) && IsKey(first)
    ensures KeysUnder(es, Infer(first)[0], true)
  {
    if es != [] { UniformKeysUnder(es[1..], first); }
  }

  lemma {:induction false} TextKeysUnder(es: seq<Entry>)
    requires EntriesFine(es)
    ensures KeysUnder(es, 's', false)
  {
    if es != [] { TextKeysUnder(es[1..]); }
  }

  lemma KeySigUnder(es: seq<Entry>)
    requires EntriesFine(es) && es != []
    ensures |KeySig(es)| == 1 && IsBasic(KeySig(es)[0]) && KeysUnder(es, KeySig(es)[0], UniformKeys(es))
  {
    KeyIsBasic(es);
    if UniformKeys(es) {
      assert KeySig(es) == FirstKey(es[0]);
      UniformKeysUnder(es, es[0].key);
    } else {
      TextKeysUnder(es);
    }
  }

  lemma {:induction false} SameSigsValues(es: seq<Entry>, elem: string)
    requires EntriesFine(es) && SameValueSigs(es, elem) && IsSingleComplete(elem)
    ensures ValuesUnder(es, elem)
  {
    if es != [] {
      InferredIsCompleteIff(es[0].value);
      SameSigsValues(es[1..], elem);
    }
  }

  lemma {:induction false} VariantValues(es: seq<Entry>)
    ensures ValuesUnder(es, "v")
  {
    if es != [] { VariantValues(es[1..]); }
  }

  lemma ValueSigUnder(es: seq<Entry>)
    requires es != [] && Fine(Dict(es)) && !SigMixed(Dict(es))
    ensures ValuesUnder(es, ValueSig(es))
  {
    if UniformValues(es) {
      assert ValueSig(es) == FirstValue(es[0]);
      assert EntryFine(es[0]);
      InferredIsCompleteIff(es[0].value);
      SameSigsValues(es, ValueSig(es));
    } else {
      VariantValues(es);
    }
  }

  lemma KeyWrites(k: Variant, code: char, uniform: bool, rest: string, depth: nat, d: nat)
    requires IsKey(k) && Fine(k) && (if uniform then Infer(k) == [code] else code == 's') && IsBasic(code)
    requires d <= depth && Write([code] + rest, k, depth).Some?
    ensures Carries(Write([code] + rest, k, depth).value, [code], BackKey(k, uniform), d)
  {
    assert ([code] + rest)[0] == code;
    if uniform { BasicWrites(k, rest, depth, d); }
  }

  lemma EntryPieces(code: char, vsig: string, s: string)
    requires s == "{" + ([code] + vsig) + "}" && IsBasic(code) && vsig != ""
    ensures |s| >= 4 && s[1..] == [code] + (vsig + "}") && CompleteLength(s[1..]) == 1 && s[2..] == vsig + "}"
  {
  }

  ghost predicate EntryCarries(w: Wire, sig: string, e: Entry, uniform: bool, d: nat)
    decreases e
  {
    SigOf(w) == sig && Conforms(w) && ReadEntry(w, d) == Some(Entry(BackKey(e.key, uniform), BackValue(e)))
  }

  lemma {:induction false} EntryWrites(code: char, vsig: string, e: Entry, uniform: bool, depth: nat, d: nat)
    requires EntryFine(e) && IsBasic(code) && vsig != "" && d <= depth
    requires if uniform then Infer(e.key) == [code] else code == 's'
    requires Element(e.value, vsig)
    requires WriteEntry("{" + ([code] + vsig) + "}", e, depth).Some?
    ensures var s := "{" + ([code] + vsig) + "}"; EntryCarries(WriteEntry(s, e, depth).value, s, e, uniform, d)
    ensures EntryUnmixed(e)
    decreases e, 0
  {
    var s := "{" + ([code] + vsig) + "}";
    EntryPieces(code, vsig, s);
    KeyWrites(e.key, code, uniform, vsig + "}", depth, d);
    ElementWrites(e.value, vsig, "}", depth, d);
    assert "{" + [code] + vsig + "}" == s;
  }

  lemma {:induction false} EntriesWrite(code: char, vsig: string, es: seq<Entry>, uniform: bool, read: seq<Entry>,
                                        depth: nat, d: nat)
    requires EntriesFine(es) && KeysUnder(es, code, uniform) && ValuesUnder(es, vsig)
    requires IsBasic(code) && vsig != "" && d <= depth
    requires WriteEntries("{" + ([code] + vsig) + "}", es, depth).Some?
    ensures var s := "{" + ([code] + vsig) + "}";
            var ws := WriteEntries(s, es, depth).value;
            && AllConform(ws, s) && EntriesUnmixed(es)
            && ReadEntries(ws, read, d) == Some(BackEntries(es, read, uniform))
    decreases es, 0
  {
    if es != [] {
      var s := "{" + ([code] + vsig) + "}";
      var w, ws := WriteEntry(s, es[0], depth).value, WriteEntries(s, es[1..], depth).value;
      assert ([w] + ws)[1..] == ws;
      EntryWrites(code, vsig, es[0], uniform, depth, d);
      EntriesWrite(code, vsig, es[1..], uniform, Upsert(read, BackKey(es[0].key, uniform), BackValue(es[0])), depth, d);
    }
  }

  lemma MapWrites(sig: string, elem: string, es: seq<Entry>, depth: nat)
    requires sig != "" && sig[0] == 'a' && CompleteLength(sig) == 1 + |elem| && sig[1..1 + |elem|] == elem
    requires elem != "" && elem[0] == '{' && Write(sig, Dict(es), depth).Some?
    ensures depth + 2 < MAX_DEPTH && WriteEntries(elem, es, depth + 3).Some?
    ensures Write(sig, Dict(es), depth).value == WArray(elem, WriteEntries(elem, es, depth + 3).value)
  {
    assert Write(sig, Dict(es), depth) == WriteArrayOrDict(elem, Dict(es), depth + 1);
    assert WriteArrayOrDict(elem, Dict(es), depth + 1) == WriteDict(elem, es, depth + 2);
  }

  lemma MapReads(elem: string, ws: seq<Wire>, d: nat)
    requires elem != "" && elem[0] == '{' && d + 1 < MAX_DEPTH
    ensures Read(WArray(elem, ws), d)
         == if ReadEntries(ws, [], d + 2).None? then None else Some(Dict(ReadEntries(ws, [], d + 2).value))
  {
  }

  /** The type of a dictionary's entries. */
  function EntryType(es: seq<Entry>): (s: string)
    requires es != []
    ensures s != "" && s[0] == '{'
  {
    "{" + ([KeySig(es)[0]] + ValueSig(es)) + "}"
  }

  lemma DictShape(es: seq<Entry>, rest: string)
    requires es != [] && Fine(Dict(es)) && !SigMixed(Dict(es))
    ensures IsBasic(KeySig(es)[0]) && KeysUnder(es, KeySig(es)[0], UniformKeys(es)) && ValuesUnder(es, ValueSig(es))
    ensures Infer(Dict(es)) == "a" + EntryType(es)
    ensures var sig := Infer(Dict(es)) + rest;
            && CompleteLength(sig) == 1 + |EntryType(es)| && sig[1..1 + |EntryType(es)|] == EntryType(es)
  {
    KeySigUnder(es);
    ValueSigUnder(es);
    assert KeySig(es) == [KeySig(es)[0]];
    assert Infer(Dict(es)) == "a" + EntryType(es);
    ArrayContent(Dict(es), rest);
  }

  lemma EmptyDictWrites(rest: string, depth: nat, d: nat)
    requires d <= depth && Write("a{sv}" + rest, Dict([]), depth).Some?
    ensures Carries(Write("a{sv}" + rest, Dict([]), depth).value, "a{sv}", Dict([]), d)
  {
    ArrayContent(Dict([]), rest);
    assert "a{sv}"[1..] == "{sv}";
    MapWrites("a{sv}" + rest, "{sv}", [], depth);
    assert WriteEntries("{sv}", [], depth + 3) == Some([]);
    MapReads("{sv}", [], d);
    assert ReadEntries([], [], d + 2) == Some([]) && AllConform([], "{sv}");
  }

  lemma {:induction false} DictWrites(es: seq<Entry>, rest: string, depth: nat, d: nat)
    requires Fine(Dict(es)) && !SigMixed(Dict(es)) && d <= depth
    requires Write(Infer(Dict(es)) + rest, Dict(es), depth).Some?
    ensures Carries(Write(Infer(Dict(es)) + rest, Dict(es), depth).value, Infer(Dict(es)), Back(Dict(es)), d)
    ensures !Mixed(es) && EntriesUnmixed(es)
    decreases es, 1
  {
    if es == [] {
      EmptyDictWrites(rest, depth, d);
      assert BackEntries([], [], false) == [];
    } else {
      DictShape(es, rest);
      MapWrites(Infer(Dict(es)) + rest, EntryType(es), es, depth);
      EntriesWrite(KeySig(es)[0], ValueSig(es), es, UniformKeys(es), [], depth + 3, d + 2);
      MapReads(EntryType(es), WriteEntries(EntryType(es), es, depth + 3).value, d);
    }
  }
}
