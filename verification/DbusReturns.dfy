/** Which of the values that are written return. */
module DbusReturns {
  import opened DbusCodec
  import opened DbusRoundTrip
  import opened DbusValue
  import opened Options

  // ---- which written values return ----

  /** A value up to what the message has no type for: null is an empty array, and a
      signed byte is its bit pattern. */
  function Norm(v: Variant): Variant
    decreases v, 0
  {
    match v
    case Null => Arr([])
    case Arr(items) => Arr(NormAll(items))
    case Dict(es) => Dict(NormEntries(es))
    case _ => BackBasic(v)
  }

  function NormAll(items: seq<Variant>): seq<Variant>
    decreases items, 0
  {
    if items == [] then [] else [Norm(items[0])] + NormAll(items[1..])
  }

  function NormEntry(e: Entry): Entry
    decreases e, 0
  {
    Entry(BackBasic(e.key), Norm(e.value))
  }

  function NormEntries(es: seq<Entry>): (r: seq<Entry>)
    decreases es, 0
  {
    if es == [] then [] else [NormEntry(es[0])] + NormEntries(es[1..])
  }

  /** The keys of every dictionary in the value are of one type. */
  predicate OneKeyType(v: Variant) {
    match v
    case Arr(items) => AllOneKeyType(items)
    case Dict(es) => (es == [] || UniformKeys(es)) && EntriesOneKeyType(es)
    case _ => true
  }

  predicate AllOneKeyType(items: seq<Variant>) {
    items != [] ==> OneKeyType(items[0]) && AllOneKeyType(items[1..])
  }

  predicate EntryOneKeyType(e: Entry) {
    OneKeyType(e.value)
  }

  predicate EntriesOneKeyType(es: seq<Entry>) {
    es != [] ==> EntryOneKeyType(es[0]) && EntriesOneKeyType(es[1..])
  }

  /** The entries as read when no key takes the place of another. */
  function InPlace(es: seq<Entry>): seq<Entry> {
    if es == [] then [] else [Entry(BackBasic(es[0].key), BackValue(es[0]))] + InPlace(es[1..])
  }

  predicate Fresh(read: seq<Entry>, es: seq<Entry>) {
    es != [] ==> !HasKey(read, BackBasic(es[0].key)) && Fresh(read, es[1..])
  }

  lemma {:induction false} HasKeyConcat(a: seq<Entry>, e: Entry, k: Variant)
    ensures HasKey(a + [e], k) <==> HasKey(a, k) || e.key == k
  {
    if a == [] {
      assert a + [e] == [e];
    } else {
      assert (a + [e])[1..] == a[1..] + [e];
      HasKeyConcat(a[1..], e, k);
    }
  }

  lemma {:induction false} UpsertFresh(es: seq<Entry>, k: Variant, v: Variant)
    requires !HasKey(es, k)
    ensures Upsert(es, k, v) == es + [Entry(k, v)]
  {
    if es != [] { UpsertFresh(es[1..], k, v); }
  }

  /** Different signed bytes have different bit patterns. */
  lemma BackBasicDistinct(k: Variant, l: Variant)
    requires Fine(k) && Fine(l) && SameType(k, l) && BackBasic(k) == BackBasic(l)
    ensures k == l
  {
  }

  lemma {:induction false} FreshExtends(read: seq<Entry>, es: seq<Entry>, k: Variant, v: Variant)
    requires EntriesFine(es) && KeysType(es, k) && Fine(k) && !HasKey(es, k) && Fresh(read, es)
    ensures Fresh(read + [Entry(BackBasic(k), v)], es)
  {
    if es != [] {
      assert EntryFine(es[0]);
      HasKeyConcat(read, Entry(BackBasic(k), v), BackBasic(es[0].key));
      if BackBasic(es[0].key) == BackBasic(k) { BackBasicDistinct(k, es[0].key); }
      FreshExtends(read, es[1..], k, v);
    }
  }

  lemma {:induction false} KeysTypeOf(es: seq<Entry>, k: Variant, l: Variant)
    requires SameType(k, l) && KeysType(es, k)
    ensures KeysType(es, l)
  {
    if es != [] { KeysTypeOf(es[1..], k, l); }
  }

  lemma {:induction false} UniformInPlace(es: seq<Entry>, read: seq<Entry>, first: Variant)
    requires EntriesFine(es) && KeysType(es, first) && Fresh(read, es)
    ensures BackEntries(es, read, true) == read + InPlace(es)
  {
    if es == [] {
      assert read + [] == read;
    } else {
      var k, v := BackBasic(es[0].key), BackValue(es[0]);
      assert EntryFine(es[0]);
      UpsertFresh(read, k, v);
      KeysTypeOf(es[1..], first, es[0].key);
      FreshExtends(read, es[1..], es[0].key, v);
      UniformInPlace(es[1..], read + [Entry(k, v)], first);
      assert read + [Entry(k, v)] + InPlace(es[1..]) == read + InPlace(es);
    }
  }

  lemma {:induction false} FreshInEmpty(es: seq<Entry>)
    ensures Fresh([], es)
  {
    if es != [] { FreshInEmpty(es[1..]); }
  }

  predicate TextKeys(es: seq<Entry>) {
    es != [] ==> es[0].key.Str? && TextKeys(es[1..])
  }

  lemma {:induction false} UpsertText(es: seq<Entry>, k: Variant, v: Variant)
    requires TextKeys(es) && k.Str?
    ensures TextKeys(Upsert(es, k, v)) && Upsert(es, k, v) != []
  {
    if es != [] {
      if es[0].key == k {
        assert ([Entry(k, v)] + es[1..])[1..] == es[1..];
      } else {
        UpsertText(es[1..], k, v);
      }
    }
  }

  /** Keys of several types all come back as text. */
  lemma {:induction false} TextBack(es: seq<Entry>, read: seq<Entry>)
    requires EntriesFine(es) && TextKeys(read)
    ensures TextKeys(BackEntries(es, read, false))
  {
    if es != [] {
      assert EntryFine(es[0]);
      UpsertText(read, BackKey(es[0].key, false), BackValue(es[0]));
      TextBack(es[1..], Upsert(read, BackKey(es[0].key, false), BackValue(es[0])));
    }
  }

  lemma {:induction false} TextNorm(es: seq<Entry>, first: Variant)
    requires EntriesFine(es) && TextKeys(NormEntries(es)) && first.Str?
    ensures KeysType(es, first)
  {
    if es != [] {
      assert NormEntries(es)[1..] == NormEntries(es[1..]);
      TextNorm(es[1..], first);
    }
  }

  lemma {:induction false} TextsUniform(es: seq<Entry>)
    requires es != [] && EntriesFine(es) && TextKeys(NormEntries(es))
    ensures UniformKeys(es)
  {
    assert NormEntries(es)[0] == NormEntry(es[0]);
    TextNorm(es, es[0].key);
  }

  /** What comes back is the value, up to its normal form, exactly when every
      dictionary in it has keys of one type. */
  lemma {:induction false} BackIsNormIff(v: Variant)
    requires Fine(v)
    ensures Back(v) == Norm(v) <==> OneKeyType(v)
    decreases v
  {
    match v
    case Arr(items) => AllBackIff(items);
    case Dict(es) => DictBackIff(es);
    case _ =>
  }

  lemma {:induction false} AllBackIff(items: seq<Variant>)
    requires AllFine(items)
    ensures BackAll(items) == NormAll(items) <==> AllOneKeyType(items)
    decreases items
  {
    if items != [] {
      BackIsNormIff(items[0]);
      AllBackIff(items[1..]);
      var a, b := [Back(items[0])] + BackAll(items[1..]), [Norm(items[0])] + NormAll(items[1..]);
      assert a[0] == Back(items[0]) && a[1..] == BackAll(items[1..]);
      assert b[0] == Norm(items[0]) && b[1..] == NormAll(items[1..]);
    }
  }

  lemma {:induction false} EntryBackIff(e: Entry)
    requires Fine(e.value)
    ensures BackValue(e) == Norm(e.value) <==> EntryOneKeyType(e)
    decreases e
  {
    BackIsNormIff(e.value);
  }

  lemma {:induction false} InPlaceIff(es: seq<Entry>)
    requires EntriesFine(es)
    ensures InPlace(es) == NormEntries(es) <==> EntriesOneKeyType(es)
    decreases es, 0
  {
    if es != [] {
      assert EntryFine(es[0]);
      EntryBackIff(es[0]);
      InPlaceIff(es[1..]);
      var a, b := InPlace(es), NormEntries(es);
      assert a[0] == Entry(BackBasic(es[0].key), BackValue(es[0])) && a[1..] == InPlace(es[1..]);
      assert b[0] == NormEntry(es[0]) && b[1..] == NormEntries(es[1..]);
    }
  }

  lemma {:induction false} DictBackIff(es: seq<Entry>)
    requires EntriesFine(es)
    ensures Back(Dict(es)) == Norm(Dict(es)) <==> OneKeyType(Dict(es))
    decreases es, 1
  {
    if UniformKeys(es) {
      FreshInEmpty(es);
      UniformInPlace(es, [], es[0].key);
      assert [] + InPlace(es) == InPlace(es);
      InPlaceIff(es);
    } else if es != [] {
      TextBack(es, []);
      if BackEntries(es, [], false) == NormEntries(es) { TextsUniform(es); }
    }
  }

  /** The reader of a variant argument. */
  function ReadVariant(w: Wire): Option<Variant> {
    if w.WVariant? then Read(w.content, 1) else None
  }

  lemma VariantArgument(sig: string, content: Wire, back: Variant)
    requires Carries(content, sig, back, 1) && IsSingleComplete(sig)
    ensures var w := WVariant(sig, content); SigOf(w) == "v" && Conforms(w) && ReadVariant(w) == Some(back)
  {
  }

  /** Whatever is written as a variant has no mixed dictionary in it; its signature
      is one complete type; the tree conforms to it; the reader returns a value
      without reaching its depth limit, and that is the value written, up to its
      normal form, if and only if every dictionary in it has keys of one type. */
  lemma WrittenReturns(v: Variant)
    requires Fine(v) && WriteVariant(v, 0).Some?
    ensures var w := WriteVariant(v, 0).value;
            && Unmixed(v) && IsSingleComplete(Infer(v)) && SigOf(w) == "v" && w.sig == Infer(v) && Conforms(w)
            && ReadVariant(w) == Some(Back(v))
            && (ReadVariant(w) == Some(Norm(v)) <==> OneKeyType(v))
  {
    VariantWrites(v, 0, 0);
    InferredIsCompleteIff(v);
    VariantArgument(Infer(v), Write(Infer(v), v, 1).value, Back(v));
    BackIsNormIff(v);
  }

  // ---- a message's arguments ----

  /** `read_args` goes by the type codes of the message's signature. For a struct
      that code is its bracket, and the reader then takes the arguments from there on
      for the members of the struct; past the end it finds only empty structs. */
  function ReadArgs(ws: seq<Wire>): Option<seq<Variant>> {
    if ws == [] then Some([])
    else if ws[0].WStruct? then
      var members, rest := ReadItems(ws, 2), PastTheEnd(ws[1..]);
      if members.None? || rest.None? then None else Some([Arr(members.value)] + rest.value)
    else
      var first, rest := Read(ws[0], 0), ReadArgs(ws[1..]);
      if first.None? || rest.None? then None else Some([first.value] + rest.value)
  }

  function PastTheEnd(ws: seq<Wire>): Option<seq<Variant>> {
    if ws == [] then Some([])
    else if !ws[0].WStruct? then None
    else
      var rest := PastTheEnd(ws[1..]);
      if rest.None? then None else Some([Arr([])] + rest.value)
  }

  predicate NoStructs(ws: seq<Wire>) {
    ws != [] ==> !ws[0].WStruct? && NoStructs(ws[1..])
  }

  /** One value for each argument. */
  function EachArg(ws: seq<Wire>): Option<seq<Variant>> {
    ReadItems(ws, 0)
  }

  lemma {:induction false} DepthDoesNotMatter(w: Wire, d: nat, e: nat)
    requires Read(w, d).Some? && Read(w, e).Some?
    ensures Read(w, d) == Read(w, e)
    decreases w, 0
  {
    match w
    case WArray(elem, items) =>
      if elem != "" && elem[0] == '{' { EntriesDepth(items, [], d + 2, e + 2); } else { ItemsDepth(items, d + 2, e + 2); }
    case WStruct(members) => ItemsDepth(members, d + 2, e + 2);
    case WVariant(_, content) => DepthDoesNotMatter(content, d + 2, e + 2);
    case _ =>
  }

  lemma {:induction false} ItemsDepth(ws: seq<Wire>, d: nat, e: nat)
    requires ReadItems(ws, d).Some? && ReadItems(ws, e).Some?
    ensures ReadItems(ws, d) == ReadItems(ws, e)
    decreases ws, 0
  {
    if ws != [] {
      DepthDoesNotMatter(ws[0], d, e);
      ItemsDepth(ws[1..], d, e);
    }
  }

  lemma {:induction false} EntryDepth(w: Wire, d: nat, e: nat)
    requires ReadEntry(w, d).Some? && ReadEntry(w, e).Some?
    ensures ReadEntry(w, d) == ReadEntry(w, e)
    decreases w, 1
  {
    DepthDoesNotMatter(w.key, d, e);
    DepthDoesNotMatter(w.value, d, e);
  }

  lemma {:induction false} EntriesDepth(ws: seq<Wire>, read: seq<Entry>, d: nat, e: nat)
    requires ReadEntries(ws, read, d).Some? && ReadEntries(ws, read, e).Some?
    ensures ReadEntries(ws, read, d) == ReadEntries(ws, read, e)
    decreases ws, 2
  {
    if ws != [] {
      EntryDepth(ws[0], d, e);
      var entry := ReadEntry(ws[0], d).value;
      EntriesDepth(ws[1..], Upsert(read, entry.key, entry.value), d, e);
    }
  }

  /** `read_args` returns one value for each argument exactly when no argument is a
      struct. */
  lemma {:induction false} ReadArgsIff(ws: seq<Wire>)
    requires EachArg(ws).Some?
    ensures ReadArgs(ws) == EachArg(ws) <==> NoStructs(ws)
  {
    if ws != [] {
      if ws[0].WStruct? {
        StructSwallows(ws);
      } else {
        ReadArgsIff(ws[1..]);
        var rest := ReadArgs(ws[1..]);
        if rest.Some? {
          assert ReadArgs(ws).value[1..] == rest.value;
          assert EachArg(ws).value[1..] == EachArg(ws[1..]).value;
        }
      }
    }
  }

  /** The struct would have to be its own first member. */
  lemma StructSwallows(ws: seq<Wire>)
    requires ws != [] && ws[0].WStruct? && EachArg(ws).Some?
    ensures ReadArgs(ws) != EachArg(ws)
  {
    var own := Read(ws[0], 0).value;
    var r := ReadArgs(ws);
    if r.Some? {
      var members := ReadItems(ws, 2).value;
      DepthDoesNotMatter(ws[0], 0, 2);
      assert members[0] == own;
      assert r.value[0] == Arr(members) && EachArg(ws).value[0] == own;
      NotItsOwnItem(members);
    }
  }

  lemma NotItsOwnItem(items: seq<Variant>)
    requires items != []
    ensures items[0] != Arr(items)
  {
    assert Nesting(items[0]) < Nesting(Arr(items));
  }

  function Nesting(v: Variant): nat {
    if v.Arr? && v.items != [] then 1 + Nesting(v.items[0]) else 0
  }
}
