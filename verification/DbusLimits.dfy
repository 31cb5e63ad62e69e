/** Exactly which values the message writer writes. */
module DbusLimits {
  import opened DbusCodec
  import opened DbusReturns
  import opened DbusRoundTrip
  import opened DbusValue
  import opened Options

  // ---- what a value needs ----

  /** How many levels of the writer's depth budget a value takes under its own
      signature: three for a container, and two more for each variant around an
      element. */
  function Levels(v: Variant): (n: nat)
    ensures n >= 1
    decreases v, 0
  {
    match v
    case Null => 2
    case Arr(items) => 3 + ItemsLevels(items, !UniformItems(items))
    case Dict(es) => 3 + EntriesLevels(es, !UniformValues(es))
    case _ => 1
  }

  function Max(a: nat, b: nat): nat {
    if a < b then b else a
  }

  function Wrapping(wrapped: bool): nat {
    if wrapped then 2 else 0
  }

  function ItemsLevels(items: seq<Variant>, wrapped: bool): nat
    decreases items, 0
  {
    if items == [] then 0 else Max(Wrapping(wrapped) + Levels(items[0]), ItemsLevels(items[1..], wrapped))
  }

  function EntryLevels(e: Entry, wrapped: bool): nat
    decreases e, 0
  {
    Wrapping(wrapped) + Levels(e.value)
  }

  function EntriesLevels(es: seq<Entry>, wrapped: bool): nat
    decreases es, 0
  {
    if es == [] then 0 else Max(EntryLevels(es[0], wrapped), EntriesLevels(es[1..], wrapped))
  }

  /** No container is larger than the bus allows. */
  predicate Sized(v: Variant) {
    match v
    case Arr(items) => |items| <= MAX_ARRAY && AllSized(items)
    case Dict(es) => |es| <= MAX_ARRAY && EntriesSized(es)
    case _ => true
  }

  predicate AllSized(items: seq<Variant>) {
    items != [] ==> Sized(items[0]) && AllSized(items[1..])
  }

  predicate EntrySized(e: Entry) {
    Sized(e.value)
  }

  predicate EntriesSized(es: seq<Entry>) {
    es != [] ==> EntrySized(es[0]) && EntriesSized(es[1..])
  }

  lemma {:induction false} UnmixedSig(v: Variant)
    requires Unmixed(v)
    ensures !SigMixed(v)
    decreases v
  {
    match v
    case Arr(items) => if items != [] { UnmixedSig(items[0]); }
    case Dict(es) => if es != [] { UnmixedEntrySig(es[0]); }
    case _ =>
  }

  lemma {:induction false} UnmixedEntrySig(e: Entry)
    requires EntryUnmixed(e)
    ensures !EntryMixed(e)
    decreases e
  {
    UnmixedSig(e.value);
  }

  /** A signature cannot outgrow its length limit before the value outgrows the depth
      limit. */
  lemma {:induction false} InferShort(v: Variant)
    requires Fine(v) && Unmixed(v)
    ensures |Infer(v)| <= 2 + 2 * Levels(v)
    decreases v
  {
    match v
    case Arr(items) => if items != [] { InferShort(items[0]); }
    case Dict(es) =>
      if es != [] {
        KeyIsBasic(es);
        EntryShort(es[0]);
        assert |ValueSig(es)| <= 2 + 2 * EntryLevels(es[0], !UniformValues(es)) by {
          if UniformValues(es) { assert ValueSig(es) == FirstValue(es[0]); }
        }
      }
    case _ =>
  }

  lemma {:induction false} EntryShort(e: Entry)
    requires EntryFine(e) && EntryUnmixed(e)
    ensures |Infer(e.value)| <= 2 + 2 * Levels(e.value)
    decreases e
  {
    InferShort(e.value);
  }

  lemma InferIsNoVariant(v: Variant)
    ensures Infer(v)[0] != 'v'
  {
  }

  // ---- which values are written ----

  /** What a value, written under its own signature, needs of its surroundings. */
  predicate Room(v: Variant, depth: nat) {
    Sized(v) && depth + Levels(v) <= MAX_DEPTH
  }

  /** Without a mixed dictionary a value is written as a variant exactly when its
      containers are not too large and the depth budget suffices. */
  lemma {:induction false} VariantWrittenIff(v: Variant, depth: nat)
    requires Fine(v) && Unmixed(v)
    ensures WriteVariant(v, depth).Some? <==> Room(v, depth + 1)
    decreases v, 1
  {
    UnmixedSig(v);
    InferShort(v);
    InferredIsCompleteIff(v);
    assert Infer(v) + "" == Infer(v);
    OwnWrittenIff(v, "", depth + 1);
  }

  lemma {:induction false} ElementWrittenIff(v: Variant, elem: string, rest: string, depth: nat)
    requires Fine(v) && Unmixed(v) && elem != "" && Element(v, elem)
    ensures Write(elem + rest, v, depth).Some? <==> Room(v, depth + Wrapping(elem == "v"))
    decreases v, 2
  {
    if elem == "v" {
      assert (elem + rest)[0] == 'v';
      VariantWrittenIff(v, depth + 1);
    } else {
      OwnWrittenIff(v, rest, depth);
    }
  }

  lemma {:induction false} OwnWrittenIff(v: Variant, rest: string, depth: nat)
    requires Fine(v) && Unmixed(v)
    ensures Write(Infer(v) + rest, v, depth).Some? <==> Room(v, depth)
    decreases v, 0
  {
    UnmixedSig(v);
    match v
    case Null =>
      ArrayContent(v, rest);
      assert AllComplete("i") by { assert "i"[1..] == "" && AllComplete(""); }
      ListWrittenIff("ai" + rest, "i", v, depth);
    case Arr(items) => ArrayWrittenIff(items, rest, depth);
    case Dict(es) => DictWrittenIff(es, rest, depth);
    case _ => BasicWrittenIff(v, rest, depth);
  }

  lemma BasicWrittenIff(v: Variant, rest: string, depth: nat)
    requires IsKey(v)
    ensures Write(Infer(v) + rest, v, depth).Some? <==> depth < MAX_DEPTH
  {
    BasicSig(v);
    assert (Infer(v) + rest)[0] == Infer(v)[0];
  }

  lemma ListWrittenIff(sig: string, elem: string, v: Variant, depth: nat)
    requires sig != "" && sig[0] == 'a' && CompleteLength(sig) == 1 + |elem| && sig[1..1 + |elem|] == elem
    requires elem != "" && elem[0] != '{' && (v.Null? || v.Arr?)
    ensures Write(sig, v, depth).Some? <==>
            IsValid(elem) && if v.Null? then depth + 2 <= MAX_DEPTH
                             else depth + 3 <= MAX_DEPTH && |v.items| <= MAX_ARRAY && WriteItems(elem, v.items, depth + 3).Some?
  {
    if depth < MAX_DEPTH && IsValid(elem) {
      assert Write(sig, v, depth) == WriteArrayOrDict(elem, v, depth + 1);
      if depth + 1 < MAX_DEPTH && v.Arr? {
        assert WriteArrayOrDict(elem, v, depth + 1) == WriteArray(elem, v.items, depth + 2);
      }
    }
  }

  lemma {:induction false} ArrayWrittenIff(items: seq<Variant>, rest: string, depth: nat)
    requires Fine(Arr(items)) && Unmixed(Arr(items))
    ensures Write(Infer(Arr(items)) + rest, Arr(items), depth).Some? <==> Room(Arr(items), depth)
    decreases items, 1
  {
    UnmixedSig(Arr(items));
    ArrayContent(Arr(items), rest);
    if items == [] {
      assert AllComplete("i") by { assert "i"[1..] == "" && AllComplete(""); }
      assert WriteItems("i", [], depth + 3) == Some([]);
      ListWrittenIff("ai" + rest, "i", Arr([]), depth);
    } else {
      var elem := ItemSig(items);
      assert Infer(Arr(items))[1..] == elem;
      ItemSigElements(items);
      InferIsNoEntry(items[0]);
      InferIsNoVariant(items[0]);
      ItemsWrittenIff(elem, items, depth + 3);
      ListWrittenIff(Infer(Arr(items)) + rest, elem, Arr(items), depth);
      if depth + Levels(Arr(items)) <= MAX_DEPTH { ItemSigValid(items); }
    }
  }

  lemma ItemSigValid(items: seq<Variant>)
    requires items != [] && AllFine(items) && AllUnmixed(items) && ItemsLevels(items, !UniformItems(items)) <= MAX_DEPTH
    ensures IsValid(ItemSig(items))
  {
    if UniformItems(items) {
      UnmixedSig(items[0]);
      InferShort(items[0]);
      InferredIsCompleteIff(items[0]);
    } else {
      assert AllComplete("v") by { assert "v"[1..] == "" && AllComplete(""); }
    }
  }

  lemma {:induction false} ItemsWrittenIff(elem: string, items: seq<Variant>, depth: nat)
    requires AllFine(items) && AllUnmixed(items) && Elements(items, elem) && elem != ""
    ensures WriteItems(elem, items, depth).Some? <==>
            AllSized(items) && (items == [] || depth + ItemsLevels(items, elem == "v") <= MAX_DEPTH)
    decreases items, 0
  {
    if items != [] {
      assert elem + "" == elem;
      ElementWrittenIff(items[0], elem, "", depth);
      ItemsWrittenIff(elem, items[1..], depth);
    }
  }

  lemma MapWrittenIff(sig: string, elem: string, es: seq<Entry>, depth: nat)
    requires sig != "" && sig[0] == 'a' && CompleteLength(sig) == 1 + |elem| && sig[1..1 + |elem|] == elem
    requires elem != "" && elem[0] == '{'
    ensures Write(sig, Dict(es), depth).Some? <==>
            IsValid(elem) && depth + 3 <= MAX_DEPTH && |es| <= MAX_ARRAY && WriteEntries(elem, es, depth + 3).Some?
  {
    if depth < MAX_DEPTH && IsValid(elem) {
      assert Write(sig, Dict(es), depth) == WriteArrayOrDict(elem, Dict(es), depth + 1);
      if depth + 1 < MAX_DEPTH {
        assert WriteArrayOrDict(elem, Dict(es), depth + 1) == WriteDict(elem, es, depth + 2);
      }
    }
  }

  /** The element type of a dictionary is one complete entry type. */
  lemma EntrySigValid(k: string, v: string)
    requires |k| == 1 && IsBasic(k[0]) && v != "" && CompleteLength(v + "}") == |v| && |v| < 200
    ensures IsValid("{" + (k + v) + "}")
  {
    var s := "{" + (k + v) + "}";
    assert s[1] == k[0] && s[2..] == v + "}";
    assert (v + "}")[|v|] == '}' && s[2 + |v|] == '}';
    assert s[|s|..] == "" && AllComplete("");
  }

  lemma {:induction false} DictWrittenIff(es: seq<Entry>, rest: string, depth: nat)
    requires Fine(Dict(es)) && Unmixed(Dict(es))
    ensures Write(Infer(Dict(es)) + rest, Dict(es), depth).Some? <==> Room(Dict(es), depth)
    decreases es, 1
  {
    UnmixedSig(Dict(es));
    if es == [] {
      ArrayContent(Dict(es), rest);
      EmptyEntrySigValid();
      assert WriteEntries("{sv}", [], depth + 3) == Some([]);
      assert "a{sv}"[1..] == "{sv}";
      MapWrittenIff("a{sv}" + rest, "{sv}", [], depth);
    } else {
      DictShape(es, rest);
      KeyIsBasic(es);
      ValueSigWrapped(es);
      EntriesWrittenIff(KeySig(es)[0], ValueSig(es), es, UniformKeys(es), depth + 3);
      MapWrittenIff(Infer(Dict(es)) + rest, EntryType(es), es, depth);
      if depth + Levels(Dict(es)) <= MAX_DEPTH {
        ValueSigComplete(es);
        EntrySigValid([KeySig(es)[0]], ValueSig(es));
      }
    }
  }

  lemma ValueSigWrapped(es: seq<Entry>)
    requires es != []
    ensures ValueSig(es) == "v" <==> !UniformValues(es)
  {
    if UniformValues(es) {
      assert ValueSig(es) == FirstValue(es[0]);
      InferIsNoVariant(es[0].value);
    }
  }

  lemma EmptyEntrySigValid()
    ensures IsValid("{sv}")
  {
    assert "v" + "}" == "v}" && CompleteLength("v}") == 1;
    EntrySigValid("s", "v");
    assert "{" + ("s" + "v") + "}" == "{sv}";
  }

  lemma ValueSigComplete(es: seq<Entry>)
    requires es != [] && EntriesFine(es) && Unmixed(Dict(es)) && EntriesLevels(es, !UniformValues(es)) <= MAX_DEPTH
    ensures CompleteLength(ValueSig(es) + "}") == |ValueSig(es)| && |ValueSig(es)| < 200
  {
    if UniformValues(es) {
      assert EntryFine(es[0]) && EntryUnmixed(es[0]);
      assert ValueSig(es) == FirstValue(es[0]);
      UnmixedEntrySig(es[0]);
      EntryShort(es[0]);
      Complete(es[0].value, "}");
    } else {
      assert ("v" + "}")[0] == 'v';
    }
  }

  lemma {:induction false} EntryWrittenIff(code: char, vsig: string, e: Entry, uniform: bool, depth: nat)
    requires EntryFine(e) && EntryUnmixed(e) && IsBasic(code) && vsig != ""
    requires if uniform then Infer(e.key) == [code] else code == 's'
    requires Element(e.value, vsig)
    ensures WriteEntry("{" + ([code] + vsig) + "}", e, depth).Some? <==>
            EntrySized(e) && depth + EntryLevels(e, vsig == "v") <= MAX_DEPTH
    decreases e, 0
  {
    var s := "{" + ([code] + vsig) + "}";
    EntryPieces(code, vsig, s);
    KeyWrittenIff(e.key, code, uniform, vsig + "}", depth);
    ElementWrittenIff(e.value, vsig, "}", depth);
  }

  lemma KeyWrittenIff(k: Variant, code: char, uniform: bool, rest: string, depth: nat)
    requires IsKey(k) && Fine(k) && (if uniform then Infer(k) == [code] else code == 's') && IsBasic(code)
    ensures Write([code] + rest, k, depth).Some? <==> depth < MAX_DEPTH
  {
    assert ([code] + rest)[0] == code;
  }

  lemma {:induction false} EntriesWrittenIff(code: char, vsig: string, es: seq<Entry>, uniform: bool, depth: nat)
    requires EntriesFine(es) && EntriesUnmixed(es) && KeysUnder(es, code, uniform)
    requires ValuesUnder(es, vsig) && IsBasic(code) && vsig != ""
    ensures WriteEntries("{" + ([code] + vsig) + "}", es, depth).Some? <==>
            EntriesSized(es) && (es == [] || depth + EntriesLevels(es, vsig == "v") <= MAX_DEPTH)
    decreases es, 0
  {
    if es != [] {
      EntryWrittenIff(code, vsig, es[0], uniform, depth);
      EntriesWrittenIff(code, vsig, es[1..], uniform, depth);
    }
  }

  /** Exactly which values are written, at any depth: those with no mixed dictionary
      in them, no container beyond the bus's size, and room in the depth budget. */
  lemma WrittenIff(v: Variant, depth: nat)
    requires Fine(v)
    ensures WriteVariant(v, depth).Some? <==> Unmixed(v) && Room(v, depth + 1)
  {
    if WriteVariant(v, depth).Some? { VariantWrites(v, depth, 0); }
    if Unmixed(v) { VariantWrittenIff(v, depth); }
  }

  /** Exactly which values are written and returned: every dictionary in them has keys
      of one type besides. */
  lemma ReturnsIff(v: Variant)
    requires Fine(v)
    ensures (WriteVariant(v, 0).Some? && ReadVariant(WriteVariant(v, 0).value) == Some(Norm(v)))
       <==> Unmixed(v) && Room(v, 1) && OneKeyType(v)
  {
    WrittenIff(v, 0);
    if WriteVariant(v, 0).Some? { WrittenReturns(v); }
  }

  // ---- a dictionary that is not written ----

  /** A dictionary that mixes both its keys and its values infers a whole dictionary
      signature where a key and a value belong, and is refused at every depth. */
  lemma MixedDictIsRefused(es: seq<Entry>, depth: nat)
    requires Fine(Dict(es)) && Mixed(es)
    ensures Infer(Dict(es)) == "a{a{sv}}" && !IsSingleComplete("a{a{sv}}") && WriteVariant(Dict(es), depth) == None
  {
    assert "a{" + "a{sv}" + "}" == "a{a{sv}}";
    InferredIsCompleteIff(Dict(es));
    WrittenIff(Dict(es), depth);
  }

  /** So is every value that contains one, wherever it is. */
  lemma MixedInsideIsRefused(v: Variant, depth: nat)
    requires Fine(v) && !Unmixed(v)
    ensures WriteVariant(v, depth) == None
  {
    WrittenIff(v, depth);
  }
}
