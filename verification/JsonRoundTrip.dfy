/** When decoding what was encoded gives the value back. */
module JsonRoundTrip {
  import opened JsonCodec
  import opened JsonNumberProofs
  import opened JsonReadBack
  import opened JsonText
  import opened JsonTextProofs
  import opened JsonValue
  import opened Options

  // ---- the order of fields does not matter ----

  lemma {:induction false} InsertKeeps(f: Field, fs: seq<Field>, k: string)
    ensures HasKey(Insert(f, fs), k) <==> f.key == k || HasKey(fs, k)
  {
    if fs == [] || Below(f.key, fs[0].key) {
      assert ([f] + fs)[1..] == fs;
    } else {
      InsertKeeps(f, fs[1..], k);
      assert ([fs[0]] + Insert(f, fs[1..]))[1..] == Insert(f, fs[1..]);
    }
  }

  lemma {:induction false} SortKeeps(fs: seq<Field>, k: string)
    ensures HasKey(SortFields(fs), k) <==> HasKey(fs, k)
  {
    if fs != [] {
      SortKeeps(fs[1..], k);
      InsertKeeps(fs[0], SortFields(fs[1..]), k);
    }
  }

  lemma {:induction false} InsertValid(f: Field, fs: seq<Field>)
    requires FieldsValid(fs) && IsBytes(f.key) && Valid(f.value) && !HasKey(fs, f.key)
    ensures FieldsValid(Insert(f, fs))
  {
    if fs == [] || Below(f.key, fs[0].key) {
      assert ([f] + fs)[1..] == fs;
    } else {
      InsertValid(f, fs[1..]);
      InsertKeeps(f, fs[1..], fs[0].key);
      assert ([fs[0]] + Insert(f, fs[1..]))[1..] == Insert(f, fs[1..]);
    }
  }

  lemma {:induction false} SortValid(fs: seq<Field>)
    requires FieldsValid(fs)
    ensures FieldsValid(SortFields(fs))
  {
    if fs != [] {
      SortValid(fs[1..]);
      SortKeeps(fs[1..], fs[0].key);
      InsertValid(fs[0], SortFields(fs[1..]));
    }
  }

  lemma {:induction false} ArrangeKeys(fs: seq<Field>, sort: bool, k: string)
    ensures HasKey(ArrangeFields(fs, sort), k) <==> HasKey(fs, k)
  {
    if fs != [] { ArrangeKeys(fs[1..], sort, k); }
  }

  lemma {:induction false} ArrangeValid(v: Value, sort: bool)
    requires Valid(v)
    ensures Valid(Arrange(v, sort))
    decreases v
  {
    match v
    case Arr(items) => ArrangeAllValid(items, sort);
    case Obj(fields) =>
      ArrangeFieldsValid(fields, sort);
      SortValid(ArrangeFields(fields, sort));
    case _ =>
  }

  lemma {:induction false} ArrangeAllValid(items: seq<Value>, sort: bool)
    requires AllValid(items)
    ensures AllValid(ArrangeAll(items, sort))
    decreases items
  {
    if items != [] {
      ArrangeValid(items[0], sort);
      ArrangeAllValid(items[1..], sort);
    }
  }

  lemma {:induction false} ArrangeFieldsValid(fs: seq<Field>, sort: bool)
    requires FieldsValid(fs)
    ensures FieldsValid(ArrangeFields(fs, sort))
    decreases fs
  {
    if fs != [] {
      ArrangeValid(fs[0].value, sort);
      ArrangeFieldsValid(fs[1..], sort);
      ArrangeKeys(fs[1..], sort, fs[0].key);
    }
  }

  /** The encoder's entry point; none when it throws. */
  function Encode(v: Value, options: EncodeOptions): Option<string>
    requires Valid(v)
  {
    var o := options.Normalize();
    ArrangeValid(v, o.sortKeys);
    Print(Arrange(v, o.sortKeys), o, 0, false)
  }

  lemma {:induction false} InsertAlike(f: Field, fs: seq<Field>, gs: seq<Field>)
    ensures FieldsAlike(Insert(f, fs), gs)
       <==> HasKey(gs, f.key) && Alike(f.value, ValueAt(gs, f.key)) && FieldsAlike(fs, gs)
  {
    if fs == [] || Below(f.key, fs[0].key) {
      assert ([f] + fs)[1..] == fs;
    } else {
      InsertAlike(f, fs[1..], gs);
      assert ([fs[0]] + Insert(f, fs[1..]))[1..] == Insert(f, fs[1..]);
    }
  }

  lemma {:induction false} SortAlike(fs: seq<Field>, gs: seq<Field>)
    ensures FieldsAlike(SortFields(fs), gs) <==> FieldsAlike(fs, gs)
  {
    if fs != [] {
      SortAlike(fs[1..], gs);
      InsertAlike(fs[0], SortFields(fs[1..]), gs);
    }
  }

  lemma {:induction false} SameKeysWithin(gs: seq<Field>, fs: seq<Field>, hs: seq<Field>)
    requires forall k :: HasKey(fs, k) <==> HasKey(hs, k)
    ensures KeysWithin(gs, fs) <==> KeysWithin(gs, hs)
  {
    if gs != [] { SameKeysWithin(gs[1..], fs, hs); }
  }

  /** Putting fields in order changes nothing that `Alike` sees. */
  lemma {:induction false} ArrangeAlike(v: Value, sort: bool, w: Value)
    ensures Alike(Arrange(v, sort), w) <==> Alike(v, w)
    decreases v
  {
    match v
    case Arr(items) => if w.Arr? { ArrangeAllAlike(items, sort, w.items); }
    case Obj(fields) =>
      if w.Obj? {
        var a := ArrangeFields(fields, sort);
        ArrangeFieldsAlike(fields, sort, w.fields);
        SortAlike(a, w.fields);
        forall k ensures HasKey(a, k) == HasKey(fields, k) && HasKey(SortFields(a), k) == HasKey(fields, k) {
          ArrangeKeys(fields, sort, k);
          SortKeeps(a, k);
        }
        SameKeysWithin(w.fields, fields, a);
        SameKeysWithin(w.fields, fields, SortFields(a));
      }
    case _ =>
  }

  lemma {:induction false} ArrangeAllAlike(items: seq<Value>, sort: bool, ys: seq<Value>)
    ensures |ArrangeAll(items, sort)| == |items|
    ensures AllAlike(ArrangeAll(items, sort), ys) <==> AllAlike(items, ys)
    decreases items
  {
    if items != [] {
      ArrangeAllAlike(items[1..], sort, if ys == [] then [] else ys[1..]);
      if ys != [] { ArrangeAlike(items[0], sort, ys[0]); }
    }
  }

  lemma {:induction false} ArrangeFieldsAlike(fs: seq<Field>, sort: bool, gs: seq<Field>)
    ensures FieldsAlike(ArrangeFields(fs, sort), gs) <==> FieldsAlike(fs, gs)
    decreases fs
  {
    if fs != [] {
      ArrangeFieldsAlike(fs[1..], sort, gs);
      if HasKey(gs, fs[0].key) { ArrangeAlike(fs[0].value, sort, ValueAt(gs, fs[0].key)); }
    }
  }

  // ---- what the encoder prints is read as `Back` ----

  /** The decoder returns exactly `Back` of any printed text within its input limit. */
  lemma DecodeOfEncode(v: Value, o: EncodeOptions, p: DecodeOptions)
    requires Valid(v) && Encode(v, o).Some?
    ensures var a := Arrange(v, o.sortKeys);
            && Valid(a)
            && Decode(Encode(v, o).value, p)
               == if |Encode(v, o).value| > p.Normalize().maxInput then None
                  else Back(a, o.Normalize(), false, 0, p.Normalize())
  {
    ArrangeValid(v, o.sortKeys);
    var a, t := Arrange(v, o.sortKeys), Encode(v, o).value;
    PrintStarts(a, o.Normalize(), 0, false);
    ValueReads(a, o.Normalize(), 0, false, 0, p.Normalize(), "");
    assert t + "" == t;
    assert SkipWs(t) == t;
  }

  // ---- when that is the value itself ----

  /** Nesting, sizes and strings are within the decoder's limits. */
  predicate Fits(v: Value, depth: nat, p: DecodeOptions) {
    match v
    case Str(s) => |s| <= p.maxString
    case Arr(items) => depth + 1 < p.maxDepth && |items| <= p.maxArray && ItemsFit(items, depth + 1, p)
    case Obj(fields) => depth + 1 < p.maxDepth && |fields| <= p.maxObject && FieldsFit(fields, depth + 1, p)
    case _ => true
  }

  predicate ItemsFit(items: seq<Value>, depth: nat, p: DecodeOptions) {
    items != [] ==> Fits(items[0], depth, p) && ItemsFit(items[1..], depth, p)
  }

  predicate FieldsFit(fs: seq<Field>, depth: nat, p: DecodeOptions) {
    fs != [] ==> |fs[0].key| <= p.maxString && Fits(fs[0].value, depth, p) && FieldsFit(fs[1..], depth, p)
  }

  /** Every integer printed after a `\u` escape is a single decimal digit. */
  predicate HexSafe(v: Value, o: EncodeOptions, hex: bool) {
    match v
    case Int(_, _, n) => hex ==> 0 <= n <= 9
    case Arr(items) => ItemsHexSafe(items, o, hex)
    case Obj(fields) => FieldsHexSafe(fields, o, hex)
    case _ => true
  }

  predicate ItemsHexSafe(items: seq<Value>, o: EncodeOptions, hex: bool) {
    items != [] ==> HexSafe(items[0], o, hex) && ItemsHexSafe(items[1..], o, hex || Switches(items[0], o))
  }

  predicate FieldsHexSafe(fs: seq<Field>, o: EncodeOptions, hex: bool) {
    fs != [] ==>
      HexSafe(fs[0].value, o, hex || SwitchesToHex(fs[0].key, o)) && FieldsHexSafe(fs[1..], o, HexAfter(fs[0], o, hex))
  }

  /** No byte of any string or key would be escaped for not being ASCII. */
  predicate Unescaped(v: Value, o: EncodeOptions) {
    match v
    case Str(s) => !o.escapeNonAscii || IsAscii(s)
    case Arr(items) => ItemsUnescaped(items, o)
    case Obj(fields) => FieldsUnescaped(fields, o)
    case _ => true
  }

  predicate ItemsUnescaped(items: seq<Value>, o: EncodeOptions) {
    items != [] ==> Unescaped(items[0], o) && ItemsUnescaped(items[1..], o)
  }

  predicate FieldsUnescaped(fs: seq<Field>, o: EncodeOptions) {
    fs != [] ==>
      (!o.escapeNonAscii || IsAscii(fs[0].key)) && Unescaped(fs[0].value, o) && FieldsUnescaped(fs[1..], o)
  }

  ghost predicate ReadsBack(v: Value, back: Option<Value>) {
    back.Some? && Alike(v, back.value)
  }

  /** A printed value is read back alike exactly when it fits the decoder's limits,
      no integer is garbled by hexadecimal, and no string by escaping. */
  lemma {:induction false} BackAlikeIff(v: Value, o: EncodeOptions, hex: bool, d: nat, p: DecodeOptions)
    requires Valid(v)
    ensures ReadsBack(v, Back(v, o, hex, d, p)) <==> Fits(v, d, p) && HexSafe(v, o, hex) && Unescaped(v, o)
    decreases v
  {
    match v
    case Int(bits, signed, n) =>
      if hex { HexReads(bits, signed, n, p); } else { DecimalReads(bits, signed, n, p); }
    case Str(s) => ShownIsSelf(s, o);
    case Arr(items) =>
      if d + 1 < p.maxDepth { ItemsBackIff(items, o, hex, d + 1, p); }
    case Obj(fields) =>
      if d + 1 < p.maxDepth {
        FieldsBackIff(fields, o, hex, d + 1, p);
        var back := BackFields(fields, o, hex, d + 1, p);
        if back.Some? { FieldsAlikeIff(fields, back.value, o, hex, d + 1, p); }
      }
    case _ =>
  }

  lemma {:induction false} ItemsBackIff(items: seq<Value>, o: EncodeOptions, hex: bool, d: nat, p: DecodeOptions)
    requires AllValid(items)
    ensures var back := BackItems(items, o, hex, d, p);
            (back.Some? && AllAlike(items, back.value)) <==>
            ItemsFit(items, d, p) && ItemsHexSafe(items, o, hex) && ItemsUnescaped(items, o)
    decreases items
  {
    if items != [] {
      BackAlikeIff(items[0], o, hex, d, p);
      ItemsBackIff(items[1..], o, hex || Switches(items[0], o), d, p);
    }
  }

  /** The fields correspond one by one: same keys, values alike. */
  ghost predicate Aligned(fs: seq<Field>, gs: seq<Field>) {
    |fs| == |gs| && (fs != [] ==> fs[0].key == gs[0].key && Alike(fs[0].value, gs[0].value) && Aligned(fs[1..], gs[1..]))
  }

  lemma {:induction false} FieldsBackIff(fs: seq<Field>, o: EncodeOptions, hex: bool, d: nat, p: DecodeOptions)
    requires FieldsValid(fs)
    ensures var back := BackFields(fs, o, hex, d, p);
            (back.Some? && Aligned(fs, back.value)) <==>
            FieldsFit(fs, d, p) && FieldsHexSafe(fs, o, hex) && FieldsUnescaped(fs, o)
    decreases fs
  {
    if fs != [] {
      ShownIsSelf(fs[0].key, o);
      BackAlikeIff(fs[0].value, o, hex || SwitchesToHex(fs[0].key, o), d, p);
      FieldsBackIff(fs[1..], o, HexAfter(fs[0], o, hex), d, p);
    }
  }

  // ---- two objects alike have their fields aligned ----

  predicate KeysShown(fs: seq<Field>, gs: seq<Field>, o: EncodeOptions)
    requires FieldsValid(fs)
  {
    |fs| == |gs| && (fs != [] ==> gs[0].key == Shown(fs[0].key, o) && KeysShown(fs[1..], gs[1..], o))
  }

  lemma {:induction false} BackShowsKeys(fs: seq<Field>, o: EncodeOptions, hex: bool, d: nat, p: DecodeOptions)
    requires FieldsValid(fs) && BackFields(fs, o, hex, d, p).Some?
    ensures KeysShown(fs, BackFields(fs, o, hex, d, p).value, o)
  {
    if fs != [] { BackShowsKeys(fs[1..], o, HexAfter(fs[0], o, hex), d, p); }
  }

  lemma {:induction false} ShownKeyThere(fs: seq<Field>, gs: seq<Field>, k: string, o: EncodeOptions)
    requires FieldsValid(fs) && KeysShown(fs, gs, o) && HasKey(fs, k)
    ensures IsBytes(k) && HasKey(gs, Shown(k, o))
  {
    if fs[0].key != k { ShownKeyThere(fs[1..], gs[1..], k, o); }
  }

  lemma {:induction false} WithinHas(gs: seq<Field>, fs: seq<Field>, k: string)
    requires KeysWithin(gs, fs) && HasKey(gs, k)
    ensures HasKey(fs, k)
  {
    if gs[0].key != k { WithinHas(gs[1..], fs, k); }
  }

  function Longest(fs: seq<Field>): nat {
    if fs == [] then 0 else if |fs[0].key| > Longest(fs[1..]) then |fs[0].key| else Longest(fs[1..])
  }

  lemma {:induction false} LongestBounds(fs: seq<Field>, k: string)
    requires HasKey(fs, k)
    ensures |k| <= Longest(fs)
  {
    if fs[0].key != k { LongestBounds(fs[1..], k); }
  }

  /** If showing every key gives a key again, showing changes none: a changed key
      would be shown as a longer one that showing changes too, and so on. */
  lemma {:induction false} NoKeyChanges(fs: seq<Field>, gs: seq<Field>, k: string, o: EncodeOptions)
    requires FieldsValid(fs) && KeysShown(fs, gs, o) && KeysWithin(gs, fs) && HasKey(fs, k)
    ensures IsBytes(k) && Shown(k, o) == k
    decreases Longest(fs) - |k|
  {
    ShownKeyThere(fs, gs, k, o);
    ShownIsSelf(k, o);
    if Shown(k, o) != k {
      WithinHas(gs, fs, Shown(k, o));
      LongestBounds(fs, Shown(k, o));
      ShownIsSelf(Shown(k, o), o);
      NoKeyChanges(fs, gs, Shown(k, o), o);
    }
  }

  lemma {:induction false} TailAlike(fs: seq<Field>, g: Field, gs: seq<Field>)
    requires !HasKey(fs, g.key)
    ensures FieldsAlike(fs, [g] + gs) <==> FieldsAlike(fs, gs)
  {
    if fs != [] {
      TailAlike(fs[1..], g, gs);
      assert ([g] + gs)[1..] == gs;
    }
  }

  lemma {:induction false} WithinMore(gs: seq<Field>, f: Field, fs: seq<Field>)
    requires KeysWithin(gs, fs)
    ensures KeysWithin(gs, [f] + fs)
  {
    if gs != [] {
      WithinMore(gs[1..], f, fs);
      assert ([f] + fs)[1..] == fs;
    }
  }

  /** Fields aligned are alike, whatever the order is looked at in. */
  lemma {:induction false} AlignedAlike(fs: seq<Field>, gs: seq<Field>)
    requires FieldsValid(fs) && Aligned(fs, gs)
    ensures FieldsAlike(fs, gs) && KeysWithin(gs, fs)
  {
    if fs != [] {
      AlignedAlike(fs[1..], gs[1..]);
      assert gs == [gs[0]] + gs[1..] && fs == [fs[0]] + fs[1..];
      TailAlike(fs[1..], gs[0], gs[1..]);
      WithinMore(gs[1..], fs[0], fs[1..]);
    }
  }

  lemma {:induction false} AlikeAligned(fs: seq<Field>, gs: seq<Field>, o: EncodeOptions)
    requires FieldsValid(fs) && KeysShown(fs, gs, o) && FieldsAlike(fs, gs)
    requires forall k :: HasKey(fs, k) ==> IsBytes(k) && Shown(k, o) == k
    ensures Aligned(fs, gs)
  {
    if fs != [] {
      assert HasKey(fs, fs[0].key);
      assert gs == [gs[0]] + gs[1..];
      TailAlike(fs[1..], gs[0], gs[1..]);
      forall k | HasKey(fs[1..], k) ensures IsBytes(k) && Shown(k, o) == k { assert HasKey(fs, k); }
      AlikeAligned(fs[1..], gs[1..], o);
    }
  }

  lemma FieldsAlikeIff(fs: seq<Field>, gs: seq<Field>, o: EncodeOptions, hex: bool, d: nat, p: DecodeOptions)
    requires FieldsValid(fs) && BackFields(fs, o, hex, d, p) == Some(gs)
    ensures FieldsAlike(fs, gs) && KeysWithin(gs, fs) <==> Aligned(fs, gs)
  {
    BackShowsKeys(fs, o, hex, d, p);
    if Aligned(fs, gs) {
      AlignedAlike(fs, gs);
    } else if FieldsAlike(fs, gs) && KeysWithin(gs, fs) {
      forall k | HasKey(fs, k) ensures IsBytes(k) && Shown(k, o) == k { NoKeyChanges(fs, gs, k, o); }
      AlikeAligned(fs, gs, o);
    }
  }

  // ---- the round trip ----

  /** Encoding and decoding gives the value back, up to the width and sign of
      integers and the order of keys, if and only if the text and the value are
      within the decoder's limits, every integer printed after a `\u` escape is a
      single digit, and no string is escaped for not being ASCII. */
  lemma RoundTripIff(v: Value, o: EncodeOptions, p: DecodeOptions)
    requires Valid(v) && Encode(v, o).Some?
    ensures var text, a := Encode(v, o).value, Arrange(v, o.sortKeys);
            ReadsBack(v, Decode(text, p)) <==>
            && |text| <= p.Normalize().maxInput
            && Fits(a, 0, p.Normalize())
            && HexSafe(a, o.Normalize(), false)
            && Unescaped(a, o.Normalize())
  {
    DecodeOfEncode(v, o, p);
    var a := Arrange(v, o.sortKeys);
    BackAlikeIff(a, o.Normalize(), false, 0, p.Normalize());
    var back := Decode(Encode(v, o).value, p);
    if back.Some? { ArrangeAlike(v, o.sortKeys, back.value); }
  }

  /** With nothing escaped as `\u` nothing is garbled. */
  lemma {:induction false} NoSwitchHexSafe(v: Value, o: EncodeOptions)
    requires !Switches(v, o)
    ensures HexSafe(v, o, false)
    decreases v
  {
    match v
    case Arr(items) => NoSwitchItems(items, o);
    case Obj(fields) => NoSwitchFields(fields, o);
    case _ =>
  }

  lemma {:induction false} NoSwitchItems(items: seq<Value>, o: EncodeOptions)
    requires !ItemsSwitch(items, o)
    ensures ItemsHexSafe(items, o, false)
    decreases items
  {
    if items != [] {
      NoSwitchHexSafe(items[0], o);
      NoSwitchItems(items[1..], o);
    }
  }

  lemma {:induction false} NoSwitchFields(fs: seq<Field>, o: EncodeOptions)
    requires !FieldsSwitch(fs, o)
    ensures FieldsHexSafe(fs, o, false)
    decreases fs
  {
    if fs != [] {
      NoSwitchHexSafe(fs[0].value, o);
      NoSwitchFields(fs[1..], o);
    }
  }

  // ---- which values are printed ----

  predicate Shallow(v: Value, depth: nat, max: int) {
    match v
    case Arr(items) => depth + 1 < max && ItemsShallow(items, depth + 1, max)
    case Obj(fields) => depth + 1 < max && FieldsShallow(fields, depth + 1, max)
    case _ => true
  }

  predicate ItemsShallow(items: seq<Value>, depth: nat, max: int) {
    items != [] ==> Shallow(items[0], depth, max) && ItemsShallow(items[1..], depth, max)
  }

  predicate FieldsShallow(fs: seq<Field>, depth: nat, max: int) {
    fs != [] ==> Shallow(fs[0].value, depth, max) && FieldsShallow(fs[1..], depth, max)
  }

  /** The encoder throws only on nesting. */
  lemma {:induction false} PrintsIff(v: Value, o: EncodeOptions, depth: nat, hex: bool)
    requires Valid(v)
    ensures Print(v, o, depth, hex).Some? <==> Shallow(v, depth, o.maxDepth)
    decreases v
  {
    match v
    case Arr(items) => if items != [] { ItemsPrintIff(items, o, depth + 1, hex); }
    case Obj(fields) => if fields != [] { FieldsPrintIff(fields, o, depth + 1, hex); }
    case _ =>
  }

  lemma {:induction false} ItemsPrintIff(items: seq<Value>, o: EncodeOptions, depth: nat, hex: bool)
    requires AllValid(items) && items != []
    ensures PrintItems(items, o, depth, hex).Some? <==> ItemsShallow(items, depth, o.maxDepth)
    decreases items
  {
    PrintsIff(items[0], o, depth, hex);
    if |items| > 1 { ItemsPrintIff(items[1..], o, depth, hex || Switches(items[0], o)); }
  }

  lemma {:induction false} FieldsPrintIff(fs: seq<Field>, o: EncodeOptions, depth: nat, hex: bool)
    requires FieldsValid(fs) && fs != []
    ensures PrintFields(fs, o, depth, hex).Some? <==> FieldsShallow(fs, depth, o.maxDepth)
    decreases fs
  {
    PrintsIff(fs[0].value, o, depth, hex || SwitchesToHex(fs[0].key, o));
    if |fs| > 1 { FieldsPrintIff(fs[1..], o, depth, HexAfter(fs[0], o, hex)); }
  }

  /** The documented case: nothing in the value is escaped as `\u`, and it is within
      the limits, so it comes back, compact or pretty. */
  lemma RoundTripPlain(v: Value, o: EncodeOptions, p: DecodeOptions)
    requires Valid(v) && Encode(v, o).Some? && !o.escapeNonAscii
    requires var a := Arrange(v, o.sortKeys); !Switches(a, o.Normalize()) && Fits(a, 0, p.Normalize())
    requires |Encode(v, o).value| <= p.Normalize().maxInput
    ensures ReadsBack(v, Decode(Encode(v, o).value, p))
  {
    var a := Arrange(v, o.sortKeys);
    RoundTripIff(v, o, p);
    NoSwitchHexSafe(a, o.Normalize());
    ArrangeValid(v, o.sortKeys);
    PlainUnescaped(a, o.Normalize());
  }

  lemma {:induction false} PlainUnescaped(v: Value, o: EncodeOptions)
    requires !o.escapeNonAscii
    ensures Unescaped(v, o)
    decreases v
  {
    match v
    case Arr(items) => PlainItems(items, o);
    case Obj(fields) => PlainFields(fields, o);
    case _ =>
  }

  lemma {:induction false} PlainItems(items: seq<Value>, o: EncodeOptions)
    requires !o.escapeNonAscii
    ensures ItemsUnescaped(items, o)
    decreases items
  {
    if items != [] {
      PlainUnescaped(items[0], o);
      PlainItems(items[1..], o);
    }
  }

  lemma {:induction false} PlainFields(fs: seq<Field>, o: EncodeOptions)
    requires !o.escapeNonAscii
    ensures FieldsUnescaped(fs, o)
    decreases fs
  {
    if fs != [] {
      PlainUnescaped(fs[0].value, o);
      PlainFields(fs[1..], o);
    }
  }

  // ---- the round trip that fails ----

  const COMPACT := EncodeOptions(false, 4, false, false, 32)

  function Limits(floats: string -> bool): DecodeOptions {
    DecodeOptions(32, 16 * 1024 * 1024, 65536, 65536, 65536, floats)
  }

  /** A control character before the number 18, which is printed as 12. */
  const CONTROL := Str([1 as char])
  const EIGHTEEN := Int(32, true, 18)
  const STICKY := [CONTROL, EIGHTEEN]

  lemma StickyParts()
    ensures STICKY[1..] == [EIGHTEEN] && [EIGHTEEN][1..] == []
    ensures AllValid([EIGHTEEN]) && AllValid(STICKY)
    ensures SwitchesToHex([1 as char], COMPACT)
  {
    assert AllValid([]);
    assert Valid(EIGHTEEN) && Valid(CONTROL);
  }

  lemma StickyArranged()
    ensures Arrange(Arr(STICKY), false) == Arr(STICKY)
  {
    StickyParts();
    assert ArrangeAll([], false) == [];
    assert ArrangeAll([EIGHTEEN], false) == [EIGHTEEN];
    assert ArrangeAll(STICKY, false) == [CONTROL] + [EIGHTEEN];
  }

  lemma StickyText()
    ensures StringText([1 as char], COMPACT) == "\"\\u0001\""
    ensures IntText(32, true, 18, true) == "12"
  {
    var c := 1 as char;
    assert Hex4(c) == "0001";
    assert [c][1..] == "" && Escape("", COMPACT) == "";
    assert EscapeChar(c, COMPACT) == "\\u0001";
    assert Escape([c], COMPACT) == "\\u0001";
    assert Hexadecimal(18) == Hexadecimal(1) + "2" && Hexadecimal(1) == "1";
  }

  lemma StickyItems()
    ensures PrintItems(STICKY, COMPACT, 1, false) == Some("\"\\u0001\"" + "," + "12")
  {
    StickyParts();
    StickyText();
    assert Print(CONTROL, COMPACT, 1, false) == Some("\"\\u0001\"");
    assert PrintItems([EIGHTEEN], COMPACT, 1, true) == Some("12");
    assert Lead(COMPACT, 1) == ",";
  }

  lemma StickyPrints()
    ensures Valid(Arr(STICKY)) && Encode(Arr(STICKY), COMPACT) == Some("[\"\\u0001\",12]")
  {
    StickyParts();
    StickyText();
    StickyArranged();
    assert COMPACT.Normalize() == COMPACT;
    StickyItems();
    var inner := "\"\\u0001\"" + "," + "12";
    hide PrintItems;
    assert "[" + inner + Indent(COMPACT, 1) + "]" == "[\"\\u0001\",12]";
  }

  /** `std::hex` stays set: within every limit, 18 comes back as another number. */
  lemma StickyHexLosesANumber(floats: string -> bool)
    ensures Valid(Arr(STICKY)) && Encode(Arr(STICKY), COMPACT).Some?
    ensures !ReadsBack(Arr(STICKY), Decode(Encode(Arr(STICKY), COMPACT).value, Limits(floats)))
  {
    StickyPrints();
    StickyParts();
    StickyArranged();
    RoundTripIff(Arr(STICKY), COMPACT, Limits(floats));
    assert COMPACT.Normalize() == COMPACT;
    assert !ItemsHexSafe([EIGHTEEN], COMPACT, true);
    assert !ItemsHexSafe(STICKY, COMPACT, false);
  }
}
