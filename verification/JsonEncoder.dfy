/** The encoder as the program has it: an object that appends to its stream, and that
    remembers how deep it is and which number base its stream is in. Its methods are
    proved to append exactly the text that `Print` gives to each value, in the base the
    stream happens to be in, or to fail where that fails. The keys of an object are
    collected, sorted if that is asked for, and looked up one by one; the lemmas in
    front show that this prints the fields in the order `Arrange` puts them in. */
module JsonEncoder {
  import opened JsonCodec
  import opened JsonRoundTrip
  import opened JsonText
  import opened JsonValue
  import opened Options

  // ---- keys in the order they are printed ----

  function KeysOf(fs: seq<Field>): (ks: seq<string>)
    ensures |ks| == |fs| && forall i :: 0 <= i < |fs| ==> ks[i] == fs[i].key
  {
    if fs == [] then [] else [fs[0].key] + KeysOf(fs[1..])
  }

  function InsertKey(k: string, ks: seq<string>): seq<string> {
    if ks == [] || Below(k, ks[0]) then [k] + ks else [ks[0]] + InsertKey(k, ks[1..])
  }

  function SortKeys(ks: seq<string>): seq<string> {
    if ks == [] then [] else InsertKey(ks[0], SortKeys(ks[1..]))
  }

  lemma {:induction false} InsertKeysOf(f: Field, fs: seq<Field>)
    ensures KeysOf(Insert(f, fs)) == InsertKey(f.key, KeysOf(fs))
  {
    if fs != [] { InsertKeysOf(f, fs[1..]); }
    assert ([f] + fs)[1..] == fs;
    if fs != [] { assert ([fs[0]] + Insert(f, fs[1..]))[1..] == Insert(f, fs[1..]); }
  }

  lemma {:induction false} SortKeysOf(fs: seq<Field>)
    ensures KeysOf(SortFields(fs)) == SortKeys(KeysOf(fs))
  {
    if fs != [] {
      SortKeysOf(fs[1..]);
      InsertKeysOf(fs[0], SortFields(fs[1..]));
    }
  }

  lemma {:induction false} ArrangeKeysOf(fs: seq<Field>, sort: bool)
    ensures KeysOf(ArrangeFields(fs, sort)) == KeysOf(fs)
  {
    if fs != [] { ArrangeKeysOf(fs[1..], sort); }
  }

  predicate InOrder(ks: seq<string>) {
    |ks| > 1 ==> !Below(ks[1], ks[0]) && InOrder(ks[1..])
  }

  lemma {:induction false} BelowOneWay(a: string, b: string)
    requires Below(a, b)
    ensures !Below(b, a)
  {
    if a != "" && a[0] == b[0] { BelowOneWay(a[1..], b[1..]); }
  }

  lemma {:induction false} InsertInOrder(k: string, ks: seq<string>)
    requires InOrder(ks)
    ensures InOrder(InsertKey(k, ks))
  {
    var r := InsertKey(k, ks);
    if ks == [] || Below(k, ks[0]) {
      assert r[1..] == ks;
      if ks != [] { BelowOneWay(k, ks[0]); }
    } else {
      assert r[1..] == InsertKey(k, ks[1..]);
      InsertInOrder(k, ks[1..]);
    }
  }

  /** With key sorting on, the keys of every object are printed in byte order. */
  lemma {:induction false} SortedInOrder(ks: seq<string>)
    ensures InOrder(SortKeys(ks)) && multiset(SortKeys(ks)) == multiset(ks)
  {
    if ks != [] {
      SortedInOrder(ks[1..]);
      InsertInOrder(ks[0], SortKeys(ks[1..]));
      InsertAdds(ks[0], SortKeys(ks[1..]));
      assert ks == [ks[0]] + ks[1..];
    }
  }

  lemma {:induction false} InsertAdds(k: string, ks: seq<string>)
    ensures multiset(InsertKey(k, ks)) == multiset{k} + multiset(ks)
  {
    if ks != [] && !Below(k, ks[0]) {
      InsertAdds(k, ks[1..]);
      assert ks == [ks[0]] + ks[1..];
    }
  }

  // ---- the value of a key ----

  /** Where a key is found. */
  function Find(fs: seq<Field>, k: string): (i: nat)
    requires HasKey(fs, k)
    ensures i < |fs| && fs[i].key == k && fs[i].value == ValueAt(fs, k)
  {
    if fs[0].key == k then 0 else 1 + Find(fs[1..], k)
  }

  lemma {:induction false} ArrangedValue(fs: seq<Field>, sort: bool, k: string)
    requires HasKey(fs, k)
    ensures HasKey(ArrangeFields(fs, sort), k)
    ensures ValueAt(ArrangeFields(fs, sort), k) == Arrange(ValueAt(fs, k), sort)
  {
    if fs[0].key != k { ArrangedValue(fs[1..], sort, k); }
  }

  lemma {:induction false} InsertedValue(f: Field, fs: seq<Field>, k: string)
    requires HasKey(fs, k) || f.key == k
    requires !HasKey(fs, f.key)
    ensures HasKey(Insert(f, fs), k) && ValueAt(Insert(f, fs), k) == if f.key == k then f.value else ValueAt(fs, k)
  {
    InsertKeeps(f, fs, k);
    if fs == [] || Below(f.key, fs[0].key) {
      assert ([f] + fs)[1..] == fs;
    } else {
      assert ([fs[0]] + Insert(f, fs[1..]))[1..] == Insert(f, fs[1..]);
      if fs[0].key != k { InsertedValue(f, fs[1..], k); }
    }
  }

  lemma {:induction false} SortedValue(fs: seq<Field>, k: string)
    requires HasKey(fs, k) && FieldsValid(fs)
    ensures HasKey(SortFields(fs), k) && ValueAt(SortFields(fs), k) == ValueAt(fs, k)
  {
    SortKeeps(fs[1..], fs[0].key);
    SortKeeps(fs[1..], k);
    if fs[0].key != k { SortedValue(fs[1..], k); }
    InsertedValue(fs[0], SortFields(fs[1..]), k);
  }

  lemma {:induction false} ValueHere(fs: seq<Field>, i: nat)
    requires FieldsValid(fs) && i < |fs|
    ensures HasKey(fs, fs[i].key) && ValueAt(fs, fs[i].key) == fs[i].value
  {
    if i > 0 { ValueHere(fs[1..], i - 1); }
  }

  function Arranged(fs: seq<Field>, sort: bool): seq<Field> {
    var a := ArrangeFields(fs, sort);
    if sort then SortFields(a) else a
  }

  /** The keys the encoder walks, and the value it looks up for each, are those of
      the arranged fields. */
  ghost predicate Walks(fs: seq<Field>, sort: bool, keys: seq<string>) {
    var a := Arranged(fs, sort);
    FieldsValid(a) && |a| == |keys| && forall i :: 0 <= i < |a| ==> Looks(fs, sort, keys[i], a[i])
  }

  ghost predicate Looks(fs: seq<Field>, sort: bool, key: string, f: Field) {
    HasKey(fs, key) && f == Field(key, Arrange(ValueAt(fs, key), sort))
  }

  lemma ArrangedFields(fs: seq<Field>, sort: bool, keys: seq<string>)
    requires FieldsValid(fs) && keys == if sort then SortKeys(KeysOf(fs)) else KeysOf(fs)
    ensures Walks(fs, sort, keys)
  {
    var arranged, a := ArrangeFields(fs, sort), Arranged(fs, sort);
    ArrangeFieldsValid(fs, sort);
    SortValid(arranged);
    ArrangeKeysOf(fs, sort);
    SortKeysOf(arranged);
    forall i | 0 <= i < |a|
      ensures Looks(fs, sort, keys[i], a[i])
    {
      ValueHere(a, i);
      SortKeeps(arranged, a[i].key);
      ArrangeKeys(fs, sort, a[i].key);
      SortedValue(arranged, a[i].key);
      ArrangedValue(fs, sort, a[i].key);
    }
  }

  lemma {:induction false} FieldsValidAt(fs: seq<Field>, i: nat)
    requires FieldsValid(fs) && i < |fs|
    ensures IsBytes(fs[i].key) && Valid(fs[i].value) && FieldsValid(fs[i..])
  {
    if i > 0 {
      FieldsValidAt(fs[1..], i - 1);
      assert fs[1..][i - 1..] == fs[i..];
    } else {
      assert fs[0..] == fs;
    }
  }

  lemma {:induction false} AllValidAt(items: seq<Value>, i: nat)
    requires AllValid(items) && i < |items|
    ensures Valid(items[i]) && AllValid(items[i..])
  {
    if i > 0 {
      AllValidAt(items[1..], i - 1);
      assert items[1..][i - 1..] == items[i..];
    } else {
      assert items[0..] == items;
    }
  }

  lemma {:induction false} ArrangeAllAt(items: seq<Value>, sort: bool, i: nat)
    requires i < |items|
    ensures |ArrangeAll(items, sort)| == |items| && ArrangeAll(items, sort)[i] == Arrange(items[i], sort)
  {
    ArrangeAllAlike(items, sort, []);
    if i > 0 { ArrangeAllAt(items[1..], sort, i - 1); }
  }

  // ---- the items still to be printed ----

  function Append(s: string, t: Option<string>): Option<string> {
    if t.None? then None else Some(s + t.value)
  }

  function LeadUnless(first: bool, o: EncodeOptions, depth: nat): string {
    if first then "" else Lead(o, depth)
  }

  function RestItems(items: seq<Value>, first: bool, o: EncodeOptions, depth: nat, hex: bool): Option<string>
    requires AllValid(items)
  {
    if items == [] then Some("") else Append(LeadUnless(first, o, depth), PrintItems(items, o, depth, hex))
  }

  function RestFields(fs: seq<Field>, first: bool, o: EncodeOptions, depth: nat, hex: bool): Option<string>
    requires FieldsValid(fs)
  {
    if fs == [] then Some("") else Append(LeadUnless(first, o, depth), PrintFields(fs, o, depth, hex))
  }

  lemma NextItem(s: string, items: seq<Value>, first: bool, o: EncodeOptions, depth: nat, hex: bool)
    requires AllValid(items) && items != []
    ensures var head := Print(items[0], o, depth, hex);
            Append(s, RestItems(items, first, o, depth, hex))
            == if head.None? then None
               else Append(s + LeadUnless(first, o, depth) + head.value,
                           RestItems(items[1..], false, o, depth, hex || Switches(items[0], o)))
  {
    var head, lead := Print(items[0], o, depth, hex), LeadUnless(first, o, depth);
    if head.Some? {
      if |items| == 1 {
        assert items[1..] == [];
        assert s + (lead + head.value) == s + lead + head.value + "";
      } else {
        var tail := PrintItems(items[1..], o, depth, hex || Switches(items[0], o));
        if tail.Some? { Regroup5(s, lead, head.value, Lead(o, depth), tail.value); }
      }
    }
  }

  lemma Regroup5(a: string, b: string, c: string, d: string, e: string)
    ensures a + (b + (c + d + e)) == a + b + c + (d + e)
  {
  }

  lemma NextField(s: string, fs: seq<Field>, first: bool, o: EncodeOptions, depth: nat, hex: bool)
    requires FieldsValid(fs) && fs != []
    ensures var head := PrintField(fs[0], o, depth, hex);
            Append(s, RestFields(fs, first, o, depth, hex))
            == if head.None? then None
               else Append(s + LeadUnless(first, o, depth) + head.value,
                           RestFields(fs[1..], false, o, depth, HexAfter(fs[0], o, hex)))
  {
    var head, lead := PrintField(fs[0], o, depth, hex), LeadUnless(first, o, depth);
    if head.Some? {
      if |fs| == 1 {
        assert fs[1..] == [];
        assert s + (lead + head.value) == s + lead + head.value + "";
      } else {
        var tail := PrintFields(fs[1..], o, depth, HexAfter(fs[0], o, hex));
        if tail.Some? { Regroup5(s, lead, head.value, Lead(o, depth), tail.value); }
      }
    }
  }

  function Closing(empty: bool, close: string, o: EncodeOptions, depth: nat): string {
    (if empty then "" else Indent(o, depth)) + close
  }

  /** The text of an array and of an object, from that of its entries. */
  lemma ArrayText(s: string, a: seq<Value>, o: EncodeOptions, depth: nat, hex: bool)
    requires AllValid(a) && depth + 1 < o.maxDepth
    ensures var inner := Append(s + "[", RestItems(a, true, o, depth + 1, hex));
            Append(s, Print(Arr(a), o, depth, hex))
            == if inner.None? then None else Some(inner.value + Closing(a == [], "]", o, depth + 1))
  {
    Wrapped(s, "[", "", "", "]");
    assert "[" + "]" == "[]";
    if a != [] {
      var t := PrintItems(a, o, depth + 1, hex);
      if t.Some? { Wrapped(s, "[", t.value, Indent(o, depth + 1), "]"); }
    }
  }

  lemma ObjectText(s: string, a: seq<Field>, o: EncodeOptions, depth: nat, hex: bool)
    requires FieldsValid(a) && depth + 1 < o.maxDepth
    ensures var inner := Append(s + "{", RestFields(a, true, o, depth + 1, hex));
            Append(s, Print(Obj(a), o, depth, hex))
            == if inner.None? then None else Some(inner.value + Closing(a == [], "}", o, depth + 1))
  {
    Wrapped(s, "{", "", "", "}");
    assert "{" + "}" == "{}";
    if a != [] {
      var t := PrintFields(a, o, depth + 1, hex);
      if t.Some? { Wrapped(s, "{", t.value, Indent(o, depth + 1), "}"); }
    }
  }

  lemma Wrapped(s: string, open: string, inner: string, indent: string, close: string)
    ensures s + (open + inner + indent + close) == s + open + ("" + inner) + (indent + close)
    ensures s + (open + close) == s + open + "" + ("" + close)
    ensures s + open + inner + close == s + (open + inner + close)
  {
  }

  lemma FieldText(s: string, f: Field, o: EncodeOptions, depth: nat, hex: bool)
    requires IsBytes(f.key) && Valid(f.value)
    ensures Append(s, PrintField(f, o, depth, hex))
         == Append(s + StringText(f.key, o) + ":" + Separator(o), Print(f.value, o, depth, hex || SwitchesToHex(f.key, o)))
  {
    var t := Print(f.value, o, depth, hex || SwitchesToHex(f.key, o));
    if t.Some? {
      Regroup5(s, "", StringText(f.key, o) + ":", Separator(o), t.value);
      assert s + (StringText(f.key, o) + ":" + Separator(o) + t.value)
          == s + StringText(f.key, o) + ":" + Separator(o) + t.value;
    }
  }

  // ---- what each method leaves on the stream ----

  datatype Out = Out(text: string, hex: bool)

  function Put(s: Out, t: Option<string>, switches: bool): Option<Out> {
    if t.None? then None else Some(Out(s.text + t.value, s.hex || switches))
  }

  function Write(s: Out, v: Value, o: EncodeOptions, depth: nat): Option<Out>
    requires Valid(v)
  {
    Put(s, Print(v, o, depth, s.hex), Switches(v, o))
  }

  function WriteItems(s: Out, items: seq<Value>, first: bool, o: EncodeOptions, depth: nat): Option<Out>
    requires AllValid(items)
  {
    Put(s, RestItems(items, first, o, depth, s.hex), ItemsSwitch(items, o))
  }

  function WriteField(s: Out, f: Field, o: EncodeOptions, depth: nat): Option<Out>
    requires IsBytes(f.key) && Valid(f.value)
  {
    Put(s, PrintField(f, o, depth, s.hex), SwitchesToHex(f.key, o) || Switches(f.value, o))
  }

  function WriteFields(s: Out, fs: seq<Field>, first: bool, o: EncodeOptions, depth: nat): Option<Out>
    requires FieldsValid(fs)
  {
    Put(s, RestFields(fs, first, o, depth, s.hex), FieldsSwitch(fs, o))
  }

  function Then(s: Option<Out>, t: string): Option<Out> {
    if s.None? then None else Some(s.value.(text := s.value.text + t))
  }

  lemma ArrayWritten(s: Out, a: seq<Value>, o: EncodeOptions, depth: nat)
    requires AllValid(a)
    ensures Write(s, Arr(a), o, depth)
         == if depth + 1 >= o.maxDepth then None
            else Then(WriteItems(s.(text := s.text + "["), a, true, o, depth + 1), Closing(a == [], "]", o, depth + 1))
  {
    if depth + 1 < o.maxDepth { ArrayText(s.text, a, o, depth, s.hex); }
  }

  lemma ObjectWritten(s: Out, a: seq<Field>, o: EncodeOptions, depth: nat)
    requires FieldsValid(a)
    ensures Write(s, Obj(a), o, depth)
         == if depth + 1 >= o.maxDepth then None
            else Then(WriteFields(s.(text := s.text + "{"), a, true, o, depth + 1), Closing(a == [], "}", o, depth + 1))
  {
    if depth + 1 < o.maxDepth { ObjectText(s.text, a, o, depth, s.hex); }
  }

  lemma FieldWritten(s: Out, f: Field, o: EncodeOptions, depth: nat)
    requires IsBytes(f.key) && Valid(f.value)
    ensures WriteField(s, f, o, depth)
         == Write(Out(s.text + StringText(f.key, o) + ":" + Separator(o), s.hex || SwitchesToHex(f.key, o)), f.value, o, depth)
  {
    FieldText(s.text, f, o, depth, s.hex);
  }

  lemma NextItemWritten(s: Out, items: seq<Value>, first: bool, o: EncodeOptions, depth: nat)
    requires AllValid(items) && items != []
    ensures var head := Write(s.(text := s.text + LeadUnless(first, o, depth)), items[0], o, depth);
            WriteItems(s, items, first, o, depth)
            == if head.None? then None else WriteItems(head.value, items[1..], false, o, depth)
  {
    NextItem(s.text, items, first, o, depth, s.hex);
  }

  lemma NextFieldWritten(s: Out, fs: seq<Field>, first: bool, o: EncodeOptions, depth: nat)
    requires FieldsValid(fs) && fs != []
    ensures var head := WriteField(s.(text := s.text + LeadUnless(first, o, depth)), fs[0], o, depth);
            WriteFields(s, fs, first, o, depth)
            == if head.None? then None else WriteFields(head.value, fs[1..], false, o, depth)
  {
    NextField(s.text, fs, first, o, depth, s.hex);
  }

  lemma FieldAtWritten(s: Out, fs: seq<Field>, i: nat, first: bool, o: EncodeOptions, depth: nat)
    requires FieldsValid(fs) && i < |fs|
    ensures FieldsValid(fs[i..]) && FieldsValid(fs[i + 1..]) && IsBytes(fs[i].key) && Valid(fs[i].value)
    ensures var head := WriteField(s.(text := s.text + LeadUnless(first, o, depth)), fs[i], o, depth);
            WriteFields(s, fs[i..], first, o, depth)
            == if head.None? then None else WriteFields(head.value, fs[i + 1..], false, o, depth)
  {
    FieldsValidAt(fs, i);
    NextFieldWritten(s, fs[i..], first, o, depth);
    assert fs[i..][1..] == fs[i + 1..];
  }

  lemma EscapeOne(stream: string, s: string, i: nat, o: EncodeOptions)
    requires i < |s| && IsBytes(s)
    ensures IsBytes(s[i..]) && IsBytes(s[i + 1..])
    ensures stream + Escape(s[i..], o) == stream + EscapeChar(s[i], o) + Escape(s[i + 1..], o)
    ensures SwitchesToHex(s[i..], o) == (IsUnicodeEscaped(s[i], o) || SwitchesToHex(s[i + 1..], o))
  {
    assert s[i..][1..] == s[i + 1..];
  }

  class Encoder {
    const options: EncodeOptions
    var stream: string
    var hex: bool
    var depth: nat

    constructor (o: EncodeOptions)
      ensures options == o.Normalize() && stream == "" && !hex && depth == 0
    {
      options := o.Normalize();
      stream := "";
      hex := false;
      depth := 0;
    }

    method AddIndent()
      modifies this`stream
      ensures stream == old(stream) + Indent(options, depth)
    {
      if options.pretty {
        var n := depth * options.indent;
        stream := stream + "\n";
        var i := 0;
        while i < n
          invariant stream + Spaces(n - i) == old(stream) + Indent(options, depth)
          decreases n - i
        {
          stream := stream + " ";
          i := i + 1;
        }
        assert Spaces(n - i) == "";
      }
    }

    method AddSeparator()
      modifies this`stream
      ensures stream == old(stream) + Separator(options)
    {
      if options.pretty { stream := stream + " "; }
    }

    method EncodeString(s: string)
      requires IsBytes(s)
      modifies this`stream, this`hex
      ensures stream == old(stream) + StringText(s, options) && hex == (old(hex) || SwitchesToHex(s, options))
    {
      stream := stream + "\"";
      var i := 0;
      while i < |s|
        invariant i <= |s|
        invariant stream + Escape(s[i..], options) == old(stream) + "\"" + Escape(s, options)
        invariant (hex || SwitchesToHex(s[i..], options)) == (old(hex) || SwitchesToHex(s, options))
      {
        EscapeOne(stream, s, i, options);
        stream := stream + EscapeChar(s[i], options);
        if IsUnicodeEscaped(s[i], options) { hex := true; }
        i := i + 1;
      }
      assert s[i..] == "" && Escape("", options) == "";
      Wrapped(old(stream), "\"", Escape(s, options), "", "\"");
      assert stream + "" == stream;
      stream := stream + "\"";
    }

    /** The number is streamed in whatever base the stream is in. */
    method EncodeInt(bits: nat, signed: bool, n: int)
      requires InWidth(bits, signed, n)
      modifies this`stream
      ensures stream == old(stream) + IntText(bits, signed, n, hex)
    {
      if hex {
        stream := stream + Hexadecimal(Unsigned(bits, n));
      } else if n < 0 {
        stream := stream + "-" + Decimal(-n);
      } else {
        stream := stream + Decimal(n);
      }
    }

    ghost function Now(): Out
      reads this
    {
      Out(stream, hex)
    }

    /** Appends the text of the value, or fails when it is nested too deep. */
    method EncodeValue(v: Value) returns (ok: bool)
      requires Valid(v)
      modifies this
      ensures Valid(Arrange(v, options.sortKeys))
      ensures var w := Write(old(Now()), Arrange(v, options.sortKeys), options, old(depth));
              ok == w.Some? && (ok ==> Now() == w.value && depth == old(depth))
      decreases v, 1
    {
      ArrangeValid(v, options.sortKeys);
      ok := true;
      match v
      case Null => stream := stream + "null";
      case Bool(b) => stream := stream + if b then "true" else "false";
      case Int(bits, signed, n) => EncodeInt(bits, signed, n);
      case Double(_) => assert false;
      case Str(s) => EncodeString(s);
      case Arr(items) => ok := EncodeArray(items);
      case Obj(fields) => ok := EncodeObject(fields);
    }

    method EncodeArray(items: seq<Value>) returns (ok: bool)
      requires AllValid(items)
      modifies this
      ensures AllValid(ArrangeAll(items, options.sortKeys))
      ensures var w := Write(old(Now()), Arr(ArrangeAll(items, options.sortKeys)), options, old(depth));
              ok == w.Some? && (ok ==> Now() == w.value && depth == old(depth))
      decreases items, 1
    {
      ArrangeAllValid(items, options.sortKeys);
      ArrangeAllAlike(items, options.sortKeys, []);
      ArrayWritten(Now(), ArrangeAll(items, options.sortKeys), options, depth);
      depth := depth + 1;
      if depth >= options.maxDepth { return false; }
      stream := stream + "[";
      ok := EncodeItems(items);
      if !ok { return; }
      Close(items == [], "]");
    }

    method EncodeItems(items: seq<Value>) returns (ok: bool)
      requires AllValid(items)
      modifies this
      ensures AllValid(ArrangeAll(items, options.sortKeys))
      ensures var w := WriteItems(old(Now()), ArrangeAll(items, options.sortKeys), true, options, old(depth));
              ok == w.Some? && (ok ==> Now() == w.value && depth == old(depth))
      decreases items, 0
    {
      ArrangeAllValid(items, options.sortKeys);
      ArrangeAllAlike(items, options.sortKeys, []);
      ghost var a := ArrangeAll(items, options.sortKeys);
      ghost var all := WriteItems(Now(), a, true, options, depth);
      var first := true;
      var i := 0;
      while i < |items|
        invariant i <= |items| && first == (i == 0) && depth == old(depth) && AllValid(a[i..])
        invariant all == WriteItems(Now(), a[i..], first, options, depth)
      {
        AllValidAt(items, i);
        ArrangeAllAt(items, options.sortKeys, i);
        NextItemWritten(Now(), a[i..], first, options, depth);
        assert a[i..][1..] == a[i + 1..];
        StartEntry(first);
        var printed := EncodeValue(items[i]);
        if !printed { return false; }
        first := false;
        i := i + 1;
      }
      assert a[i..] == [] && stream + "" == stream;
      ok := true;
    }

    method Close(empty: bool, bracket: string)
      requires depth > 0
      modifies this`stream, this`depth
      ensures stream == old(stream) + Closing(empty, bracket, options, old(depth)) && depth == old(depth) - 1
    {
      if options.pretty && !empty { AddIndent(); }
      stream := stream + bracket;
      depth := depth - 1;
    }

    /** What separates an entry from the one before it. */
    method StartEntry(first: bool)
      modifies this`stream
      ensures stream == old(stream) + LeadUnless(first, options, depth)
    {
      if !first {
        stream := stream + ",";
        AddSeparator();
        AddIndent();
      }
    }

    method EncodeObject(fields: seq<Field>) returns (ok: bool)
      requires FieldsValid(fields)
      modifies this
      ensures FieldsValid(Arranged(fields, options.sortKeys))
      ensures var w := Write(old(Now()), Obj(Arranged(fields, options.sortKeys)), options, old(depth));
              ok == w.Some? && (ok ==> Now() == w.value && depth == old(depth))
      decreases fields, 2
    {
      var keys := if options.sortKeys then SortKeys(KeysOf(fields)) else KeysOf(fields);
      ArrangedFields(fields, options.sortKeys, keys);
      ObjectWritten(Now(), Arranged(fields, options.sortKeys), options, depth);
      depth := depth + 1;
      if depth >= options.maxDepth { return false; }
      stream := stream + "{";
      ok := EncodeFields(fields, keys);
      if !ok { return; }
      Close(keys == [], "}");
    }

    method EncodeField(key: string, value: Value) returns (ok: bool)
      requires IsBytes(key) && Valid(value)
      modifies this
      ensures Valid(Arrange(value, options.sortKeys))
      ensures var w := WriteField(old(Now()), Field(key, Arrange(value, options.sortKeys)), options, old(depth));
              ok == w.Some? && (ok ==> Now() == w.value && depth == old(depth))
      decreases value, 2
    {
      ArrangeValid(value, options.sortKeys);
      FieldWritten(Now(), Field(key, Arrange(value, options.sortKeys)), options, depth);
      EncodeString(key);
      stream := stream + ":";
      AddSeparator();
      ok := EncodeValue(value);
    }

    /** A key and the value looked up for it. */
    method EncodeEntry(fields: seq<Field>, key: string) returns (ok: bool)
      requires FieldsValid(fields) && HasKey(fields, key)
      modifies this
      ensures IsBytes(key) && Valid(Arrange(ValueAt(fields, key), options.sortKeys))
      ensures var w := WriteField(old(Now()), Field(key, Arrange(ValueAt(fields, key), options.sortKeys)), options, old(depth));
              ok == w.Some? && (ok ==> Now() == w.value && depth == old(depth))
      decreases fields, 0
    {
      var at := Find(fields, key);
      FieldsValidAt(fields, at);
      ok := EncodeField(key, fields[at].value);
    }

    /** Prints the keys in the given order, each with the value looked up for it. */
    method EncodeFields(fields: seq<Field>, keys: seq<string>) returns (ok: bool)
      requires FieldsValid(fields)
      requires Walks(fields, options.sortKeys, keys)
      modifies this
      ensures var w := WriteFields(old(Now()), Arranged(fields, options.sortKeys), true, options, old(depth));
              ok == w.Some? && (ok ==> Now() == w.value && depth == old(depth))
      decreases fields, 1
    {
      ghost var a := Arranged(fields, options.sortKeys);
      ghost var all := WriteFields(Now(), a, true, options, depth);
      var first := true;
      var i := 0;
      while i < |keys|
        invariant i <= |keys| && first == (i == 0) && depth == old(depth) && FieldsValid(a[i..]) && FieldsValid(a)
        invariant all == WriteFields(Now(), a[i..], first, options, depth)
      {
        FieldAtWritten(Now(), a, i, first, options, depth);
        assert Looks(fields, options.sortKeys, keys[i], a[i]);
        StartEntry(first);
        var printed := EncodeEntry(fields, keys[i]);
        if !printed { return false; }
        first := false;
        i := i + 1;
      }
      assert a[i..] == [] && stream + "" == stream;
      ok := true;
    }

    method Encode(v: Value) returns (r: Option<string>)
      requires Valid(v) && stream == "" && !hex && depth == 0 && options == options.Normalize()
      modifies this
      ensures r == JsonRoundTrip.Encode(v, options)
    {
      var ok := EncodeValue(v);
      ghost var t := Print(Arrange(v, options.sortKeys), options, 0, false);
      if t.Some? { assert "" + t.value == t.value; }
      r := if ok then Some(stream) else None;
    }
  }
}
