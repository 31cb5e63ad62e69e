/** The signature inference, the writer and the reader as the program has them:
    functions that append to a signature they are given, a writer that appends to a
    message, and a reader that moves over the arguments of one. Each is proved to do
    what the functions of DbusCodec say, container by container; the loops over arrays
    and dictionaries carry what they have appended, or read, so far. Recursion ends by
    the structure of the value on the writer's side, and by that of the message on the
    reader's, with the depth budget counted along the way. */
module DbusMessage {
  import opened DbusValue
  import opened Options
  import C = DbusCodec
  import R = DbusReturns

  // ---- signature inference, appending to a string ----

  lemma {:induction false} AllTypeAt(items: seq<Variant>, first: Variant, i: nat)
    requires i <= |items|
    ensures AllType(items[i..], first) <==> (i == |items| || (SameType(first, items[i]) && AllType(items[i + 1..], first)))
  {
    if i < |items| { assert items[i..][1..] == items[i + 1..]; }
  }

  method CheckArrayAllType(items: seq<Variant>, first: Variant) returns (same: bool)
    ensures same == AllType(items, first)
  {
    var i := 0;
    while i < |items|
      invariant i <= |items| && AllType(items, first) == AllType(items[i..], first)
    {
      AllTypeAt(items, first, i);
      if !SameType(first, items[i]) { return false; }
      i := i + 1;
    }
    same := true;
  }

  method CheckDictAllType(es: seq<Entry>, key: Variant, value: Variant) returns (keys: bool, values: bool)
    ensures keys == KeysType(es, key) && values == ValuesType(es, value)
  {
    keys, values := true, true;
    var i := 0;
    while i < |es|
      invariant i <= |es|
      invariant (keys && KeysType(es[i..], key)) == KeysType(es, key)
      invariant (values && ValuesType(es[i..], value)) == ValuesType(es, value)
    {
      assert es[i..][1..] == es[i + 1..];
      if !SameType(key, es[i].key) { keys := false; }
      if !SameType(value, es[i].value) { values := false; }
      i := i + 1;
    }
  }

  method VariantToSignature(sig: string, v: Variant) returns (r: string)
    ensures r == sig + Infer(v)
    decreases v, 0
  {
    match v
    case Null => r := sig + "ai";
    case Bool(_) => r := sig + "b";
    case Num(kind, _) => r := sig + [KindCode(kind)];
    case Double(_) => r := sig + "d";
    case Str(_) => r := sig + "s";
    case Blob(_) => r := sig + "ay";
    case Arr(items) => r := ArrayToSignature(sig, items);
    case Dict(es) => r := DictToSignature(sig, es);
  }

  method ArrayToSignature(sig: string, items: seq<Variant>) returns (r: string)
    ensures r == sig + Infer(Arr(items))
    decreases items, 1
  {
    if items == [] { return sig + "ai"; }
    var same := CheckArrayAllType(items, items[0]);
    if same {
      r := VariantToSignature(sig + "a", items[0]);
      assert r == sig + ("a" + Infer(items[0]));
    } else {
      r := sig + "av";
      assert "a" + "v" == "av";
    }
  }

  method DictToSignature(sig: string, es: seq<Entry>) returns (r: string)
    ensures r == sig + Infer(Dict(es))
    decreases es, 1
  {
    if es == [] { return sig + "a{sv}"; }
    var keys, values := CheckDictAllType(es, es[0].key, es[0].value);
    r := sig + "a" + "{";
    if keys || values {
      r := EntryToSignature(r, es[0], keys, values);
    } else {
      r := r + "a{sv}";
    }
    r := r + "}";
    assert r == sig + ("a{" + EntrySig(es) + "}") by {
      if keys { assert KeySig(es) == FirstKey(es[0]); }
      if values { assert ValueSig(es) == FirstValue(es[0]); }
    }
  }

  method EntryToSignature(sig: string, e: Entry, keys: bool, values: bool) returns (r: string)
    ensures r == sig + ((if keys then FirstKey(e) else "s") + (if values then FirstValue(e) else "v"))
    decreases e, 1
  {
    if keys {
      r := VariantToSignature(sig, e.key);
    } else {
      r := sig + "s";
    }
    if values {
      r := VariantToSignature(r, e.value);
    } else {
      r := r + "v";
    }
  }

  // ---- the writer ----

  ghost function After(done: seq<Wire>, rest: Option<seq<Wire>>): Option<seq<Wire>> {
    if rest.None? then None else Some(done + rest.value)
  }

  lemma AfterNothing(rest: Option<seq<Wire>>)
    ensures After([], rest) == rest
  {
    if rest.Some? { assert [] + rest.value == rest.value; }
  }

  lemma ItemStep(done: seq<Wire>, elem: string, items: seq<Variant>, i: nat, depth: nat)
    requires elem != "" && i < |items|
    ensures var w := C.Write(elem, items[i], depth);
            After(done, C.WriteItems(elem, items[i..], depth))
            == if w.None? then None else After(done + [w.value], C.WriteItems(elem, items[i + 1..], depth))
  {
    assert items[i..][1..] == items[i + 1..];
    var w, rest := C.Write(elem, items[i], depth), C.WriteItems(elem, items[i + 1..], depth);
    if w.Some? && rest.Some? { assert done + ([w.value] + rest.value) == done + [w.value] + rest.value; }
  }

  lemma EntryStep(done: seq<Wire>, elem: string, es: seq<Entry>, i: nat, depth: nat)
    requires i < |es|
    ensures var w := C.WriteEntry(elem, es[i], depth);
            After(done, C.WriteEntries(elem, es[i..], depth))
            == if w.None? then None else After(done + [w.value], C.WriteEntries(elem, es[i + 1..], depth))
  {
    assert es[i..][1..] == es[i + 1..];
    var w, rest := C.WriteEntry(elem, es[i], depth), C.WriteEntries(elem, es[i + 1..], depth);
    if w.Some? && rest.Some? { assert done + ([w.value] + rest.value) == done + [w.value] + rest.value; }
  }

  class MessageWriter {
    var out: seq<Wire>

    constructor ()
      ensures out == []
    {
      out := [];
    }

    method WriteValue(sig: string, v: Variant, depth: nat) returns (ok: bool)
      requires sig != ""
      modifies this
      ensures var w := C.Write(sig, v, depth); ok == w.Some? && (ok ==> out == old(out) + [w.value])
      decreases C.MAX_DEPTH - depth, 0
    {
      if depth >= C.MAX_DEPTH { return false; }
      if sig[0] == 'a' {
        var length := CompleteLength(sig);
        if length == 0 || !IsValid(sig[1..length]) { return false; }
        ok := WriteArrayOrDict(sig[1..length], v, depth + 1);
      } else if sig[0] == 'v' {
        ok := WriteVariant(v, depth + 1);
      } else {
        var w := C.WriteBasic(sig[0], v);
        ok := w.Some?;
        if ok { out := out + [w.value]; }
      }
    }

    method WriteVariant(v: Variant, depth: nat) returns (ok: bool)
      modifies this
      ensures var w := C.WriteVariant(v, depth); ok == w.Some? && (ok ==> out == old(out) + [w.value])
      decreases C.MAX_DEPTH - depth, 1
    {
      var sig := VariantToSignature("", v);
      assert sig == Infer(v);
      if !IsValid(sig) || depth + 1 >= C.MAX_DEPTH { return false; }
      var content := new MessageWriter();
      ok := content.WriteValue(sig, v, depth + 1);
      if ok { out := out + [WVariant(sig, content.out[0])]; }
    }

    method WriteArrayOrDict(elem: string, v: Variant, depth: nat) returns (ok: bool)
      modifies this
      ensures var w := C.WriteArrayOrDict(elem, v, depth); ok == w.Some? && (ok ==> out == old(out) + [w.value])
      decreases C.MAX_DEPTH - depth, 0
    {
      if depth >= C.MAX_DEPTH || elem == "" { return false; }
      if elem[0] == '{' {
        if v.Arr? && v.items == [] {
          ok := WriteDict(elem, [], depth + 1);
        } else if v.Dict? {
          ok := WriteDict(elem, v.entries, depth + 1);
        } else {
          ok := false;
        }
      } else if v.Null? {
        out := out + [WArray("i", [])];
        ok := true;
      } else if v.Arr? {
        ok := WriteArray(elem, v.items, depth + 1);
      } else {
        ok := false;
      }
    }

    method WriteArray(elem: string, items: seq<Variant>, depth: nat) returns (ok: bool)
      requires elem != ""
      modifies this
      ensures var w := C.WriteArray(elem, items, depth); ok == w.Some? && (ok ==> out == old(out) + [w.value])
      decreases C.MAX_DEPTH - depth, 0
    {
      if depth >= C.MAX_DEPTH || |items| > C.MAX_ARRAY { return false; }
      var writer := new MessageWriter();
      AfterNothing(C.WriteItems(elem, items, depth + 1));
      ok := writer.WriteItems(elem, items, depth + 1);
      if ok { out := out + [WArray(elem, writer.out)]; }
    }

    method WriteItems(elem: string, items: seq<Variant>, depth: nat) returns (ok: bool)
      requires elem != ""
      modifies this
      ensures var ws := After(old(out), C.WriteItems(elem, items, depth)); ok == ws.Some? && (ok ==> out == ws.value)
      decreases C.MAX_DEPTH - depth, 1
    {
      assert items[0..] == items;
      var i := 0;
      while i < |items|
        invariant i <= |items|
        invariant After(old(out), C.WriteItems(elem, items, depth)) == After(out, C.WriteItems(elem, items[i..], depth))
      {
        ItemStep(out, elem, items, i, depth);
        ok := WriteValue(elem, items[i], depth);
        if !ok { return; }
        i := i + 1;
      }
      assert out + [] == out;
      ok := true;
    }

    method WriteDict(elem: string, es: seq<Entry>, depth: nat) returns (ok: bool)
      requires elem != "" && elem[0] == '{'
      modifies this
      ensures var w := C.WriteDict(elem, es, depth); ok == w.Some? && (ok ==> out == old(out) + [w.value])
      decreases C.MAX_DEPTH - depth, 0
    {
      if depth >= C.MAX_DEPTH || |es| > C.MAX_ARRAY { return false; }
      var writer := new MessageWriter();
      AfterNothing(C.WriteEntries(elem, es, depth + 1));
      ok := writer.WriteEntries(elem, es, depth + 1);
      if ok { out := out + [WArray(elem, writer.out)]; }
    }

    method WriteEntries(elem: string, es: seq<Entry>, depth: nat) returns (ok: bool)
      modifies this
      ensures var ws := After(old(out), C.WriteEntries(elem, es, depth)); ok == ws.Some? && (ok ==> out == ws.value)
      decreases C.MAX_DEPTH - depth, 2
    {
      assert es[0..] == es;
      var i := 0;
      while i < |es|
        invariant i <= |es|
        invariant After(old(out), C.WriteEntries(elem, es, depth)) == After(out, C.WriteEntries(elem, es[i..], depth))
      {
        EntryStep(out, elem, es, i, depth);
        ok := WriteEntry(elem, es[i], depth);
        if !ok { return; }
        i := i + 1;
      }
      assert out + [] == out;
      ok := true;
    }

    method WriteEntry(elem: string, e: Entry, depth: nat) returns (ok: bool)
      modifies this
      ensures var w := C.WriteEntry(elem, e, depth); ok == w.Some? && (ok ==> out == old(out) + [w.value])
      decreases C.MAX_DEPTH - depth, 1
    {
      if |elem| < 3 || CompleteLength(elem[1..]) == 0 || 1 + CompleteLength(elem[1..]) >= |elem| { return false; }
      var entry := new MessageWriter();
      ok := entry.WriteValue(elem[1..], e.key, depth);
      if !ok { return; }
      ok := entry.WriteValue(elem[1 + CompleteLength(elem[1..])..], e.value, depth);
      if ok { out := out + [WEntry(entry.out[0], entry.out[1])]; }
    }
  }

  // ---- the reader ----

  ghost function AfterValues(done: seq<Variant>, rest: Option<seq<Variant>>): Option<seq<Variant>> {
    if rest.None? then None else Some(done + rest.value)
  }

  lemma AfterNoValues(rest: Option<seq<Variant>>)
    ensures AfterValues([], rest) == rest
  {
    if rest.Some? { assert [] + rest.value == rest.value; }
  }

  class MessageReader {
    const items: seq<Wire>
    var pos: nat

    constructor (items: seq<Wire>)
      ensures this.items == items && pos == 0
    {
      this.items := items;
      pos := 0;
    }

    /** Reads the value at the position and moves past it. */
    method ReadValue(depth: nat) returns (r: Option<Variant>)
      requires pos < |items|
      modifies this
      ensures r == C.Read(items[old(pos)], depth) && (r.Some? ==> pos == old(pos) + 1)
      decreases items[pos], 2
    {
      if depth >= C.MAX_DEPTH { return None; }
      match items[pos] {
        case WBool(b) => r := Some(Bool(b));
        case WNum(code, n) => r := if C.KindOf(code).None? then None else Some(Num(C.KindOf(code).value, n));
        case WDouble(token) => r := Some(Double(token));
        case WStr(s) => r := Some(Str(s));
        case WArray(_, _) => r := ReadArrayOrDict(items[pos], depth + 1);
        case WStruct(_) => r := ReadStruct(items[pos], depth + 1);
        case WVariant(_, content) =>
          var sub := new MessageReader([content]);
          r := sub.ReadValue(depth + 2);
        case WEntry(_, _) => r := None;
      }
      if r.Some? { pos := pos + 1; }
    }

    method ReadArrayOrDict(w: Wire, depth: nat) returns (r: Option<Variant>)
      requires w.WArray? && 0 < depth <= C.MAX_DEPTH
      ensures r == C.Read(w, depth - 1)
      decreases w, 1
    {
      if depth >= C.MAX_DEPTH { return None; }
      var sub := new MessageReader(w.items);
      assert w.items[0..] == w.items;
      if w.elem != "" && w.elem[0] == '{' {
        var entries := sub.ReadDict(depth + 1);
        r := if entries.None? then None else Some(Dict(entries.value));
      } else {
        var values := sub.ReadAll(depth + 1);
        r := if values.None? then None else Some(Arr(values.value));
      }
    }

    method ReadStruct(w: Wire, depth: nat) returns (r: Option<Variant>)
      requires w.WStruct? && 0 < depth <= C.MAX_DEPTH
      ensures r == C.Read(w, depth - 1)
      decreases w, 1
    {
      if depth >= C.MAX_DEPTH { return None; }
      var sub := new MessageReader(w.members);
      assert w.members[0..] == w.members;
      var values := sub.ReadAll(depth + 1);
      r := if values.None? then None else Some(Arr(values.value));
    }

    /** Reads from the position to the end. */
    method ReadAll(depth: nat) returns (r: Option<seq<Variant>>)
      requires pos <= |items|
      modifies this
      ensures r == C.ReadItems(items[old(pos)..], depth)
      decreases items, 1
    {
      ghost var all := C.ReadItems(items[pos..], depth);
      AfterNoValues(all);
      var values: seq<Variant> := [];
      while pos < |items|
        invariant pos <= |items| && all == AfterValues(values, C.ReadItems(items[pos..], depth))
        decreases |items| - pos
      {
        assert items[pos..][1..] == items[pos + 1..];
        ghost var rest := C.ReadItems(items[pos + 1..], depth);
        var value := ReadValue(depth);
        if value.None? { return None; }
        if rest.Some? { assert values + ([value.value] + rest.value) == values + [value.value] + rest.value; }
        values := values + [value.value];
      }
      assert values + [] == values;
      r := Some(values);
    }

    /** Reads the entries from the position to the end into a dictionary. */
    method ReadDict(depth: nat) returns (r: Option<seq<Entry>>)
      requires pos <= |items|
      modifies this
      ensures r == C.ReadEntries(items[old(pos)..], [], depth)
      decreases items, 1
    {
      ghost var all := C.ReadEntries(items[pos..], [], depth);
      var dict: seq<Entry> := [];
      while pos < |items|
        invariant pos <= |items| && all == C.ReadEntries(items[pos..], dict, depth)
        decreases |items| - pos
      {
        assert items[pos..][1..] == items[pos + 1..];
        var e := ReadEntry(items[pos], depth);
        if e.None? { return None; }
        dict := C.Upsert(dict, e.value.key, e.value.value);
        pos := pos + 1;
      }
      r := Some(dict);
    }

    method ReadEntry(w: Wire, depth: nat) returns (r: Option<Entry>)
      ensures r == C.ReadEntry(w, depth)
      decreases w, 3
    {
      if !w.WEntry? { return None; }
      var entry := new MessageReader([w.key, w.value]);
      var key := entry.ReadValue(depth);
      if key.None? { return None; }
      var value := entry.ReadValue(depth);
      r := if value.None? then None else Some(Entry(key.value, value.value));
    }

    /** The arguments of a message, by the type codes of its signature. */
    method ReadArgs() returns (r: Option<seq<Variant>>)
      requires pos == 0
      modifies this
      ensures r == R.ReadArgs(items)
    {
      ghost var all := R.ReadArgs(items);
      AfterNoValues(all);
      assert items[0..] == items;
      var args: seq<Variant> := [];
      var i := 0;
      while i < |items|
        invariant pos == i <= |items| && all == AfterValues(args, R.ReadArgs(items[i..]))
      {
        assert items[i..][1..] == items[i + 1..];
        ghost var rest := R.ReadArgs(items[i + 1..]);
        if items[i].WStruct? {
          var members := ReadAll(2);
          if members.None? { return None; }
          var empties := EmptyStructs(items[i + 1..]);
          return if empties.None? then None else Some(args + ([Arr(members.value)] + empties.value));
        }
        var value := ReadValue(0);
        if value.None? { return None; }
        if rest.Some? { assert args + ([value.value] + rest.value) == args + [value.value] + rest.value; }
        args := args + [value.value];
        i := i + 1;
      }
      assert args + [] == args;
      r := Some(args);
    }

    /** Past the end a struct reads as empty, and anything else is refused. */
    method EmptyStructs(ws: seq<Wire>) returns (r: Option<seq<Variant>>)
      ensures r == R.PastTheEnd(ws)
    {
      var read: seq<Variant> := [];
      AfterNoValues(R.PastTheEnd(ws));
      assert ws[0..] == ws;
      var i := 0;
      while i < |ws|
        invariant i <= |ws| && R.PastTheEnd(ws) == AfterValues(read, R.PastTheEnd(ws[i..]))
      {
        assert ws[i..][1..] == ws[i + 1..];
        ghost var rest := R.PastTheEnd(ws[i + 1..]);
        if !ws[i].WStruct? { return None; }
        if rest.Some? { assert read + ([Arr([])] + rest.value) == read + [Arr([])] + rest.value; }
        read := read + [Arr([])];
        i := i + 1;
      }
      assert read + [] == read;
      r := Some(read);
    }
  }
}
