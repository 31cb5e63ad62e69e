/** The checker of D-Bus values against signatures. `CheckType` follows the program,
    which walks the text of a signature with nothing but positions and bracket counts;
    `Accepts` is the judgement it is meant to implement, by the structure of a type. The
    theorem is that the two agree for every type over the basic types the checker knows,
    arrays, dictionaries and structs, and for every value. */
module MdbValidator {
  import opened DbusValue

  // ---- the checker, over signature text ----

  /** The complete types of a signature, as far as they go. */
  function CompleteTypes(sig: string): (r: seq<string>)
    ensures forall i :: 0 <= i < |r| ==> 0 < |r[i]| <= |sig|
    ensures |r| > 1 ==> forall i :: 0 <= i < |r| ==> |r[i]| < |sig|
    decreases |sig|
  {
    var n := CompleteLength(sig);
    if n == 0 then [] else [sig[..n]] + CompleteTypes(sig[n..])
  }

  predicate IsIntegerType(sig: string) {
    sig == "y" || sig == "q" || sig == "u" || sig == "t" || sig == "n" || sig == "i" || sig == "x"
  }

  predicate IsDictType(sig: string) {
    |sig| > 3 && sig[0] == 'a' && sig[1] == '{'
  }

  predicate IsStructType(sig: string) {
    |sig| >= 2 && sig[0] == '(' && sig[|sig| - 1] == ')'
  }

  predicate IsSigned(kind: Kind) {
    kind == I8 || kind == I16 || kind == I32 || kind == I64
  }

  const INT64_MAX := 0x7FFF_FFFF_FFFF_FFFF

  predicate CheckIntegerRange(sig: string, v: Variant) {
    if !v.Num? then false
    else if !IsSigned(v.kind) && v.n > INT64_MAX then sig == "t"
    else if sig == "y" then 0 <= v.n <= 0xFF
    else if sig == "q" then 0 <= v.n <= 0xFFFF
    else if sig == "u" then 0 <= v.n <= 0xFFFF_FFFF
    else if sig == "t" then !(IsSigned(v.kind) && v.n < 0)
    else if sig == "n" then -0x8000 <= v.n <= 0x7FFF
    else if sig == "i" then -0x8000_0000 <= v.n <= 0x7FFF_FFFF
    else sig == "x"
  }

  predicate CheckBasic(sig: string, v: Variant) {
    if IsIntegerType(sig) then CheckIntegerRange(sig, v)
    else if sig == "s" then v.Str?
    else (sig == "b" && v.Bool?) || (sig == "d" && v.Double?)
  }

  predicate CheckType(sig: string, v: Variant)
    decreases |sig|, 3
  {
    var sigs := CompleteTypes(sig);
    if |sigs| == 1 then CheckOne(sig, v)
    else v.Arr? && |v.items| == |sigs| && CheckEach(sig, sigs, v.items)
  }

  predicate CheckEach(sig: string, sigs: seq<string>, items: seq<Variant>)
    requires |sigs| == |items| && forall i :: 0 <= i < |sigs| ==> |sigs[i]| < |sig|
    decreases |sig|, 1, |sigs|
  {
    sigs != [] ==> CheckType(sigs[0], items[0]) && CheckEach(sig, sigs[1..], items[1..])
  }

  predicate CheckOne(sig: string, v: Variant)
    requires sig != ""
    decreases |sig|, 2
  {
    if sig == "ay" then v.Blob? || v.Arr?
    else if |sig| == 1 then CheckBasic(sig, v)
    else if IsDictType(sig) then v.Dict? && CheckDict(sig, v.entries)
    else if IsStructType(sig) then CheckStruct(sig, v)
    else sig[0] == 'a' && v.Arr? && CheckArray(sig[1..], v.items)
  }

  predicate CheckArray(elem: string, items: seq<Variant>)
    decreases |elem|, 4, |items|
  {
    items != [] ==> CheckType(elem, items[0]) && CheckArray(elem, items[1..])
  }

  predicate CheckStruct(sig: string, v: Variant)
    requires IsStructType(sig)
    decreases |sig|, 1
  {
    var inner := sig[1..|sig| - 1];
    var sigs := CompleteTypes(inner);
    v.Arr? && |v.items| == |sigs| && CheckEach(sig, sigs, v.items)
  }

  predicate CheckDict(sig: string, es: seq<Entry>)
    requires IsDictType(sig)
    decreases |sig|, 1, |es|
  {
    es != [] ==>
      CheckBasic([sig[2]], es[0].key) && CheckType(sig[3..|sig| - 1], es[0].value) && CheckDict(sig, es[1..])
  }

  // ---- the types and the judgement ----

  datatype Type = Basic(code: char) | ArrayOf(elem: Type) | DictOf(key: char, value: Type) | StructOf(members: seq<Type>)

  predicate IsCode(c: char) {
    c == 'y' || c == 'n' || c == 'q' || c == 'i' || c == 'u' || c == 'x' || c == 't' || c == 'b' || c == 'd' || c == 's'
  }

  predicate Proper(t: Type) {
    match t
    case Basic(code) => IsCode(code)
    case ArrayOf(elem) => Proper(elem)
    case DictOf(key, value) => IsCode(key) && Proper(value)
    case StructOf(members) => AllProper(members)
  }

  predicate AllProper(ts: seq<Type>) {
    ts != [] ==> Proper(ts[0]) && AllProper(ts[1..])
  }

  function SigOf(t: Type): (s: string)
    ensures s != ""
  {
    match t
    case Basic(code) => [code]
    case ArrayOf(elem) => "a" + SigOf(elem)
    case DictOf(key, value) => "a{" + [key] + SigOf(value) + "}"
    case StructOf(members) => "(" + SigsOf(members) + ")"
  }

  function SigsOf(ts: seq<Type>): string {
    if ts == [] then "" else SigOf(ts[0]) + SigsOf(ts[1..])
  }

  /** The integers of a code, for a value of either sign. */
  predicate InRange(code: char, n: int) {
    if code == 'y' then 0 <= n <= 0xFF
    else if code == 'n' then -0x8000 <= n <= 0x7FFF
    else if code == 'q' then 0 <= n <= 0xFFFF
    else if code == 'i' then -0x8000_0000 <= n <= 0x7FFF_FFFF
    else if code == 'u' then 0 <= n <= 0xFFFF_FFFF
    else if code == 'x' then -0x8000_0000_0000_0000 <= n <= INT64_MAX
    else code == 't' && 0 <= n <= 0xFFFF_FFFF_FFFF_FFFF
  }

  predicate AcceptsBasic(code: char, v: Variant) {
    match v
    case Num(_, n) => InRange(code, n)
    case Str(_) => code == 's'
    case Bool(_) => code == 'b'
    case Double(_) => code == 'd'
    case _ => false
  }

  /** The values of a type. Bytes may come as a blob, and then as any array at all. */
  predicate Accepts(t: Type, v: Variant)
    decreases t, 0, 0
  {
    match t
    case Basic(code) => AcceptsBasic(code, v)
    case ArrayOf(elem) => if elem == Basic('y') then v.Blob? || v.Arr? else v.Arr? && AllAccepted(elem, v.items)
    case DictOf(key, value) => v.Dict? && EntriesAccepted(key, value, v.entries)
    case StructOf(members) => v.Arr? && |v.items| == |members| && MembersAccepted(members, v.items)
  }

  predicate AllAccepted(elem: Type, items: seq<Variant>)
    decreases elem, 1, |items|
  {
    items != [] ==> Accepts(elem, items[0]) && AllAccepted(elem, items[1..])
  }

  predicate EntriesAccepted(key: char, value: Type, es: seq<Entry>)
    decreases value, 1, |es|
  {
    es != [] ==>
      AcceptsBasic(key, es[0].key) && Accepts(value, es[0].value) && EntriesAccepted(key, value, es[1..])
  }

  predicate MembersAccepted(ts: seq<Type>, items: seq<Variant>)
    requires |ts| == |items|
    decreases ts, 0, 0
  {
    ts != [] ==> Accepts(ts[0], items[0]) && MembersAccepted(ts[1..], items[1..])
  }

  /** An integer value is within its own width. */
  predicate Held(v: Variant) {
    v.Num? ==>
      if IsSigned(v.kind) then -0x8000_0000_0000_0000 <= v.n <= INT64_MAX else 0 <= v.n <= 0xFFFF_FFFF_FFFF_FFFF
  }

  predicate HeldAll(v: Variant) {
    Held(v) && (v.Arr? ==> ItemsHeld(v.items)) && (v.Dict? ==> EntriesHeld(v.entries))
  }

  predicate ItemsHeld(items: seq<Variant>) {
    items != [] ==> HeldAll(items[0]) && ItemsHeld(items[1..])
  }

  predicate EntryHeld(e: Entry) {
    HeldAll(e.key) && HeldAll(e.value)
  }

  predicate EntriesHeld(es: seq<Entry>) {
    es != [] ==> EntryHeld(es[0]) && EntriesHeld(es[1..])
  }

  // ---- reading a signature gives back its type ----

  /** Parentheses balance within a type. */
  lemma {:induction false} SkipsType(t: Type, rest: string, nesting: nat)
    requires Proper(t) && nesting > 0
    ensures StructLength(SigOf(t) + rest, nesting) == |SigOf(t)| + StructLength(rest, nesting)
    ensures Closes(SigOf(t) + rest, nesting) == Closes(rest, nesting)
    decreases t
  {
    match t
    case Basic(code) => SkipsChar(code, rest, nesting);
    case ArrayOf(elem) =>
      SkipsChar('a', SigOf(elem) + rest, nesting);
      assert "a" + SigOf(elem) + rest == ['a'] + (SigOf(elem) + rest);
      SkipsType(elem, rest, nesting);
    case DictOf(key, value) =>
      SkipsType(value, ['}'] + rest, nesting);
      SkipsDict(key, SigOf(value), rest, nesting);
    case StructOf(members) =>
      SkipsTypes(members, ")" + rest, nesting + 1);
      SkipsStruct(SigsOf(members), rest, nesting);
  }

  lemma SkipsDict(key: char, v: string, rest: string, nesting: nat)
    requires nesting > 0 && IsCode(key)
    requires StructLength(v + (['}'] + rest), nesting) == |v| + StructLength(['}'] + rest, nesting)
    requires Closes(v + (['}'] + rest), nesting) == Closes(['}'] + rest, nesting)
    ensures var s := "a{" + [key] + v + "}";
            StructLength(s + rest, nesting) == |s| + StructLength(rest, nesting) && Closes(s + rest, nesting) == Closes(rest, nesting)
  {
    var behind := v + (['}'] + rest);
    var entry := ['{'] + ([key] + behind);
    SkipsChar('a', entry, nesting);
    SkipsChar('{', [key] + behind, nesting);
    SkipsChar(key, behind, nesting);
    SkipsChar('}', rest, nesting);
    DictText(key, v, rest);
  }

  lemma DictText(key: char, v: string, rest: string)
    ensures "a{" + [key] + v + "}" + rest == ['a'] + (['{'] + ([key] + (v + (['}'] + rest))))
    ensures |"a{" + [key] + v + "}"| == 4 + |v|
  {
  }

  lemma SkipsStruct(inner: string, rest: string, nesting: nat)
    requires nesting > 0
    requires StructLength(inner + (")" + rest), nesting + 1) == |inner| + StructLength(")" + rest, nesting + 1)
    requires Closes(inner + (")" + rest), nesting + 1) == Closes(")" + rest, nesting + 1)
    ensures var s := "(" + inner + ")";
            StructLength(s + rest, nesting) == |s| + StructLength(rest, nesting) && Closes(s + rest, nesting) == Closes(rest, nesting)
  {
    var s := "(" + inner + ")";
    assert (s + rest)[1..] == inner + (")" + rest);
    assert (")" + rest)[1..] == rest;
  }

  lemma SkipsChar(c: char, rest: string, nesting: nat)
    requires nesting > 0 && c != '(' && c != ')'
    ensures StructLength([c] + rest, nesting) == 1 + StructLength(rest, nesting)
    ensures Closes([c] + rest, nesting) == Closes(rest, nesting)
  {
    assert ([c] + rest)[1..] == rest;
  }

  lemma {:induction false} SkipsTypes(ts: seq<Type>, rest: string, nesting: nat)
    requires AllProper(ts) && nesting > 0
    ensures StructLength(SigsOf(ts) + rest, nesting) == |SigsOf(ts)| + StructLength(rest, nesting)
    ensures Closes(SigsOf(ts) + rest, nesting) == Closes(rest, nesting)
    decreases ts
  {
    if ts == [] {
      assert SigsOf(ts) + rest == rest;
    } else {
      assert SigsOf(ts) + rest == SigOf(ts[0]) + (SigsOf(ts[1..]) + rest);
      SkipsType(ts[0], SigsOf(ts[1..]) + rest, nesting);
      SkipsTypes(ts[1..], rest, nesting);
    }
  }

  /** The first complete type of a signature that begins with a type is that type. */
  lemma {:induction false} TypeLength(t: Type, rest: string)
    requires Proper(t)
    ensures CompleteLength(SigOf(t) + rest) == |SigOf(t)|
    decreases t
  {
    match t
    case Basic(_) =>
    case ArrayOf(elem) =>
      assert (SigOf(t) + rest)[1..] == SigOf(elem) + rest;
      TypeLength(elem, rest);
    case DictOf(key, value) =>
      var v, tail := SigOf(value), "}" + rest;
      var s := SigOf(t) + rest;
      TypeLength(value, tail);
      DictLength(s, key, v, tail);
    case StructOf(members) =>
      var inner := SigsOf(members) + (")" + rest);
      assert (SigOf(t) + rest)[1..] == inner;
      SkipsTypes(members, ")" + rest, 1);
      assert (")" + rest)[1..] == rest;
  }

  lemma DictLength(s: string, key: char, v: string, tail: string)
    requires IsCode(key) && v != "" && tail != "" && tail[0] == '}' && CompleteLength(v + tail) == |v|
    requires s == "a{" + [key] + v + tail
    ensures CompleteLength(s) == 4 + |v|
  {
    var entry := s[1..];
    assert entry[0] == '{' && entry[1] == key && entry[2..] == v + tail;
    assert (v + tail)[|v|] == '}' && entry[2 + |v|] == '}';
    assert IsBasic(key);
    assert CompleteLength(entry) == 3 + |v|;
  }

  function SigList(ts: seq<Type>): (r: seq<string>)
    ensures |r| == |ts|
  {
    if ts == [] then [] else [SigOf(ts[0])] + SigList(ts[1..])
  }

  lemma {:induction false} TypesRead(ts: seq<Type>)
    requires AllProper(ts)
    ensures CompleteTypes(SigsOf(ts)) == SigList(ts)
    decreases |ts|
  {
    if ts != [] {
      var s := SigsOf(ts);
      TypeLength(ts[0], SigsOf(ts[1..]));
      assert s[..|SigOf(ts[0])|] == SigOf(ts[0]) && s[|SigOf(ts[0])|..] == SigsOf(ts[1..]);
      TypesRead(ts[1..]);
    }
  }

  lemma OneTypeRead(t: Type)
    requires Proper(t)
    ensures CompleteTypes(SigOf(t)) == [SigOf(t)]
  {
    assert SigsOf([t]) == SigOf(t) by { assert [t][1..] == []; assert SigOf(t) + "" == SigOf(t); }
    TypesRead([t]);
    assert SigList([t]) == [SigOf(t)] by { assert [t][1..] == []; assert SigList([]) == []; }
  }

  // ---- the checker decides the judgement ----

  lemma BasicDecides(code: char, v: Variant)
    requires IsCode(code) && Held(v)
    ensures CheckBasic([code], v) == AcceptsBasic(code, v)
  {
    assert [code][0] == code;
  }

  lemma BytesSig(t: Type)
    requires Proper(t)
    ensures SigOf(t) == "ay" <==> t == ArrayOf(Basic('y'))
  {
    match t
    case ArrayOf(elem) =>
      assert SigOf(t)[1..] == SigOf(elem) && "ay"[1..] == "y";
      if SigOf(elem) == "y" { ShortSig(elem); }
    case DictOf(_, _) => assert SigOf(t)[1] == '{';
    case StructOf(_) => assert SigOf(t)[0] == '(';
    case _ =>
  }

  lemma ShortSig(t: Type)
    requires Proper(t) && |SigOf(t)| == 1
    ensures t.Basic?
  {
  }

  lemma ArrayIsNoDict(elem: Type)
    requires Proper(elem)
    ensures SigOf(elem)[0] != '{' && !IsDictType("a" + SigOf(elem)) && !IsStructType("a" + SigOf(elem))
  {
    assert ("a" + SigOf(elem))[1] == SigOf(elem)[0];
  }

  /** `check_type` accepts exactly the values of the type that its signature reads. */
  lemma {:induction false} TypeDecides(t: Type, v: Variant)
    requires Proper(t) && HeldAll(v)
    ensures CheckType(SigOf(t), v) == Accepts(t, v)
    decreases t, 1, 0
  {
    var s := SigOf(t);
    OneTypeRead(t);
    BytesSig(t);
    match t
    case Basic(code) => BasicDecides(code, v);
    case ArrayOf(elem) =>
      ArrayIsNoDict(elem);
      assert s[1..] == SigOf(elem);
      if v.Arr? && elem != Basic('y') { ArrayDecides(elem, v.items); }
    case DictOf(key, value) => if v.Dict? { DictDecides(key, value, v.entries); }
    case StructOf(members) =>
      TypesRead(members);
      assert s[0] == '(' && s[|s| - 1] == ')' && s[1..|s| - 1] == SigsOf(members);
      assert CheckType(s, v) == CheckStruct(s, v);
      if v.Arr? && |v.items| == |members| { StructDecides(members, v); }
  }

  lemma {:induction false} ArrayDecides(elem: Type, items: seq<Variant>)
    requires Proper(elem) && ItemsHeld(items)
    ensures CheckArray(SigOf(elem), items) == AllAccepted(elem, items)
    decreases elem, 2, |items|
  {
    if items != [] {
      TypeDecides(elem, items[0]);
      ArrayDecides(elem, items[1..]);
    }
  }

  lemma {:induction false} DictDecides(key: char, value: Type, es: seq<Entry>)
    requires IsCode(key) && Proper(value) && EntriesHeld(es)
    ensures IsDictType(SigOf(DictOf(key, value)))
    ensures CheckDict(SigOf(DictOf(key, value)), es) == EntriesAccepted(key, value, es)
    decreases value, 2, |es|
  {
    var s := SigOf(DictOf(key, value));
    assert s[2] == key && s[3..|s| - 1] == SigOf(value);
    if es != [] {
      assert EntryHeld(es[0]);
      assert HeldAll(es[0].key);
      BasicDecides(key, es[0].key);
      TypeDecides(value, es[0].value);
      DictDecides(key, value, es[1..]);
    }
  }

  lemma {:induction false} StructDecides(members: seq<Type>, v: Variant)
    requires AllProper(members) && v.Arr? && |v.items| == |members| && HeldAll(v)
    ensures CheckStruct(SigOf(StructOf(members)), v) == MembersAccepted(members, v.items)
    decreases members, 2, 0
  {
    var s := SigOf(StructOf(members));
    TypesRead(members);
    assert s[1..|s| - 1] == SigsOf(members);
    MembersShorter(members, s);
    MembersDecide(s, members, v.items);
  }

  lemma {:induction false} MembersShorter(ts: seq<Type>, s: string)
    requires |SigsOf(ts)| < |s|
    ensures forall i :: 0 <= i < |ts| ==> |SigList(ts)[i]| < |s|
    decreases |ts|
  {
    if ts != [] { MembersShorter(ts[1..], s); }
  }

  lemma {:induction false} MembersDecide(s: string, ts: seq<Type>, items: seq<Variant>)
    requires AllProper(ts) && |ts| == |items| && ItemsHeld(items)
    requires forall i :: 0 <= i < |ts| ==> |SigList(ts)[i]| < |s|
    ensures CheckEach(s, SigList(ts), items) == MembersAccepted(ts, items)
    decreases ts, 1, 0
  {
    if ts != [] {
      assert SigList(ts)[1..] == SigList(ts[1..]);
      TypeDecides(ts[0], items[0]);
      MembersDecide(s, ts[1..], items[1..]);
    }
  }

  /** A signature of several types, or of none, is checked as a struct's members. */
  lemma TypesDecide(ts: seq<Type>, v: Variant)
    requires AllProper(ts) && |ts| != 1 && HeldAll(v)
    ensures CheckType(SigsOf(ts), v) <==> v.Arr? && |v.items| == |ts| && MembersAccepted(ts, v.items)
  {
    TypesRead(ts);
    var s := SigsOf(ts);
    if v.Arr? && |v.items| == |ts| && ts != [] {
      EachShorter(ts);
      MembersDecide(s, ts, v.items);
    }
  }

  lemma EachShorter(ts: seq<Type>)
    requires |ts| > 1 && AllProper(ts)
    ensures forall i :: 0 <= i < |ts| ==> |SigList(ts)[i]| < |SigsOf(ts)|
  {
    TypesRead(ts);
  }
}
