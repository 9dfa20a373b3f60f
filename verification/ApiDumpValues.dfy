/**
 How the api_dump layer writes one parameter or structure member as JSON: `dump_json_value`,
 `dump_json_array`, `dump_json_pointer`, `dump_json_special`, the generated struct and union bodies and the
 pNext trampoline. `ItemText` is the text of an item and `ItemJs` the value it stands for; `ItemRight` says
 that the text lexes to that value exactly when the item contains no pNext structure of unknown type, no `int`
 member, and no member of two pointer levels beside others, the three places where the writers do not produce JSON.
 */
module ApiDumpValues {
  import opened Json
  import opened JsonText
  import opened Numerals

  datatype Settings = Settings(
    showAddress: bool,
    showParams: bool,
    showThreadAndFrame: bool,
    showTimestamp: bool,
    useSpaces: bool,
    indentSize: nat,
    structs: set<string>,      // the generated is_struct table
    unions: set<string>)       // the generated is_union table

  datatype Addr = Null | At(text: string)

  datatype Payload =
    | Scalar(text: string)                 // enums, bitmasks, handles, numbers, C strings: one quoted text
    | Void(addr: Addr)                     // dump_json_void
    | IntScalar(text: string)              // dump_json_int
    | Struct(members: seq<Item>)
    | Union(choices: seq<Item>)

  datatype Item =
    | Value(typ: string, name: string, obj: Addr, payload: Payload)
    | NullPointer(typ: string, name: string)
    | Array(typ: string, childType: string, name: string, addr: Addr, elems: seq<Element>)
    | Special(typ: string, name: string, text: string, place: string)
    | Unused(typ: string, name: string)
    | PNext(chain: Chain)
    | Unprinted                            // of two pointer levels: no branch of a writer prints it

  datatype Element = Element(addr: string, payload: Payload)

  /** What the trampoline finds behind a non-null pNext. */
  datatype Chain =
    | Known(typ: string, addr: string, payload: Payload)
    | LoaderEnd                            // loader create info (47 or 48) that ends the chain
    | LoaderNext(next: Chain)              // loader create info that is skipped
    | Unknown(sType: nat)

  // ---------- Texts ----------

  function Repeat(c: char, n: nat): (s: string)
    ensures |s| == n && forall i :: 0 <= i < n ==> s[i] == c
  {
    seq(n, _ => c)
  }

  function Indentation(st: Settings, n: nat): (s: string)
    ensures AllWs(s)
    ensures n == 0 ==> s == ""
  {
    if st.useSpaces then Repeat(' ', n * st.indentSize) else Repeat('\t', n)
  }

  function AddressText(st: Settings, a: Addr): string {
    Quote(AddressName(st, a))
  }

  function AddressName(st: Settings, a: Addr): string {
    if !st.showAddress then ADDRESS else if a == Null then NULL_TEXT else a.text
  }

  predicate Contains(s: string, t: string) {
    exists i | 0 <= i <= |s| :: t <= s[i..]
  }

  /** The type name without a leading "const " and without what follows the first '[' or '*'. */
  function BaseType(typ: string): string {
    CutAtSuffix(if "const " <= typ then typ[6..] else typ)
  }

  function CutAtSuffix(s: string): string {
    if s == [] || s[0] == '[' || s[0] == '*' then [] else [s[0]] + CutAtSuffix(s[1..])
  }

  predicate IsUnion(st: Settings, typ: string) {
    BaseType(typ) in st.unions
  }

  predicate IsStruct(st: Settings, typ: string) {
    BaseType(typ) in st.structs
  }

  predicate IsChainName(name: string) {
    name == PNEXT || name == "pUserData"
  }

  function TypeText(st: Settings, typ: string, name: string): string {
    typ + (if IsChainName(name) && !Contains(typ, "void") then "*" else "")
        + (if IsUnion(st, typ) then " (Union)" else "")
  }

  predicate PrintsAddress(typ: string, name: string) {
    IsChainName(name) || (Contains(typ, "*") && typ != "const char*" && typ != "const char* const")
  }

  predicate PrintsValue(name: string, obj: Addr) {
    !IsChainName(name) || obj != Null
  }

  // The texts the writers use over and over.
  const TYPE := "type"
  const NAME := "name"
  const ADDRESS := "address"
  const VALUE := "value"
  const MEMBERS := "members"
  const ELEMENTS := "elements"
  const UNUSED := "UNUSED"
  const PNEXT := "pNext"
  const VOID_POINTER := "const void*"
  const NULL_TEXT := "NULL"
  const UNKNOWN := "UNKNOWN ("

  lemma {:induction false} KeysPlain()
    ensures Plain(TYPE) && Plain(NAME) && Plain(ADDRESS) && Plain(VALUE) && Plain(MEMBERS) && Plain(ELEMENTS)
    ensures Plain(UNUSED) && Plain(PNEXT) && Plain(VOID_POINTER) && Plain(NULL_TEXT) && Plain(UNKNOWN)
  {
  }

  function TextLine(key: string, text: string): Line {
    Line(key, " ", Quote(text))
  }

  function ValueLine(st: Settings, typ: string, body: string): Line {
    if IsUnion(st, typ) || IsStruct(st, typ) then Line(MEMBERS, "\n", body) else Line(VALUE, " ", body)
  }

  /** The lines dump_json_value prints before the value. */
  function ValueHead(st: Settings, typ: string, name: string, obj: Addr): seq<Line> {
    [TextLine(TYPE, TypeText(st, typ, name)), TextLine(NAME, name)]
    + (if PrintsAddress(typ, name) then [TextLine(ADDRESS, AddressName(st, obj))] else [])
  }

  function ValueText(st: Settings, typ: string, name: string, obj: Addr, payload: Payload, n: nat): string
    decreases payload, 3
  {
    ObjectText(Indentation(st, n), Indentation(st, n + 1),
      ValueHead(st, typ, name, obj)
      + if PrintsValue(name, obj) then [ValueLine(st, typ, PayloadText(st, payload, n + 1))] else [])
  }

  function PayloadText(st: Settings, p: Payload, n: nat): string
    decreases p, 2
  {
    match p
    case Scalar(t) => Quote(t)
    case Void(a) => AddressText(st, a) + "\n"
    case IntScalar(t) => LineText(Indentation(st, n), TextLine(VALUE, t))
    case Struct(ms) => ListText(Indentation(st, n), ItemTexts(st, ms, n + 1))
    case Union(cs) => ListText(Indentation(st, n), ItemTexts(st, cs, n + 2))
  }

  function ItemTexts(st: Settings, items: seq<Item>, n: nat): (xs: seq<string>)
    ensures |xs| == |items|
    decreases items, 1
  {
    seq(|items|, i requires 0 <= i < |items| => ItemText(st, items[i], n))
  }

  function ElementTexts(st: Settings, childType: string, elems: seq<Element>, n: nat): (xs: seq<string>)
    ensures |xs| == |elems|
    decreases elems, 1
  {
    seq(|elems|, i requires 0 <= i < |elems| =>
      ValueText(st, childType, ElementName(i), At(elems[i].addr), elems[i].payload, n))
  }

  function ElementName(i: nat): string {
    "[" + Decimal(i) + "]"
  }

  predicate IsEmptyArray(addr: Addr, elems: seq<Element>) {
    elems == [] || addr == Null
  }

  function ArrayHead(st: Settings, typ: string, name: string, addr: Addr): seq<Line> {
    [TextLine(TYPE, typ), TextLine(NAME, name), TextLine(ADDRESS, AddressName(st, addr))]
  }

  function FlatText(st: Settings, ls: seq<Line>, n: nat): string {
    ObjectText(Indentation(st, n), Indentation(st, n + 1), ls)
  }

  function ItemText(st: Settings, it: Item, n: nat): string
    decreases it, 4
  {
    match it
    case Value(typ, name, obj, payload) => ValueText(st, typ, name, obj, payload, n)
    case NullPointer(typ, name) => FlatText(st, ArrayHead(st, typ, name, Null), n)
    case Array(typ, childType, name, addr, elems) =>
      if IsEmptyArray(addr, elems) then FlatText(st, ArrayHead(st, typ, name, addr), n)
      else FlatText(st,
        ArrayHead(st, typ, name, addr)
        + [Line(ELEMENTS, "\n", ListText(Indentation(st, n + 1), ElementTexts(st, childType, elems, n + 2)))], n)
    case Special(typ, name, text, addr) =>
      FlatText(st, ArrayHead(st, typ, name, At(addr)) + [TextLine(VALUE, text)], n)
    case Unused(typ, name) => FlatText(st, UnusedLines(typ, name), n)
    case PNext(chain) => ChainText(st, chain, n)
    case Unprinted => ""
  }

  function UnusedLines(typ: string, name: string): seq<Line> {
    [TextLine(TYPE, typ), TextLine(NAME, name), TextLine(ADDRESS, UNUSED), TextLine(VALUE, UNUSED)]
  }

  function ChainLines(): seq<Line> {
    [TextLine(TYPE, VOID_POINTER), TextLine(NAME, PNEXT)]
  }

  function UnknownBody(sType: nat): string {
    Quote(UNKNOWN) + (Decimal(sType) + "\")")
  }

  function ChainText(st: Settings, c: Chain, n: nat): string
    decreases c, 4
  {
    match c
    case Known(typ, addr, payload) => ValueText(st, typ, PNEXT, At(addr), payload, n)
    case LoaderEnd => FlatText(st, ChainLines() + [TextLine(VALUE, NULL_TEXT)], n)
    case LoaderNext(next) => ChainText(st, next, n)
    case Unknown(sType) => FlatText(st, ChainLines() + [Line(VALUE, " ", UnknownBody(sType))], n)
  }

  // ---------- What may be printed raw ----------

  predicate PlainAddr(a: Addr) {
    a == Null || Plain(a.text)
  }

  predicate PlainPayload(p: Payload)
    decreases p, 0
  {
    match p
    case Scalar(t) => Plain(t)
    case Void(a) => PlainAddr(a)
    case IntScalar(t) => Plain(t)
    case Struct(ms) => forall i :: 0 <= i < |ms| ==> PlainItem(ms[i])
    case Union(cs) => forall i :: 0 <= i < |cs| ==> PlainItem(cs[i])
  }

  predicate PlainItem(it: Item)
    decreases it, 0
  {
    match it
    case Value(typ, name, obj, payload) => Plain(typ) && Plain(name) && PlainAddr(obj) && PlainPayload(payload)
    case NullPointer(typ, name) => Plain(typ) && Plain(name)
    case Array(typ, childType, name, addr, elems) =>
      && Plain(typ) && Plain(childType) && Plain(name) && PlainAddr(addr)
      && forall i :: 0 <= i < |elems| ==> Plain(elems[i].addr) && PlainPayload(elems[i].payload)
    case Special(typ, name, text, addr) => Plain(typ) && Plain(name) && Plain(text) && Plain(addr)
    case Unused(typ, name) => Plain(typ) && Plain(name)
    case PNext(chain) => PlainChain(chain)
    case Unprinted => true
  }

  predicate PlainChain(c: Chain)
    decreases c, 0
  {
    match c
    case Known(typ, addr, payload) => Plain(typ) && Plain(addr) && PlainPayload(payload)
    case LoaderEnd => true
    case LoaderNext(next) => PlainChain(next)
    case Unknown(_) => true
  }

  // ---------- Items whose printed branches all produce JSON ----------

  predicate GoodPayload(p: Payload)
    decreases p, 0
  {
    match p
    case Scalar(_) => true
    case Void(_) => true
    case IntScalar(_) => false
    case Struct(ms) => GoodItems(ms)
    case Union(cs) => GoodItems(cs)
  }

  predicate GoodItem(it: Item)
    decreases it, 0
  {
    match it
    case Value(typ, name, obj, payload) => PrintsValue(name, obj) ==> GoodPayload(payload)
    case NullPointer(_, _) => true
    case Array(_, _, _, addr, elems) =>
      IsEmptyArray(addr, elems) || forall i :: 0 <= i < |elems| ==> GoodPayload(elems[i].payload)
    case Special(_, _, _, _) => true
    case Unused(_, _) => true
    case PNext(chain) => GoodChain(chain)
    case Unprinted => true
  }

  /** The comma of an item that prints nothing stays, so it must be alone. */
  predicate NoGap(items: seq<Item>) {
    |items| == 1 || forall i :: 0 <= i < |items| ==> !items[i].Unprinted?
  }

  /** A list of members or parameters that is printed as JSON. */
  predicate GoodItems(items: seq<Item>)
    decreases items, 1
  {
    NoGap(items) && forall i :: 0 <= i < |items| ==> GoodItem(items[i])
  }

  /** Only structures whose type the trampoline knows. */
  predicate GoodChain(c: Chain)
    decreases c, 0
  {
    match c
    case Known(_, _, payload) => GoodPayload(payload)
    case LoaderEnd => true
    case LoaderNext(next) => GoodChain(next)
    case Unknown(_) => false
  }

  // ---------- The values the texts stand for ----------

  function TextField(key: string, text: string): Field {
    Field(key, Str(text))
  }

  function ValueFields(st: Settings, typ: string, name: string, obj: Addr): seq<Field> {
    [TextField(TYPE, TypeText(st, typ, name)), TextField(NAME, name)]
    + (if PrintsAddress(typ, name) then [TextField(ADDRESS, AddressName(st, obj))] else [])
  }

  function ValueJs(st: Settings, typ: string, name: string, obj: Addr, payload: Payload): Json.Value
    decreases payload, 3
  {
    Obj(ValueFields(st, typ, name, obj)
        + if PrintsValue(name, obj)
          then [Field(if IsUnion(st, typ) || IsStruct(st, typ) then MEMBERS else VALUE, PayloadJs(st, payload))]
          else [])
  }

  function PayloadJs(st: Settings, p: Payload): Json.Value
    decreases p, 2
  {
    match p
    case Scalar(t) => Str(t)
    case Void(a) => Str(AddressName(st, a))
    case IntScalar(t) => Str(t)
    case Struct(ms) => Arr(ItemsJs(st, ms))
    case Union(cs) => Arr(ItemsJs(st, cs))
  }

  /** The values of the items that print something. */
  function ItemsJs(st: Settings, items: seq<Item>): seq<Json.Value>
    decreases items, 1
  {
    if items == [] then []
    else (if items[0].Unprinted? then [] else [ItemJs(st, items[0])]) + ItemsJs(st, items[1..])
  }

  lemma {:induction false} ItemsJsAt(st: Settings, items: seq<Item>)
    requires forall i :: 0 <= i < |items| ==> !items[i].Unprinted?
    ensures |ItemsJs(st, items)| == |items|
    ensures forall i :: 0 <= i < |items| ==> ItemsJs(st, items)[i] == ItemJs(st, items[i])
  {
    if items != [] {
      ItemsJsAt(st, items[1..]);
    }
  }

  lemma {:induction false} ItemsJsCat(st: Settings, a: seq<Item>, b: seq<Item>)
    ensures ItemsJs(st, a + b) == ItemsJs(st, a) + ItemsJs(st, b)
  {
    if a == [] {
      assert a + b == b;
    } else {
      ItemsJsCat(st, a[1..], b);
      assert (a + b)[1..] == a[1..] + b && (a + b)[0] == a[0];
      ValuesRegroup(if a[0].Unprinted? then [] else [ItemJs(st, a[0])], ItemsJs(st, a[1..]), ItemsJs(st, b));
    }
  }

  lemma {:induction false} ValuesRegroup(a: seq<Json.Value>, b: seq<Json.Value>, c: seq<Json.Value>)
    ensures a + (b + c) == a + b + c
  {
  }

  function ElementsJs(st: Settings, childType: string, elems: seq<Element>): (vs: seq<Json.Value>)
    ensures |vs| == |elems|
    decreases elems, 1
  {
    seq(|elems|, i requires 0 <= i < |elems| =>
      ValueJs(st, childType, ElementName(i), At(elems[i].addr), elems[i].payload))
  }

  function ArrayFields(st: Settings, typ: string, name: string, addr: Addr): seq<Field> {
    [TextField(TYPE, typ), TextField(NAME, name), TextField(ADDRESS, AddressName(st, addr))]
  }

  function ItemJs(st: Settings, it: Item): Json.Value
    requires !it.Unprinted?
    decreases it, 4
  {
    match it
    case Value(typ, name, obj, payload) => ValueJs(st, typ, name, obj, payload)
    case NullPointer(typ, name) => Obj(ArrayFields(st, typ, name, Null))
    case Array(typ, childType, name, addr, elems) =>
      if IsEmptyArray(addr, elems) then Obj(ArrayFields(st, typ, name, addr))
      else Obj(ArrayFields(st, typ, name, addr) + [Field(ELEMENTS, Arr(ElementsJs(st, childType, elems)))])
    case Special(typ, name, text, addr) =>
      Obj(ArrayFields(st, typ, name, At(addr)) + [TextField(VALUE, text)])
    case Unused(typ, name) =>
      Obj(UnusedFields(typ, name))
    case PNext(chain) => ChainJs(st, chain)
  }

  function UnusedFields(typ: string, name: string): seq<Field> {
    [TextField(TYPE, typ), TextField(NAME, name), TextField(ADDRESS, UNUSED), TextField(VALUE, UNUSED)]
  }

  function ChainFields(): seq<Field> {
    [TextField(TYPE, VOID_POINTER), TextField(NAME, PNEXT)]
  }

  function ChainJs(st: Settings, c: Chain): Json.Value
    decreases c, 4
  {
    match c
    case Known(typ, addr, payload) => ValueJs(st, typ, PNEXT, At(addr), payload)
    case LoaderEnd => Obj(ChainFields() + [TextField(VALUE, NULL_TEXT)])
    case LoaderNext(next) => ChainJs(st, next)
    case Unknown(_) => Obj(ChainFields() + [TextField(VALUE, "")])   // what a text of this value would have to hold
  }

  // ---------- Text against value ----------

  /** `s` is a text of `v` if `good`, and can be part of no JSON text otherwise. */
  ghost predicate Right(s: string, good: bool, v: Json.Value) {
    Closed(s) && if good then Sound(s, v) else Bad(s)
  }

  lemma {:induction false} RightList(ind: string, xs: seq<string>, goods: seq<bool>, vs: seq<Json.Value>, good: bool)
    requires AllWs(ind) && |xs| == |goods| == |vs|
    requires forall i :: 0 <= i < |xs| ==> Right(xs[i], goods[i], vs[i])
    requires good <==> forall i :: 0 <= i < |xs| ==> goods[i]
    ensures Right(ListText(ind, xs), good, Arr(vs))
  {
    ClosedList(ind, xs);
    if good {
      SoundList(ind, xs, vs);
    } else {
      var i :| 0 <= i < |xs| && !goods[i];
      assert xs[i] in xs;
    }
  }

  /** The same for one line of an object. */
  ghost predicate RightLine(ind: string, l: Line, good: bool, v: Json.Value) {
    Closed(LineText(ind, l)) && if good then LineOk(l) && Sound(l.body, v) else Bad(LineText(ind, l))
  }

  lemma {:induction false} RightBody(ind: string, l: Line, good: bool, v: Json.Value)
    requires AllWs(ind) && LineOk(l) && Right(l.body, good, v)
    ensures RightLine(ind, l, good, v)
  {
    ClosedLine(ind, l);
  }

  /** An object whose last line alone may be bad. */
  lemma {:induction false} RightObject(ind: string, inner: string, ls: seq<Line>, fs: seq<Field>,
                                       last: Line, good: bool, v: Json.Value)
    requires AllWs(ind) && AllWs(inner) && SoundLines(ls, fs) && RightLine(inner, last, good, v)
    ensures Right(ObjectText(ind, inner, ls + [last]), good, Obj(fs + [Field(last.key, v)]))
  {
    var all := ls + [last];
    forall i | 0 <= i < |all|
      ensures Closed(LineText(inner, all[i]))
    {
      if i < |ls| {
        LexLine(inner, ls[i], fs[i].value);
      }
    }
    ClosedObject(ind, inner, all);
    if good {
      SoundObject(ind, inner, all, fs + [Field(last.key, v)]);
    } else {
      assert all[|ls|] == last;
    }
  }

  lemma {:induction false} RightFlat(st: Settings, ls: seq<Line>, fs: seq<Field>, n: nat)
    requires SoundLines(ls, fs)
    ensures Right(FlatText(st, ls, n), true, Obj(fs))
  {
    SoundObject(Indentation(st, n), Indentation(st, n + 1), ls, fs);
  }

  lemma {:induction false} TextLineOk(key: string, text: string)
    requires Plain(key) && Plain(text)
    ensures LineOk(TextLine(key, text)) && Sound(TextLine(key, text).body, Str(text))
  {
    SoundQuote(text);
  }

  lemma {:induction false} SoundSnoc(ls: seq<Line>, fs: seq<Field>, key: string, text: string)
    requires SoundLines(ls, fs) && Plain(key) && Plain(text)
    ensures SoundLines(ls + [TextLine(key, text)], fs + [TextField(key, text)])
  {
    TextLineOk(key, text);
  }

  lemma {:induction false} SoundPair(k1: string, t1: string, k2: string, t2: string)
    requires Plain(k1) && Plain(t1) && Plain(k2) && Plain(t2)
    ensures SoundLines([TextLine(k1, t1), TextLine(k2, t2)], [TextField(k1, t1), TextField(k2, t2)])
  {
    TextLineOk(k1, t1);
    TextLineOk(k2, t2);
  }

  lemma {:induction false} AddressPlain(st: Settings, a: Addr)
    requires PlainAddr(a)
    ensures Plain(AddressName(st, a))
  {
    KeysPlain();
  }

  lemma {:induction false} TypeTextPlain(st: Settings, typ: string, name: string)
    requires Plain(typ)
    ensures Plain(TypeText(st, typ, name))
  {
  }

  lemma {:induction false} ArrayHeadSound(st: Settings, typ: string, name: string, addr: Addr)
    requires Plain(typ) && Plain(name) && PlainAddr(addr)
    ensures SoundLines(ArrayHead(st, typ, name, addr), ArrayFields(st, typ, name, addr))
  {
    KeysPlain();
    SoundPair(TYPE, typ, NAME, name);
    SoundSnoc([TextLine(TYPE, typ), TextLine(NAME, name)], [TextField(TYPE, typ), TextField(NAME, name)],
              ADDRESS, AddressName(st, addr));
    assert ArrayHead(st, typ, name, addr)
        == [TextLine(TYPE, typ), TextLine(NAME, name)] + [TextLine(ADDRESS, AddressName(st, addr))];
    assert ArrayFields(st, typ, name, addr)
        == [TextField(TYPE, typ), TextField(NAME, name)] + [TextField(ADDRESS, AddressName(st, addr))];
  }

  lemma {:induction false} ValueHeadSound(st: Settings, typ: string, name: string, obj: Addr)
    requires Plain(typ) && Plain(name) && PlainAddr(obj)
    ensures SoundLines(ValueHead(st, typ, name, obj), ValueFields(st, typ, name, obj))
  {
    var text := TypeText(st, typ, name);
    KeysPlain();
    TypeTextPlain(st, typ, name);
    SoundPair(TYPE, text, NAME, name);
    if PrintsAddress(typ, name) {
      SoundSnoc([TextLine(TYPE, text), TextLine(NAME, name)], [TextField(TYPE, text), TextField(NAME, name)],
                ADDRESS, AddressName(st, obj));
    } else {
      assert ValueHead(st, typ, name, obj) == [TextLine(TYPE, text), TextLine(NAME, name)];
      assert ValueFields(st, typ, name, obj) == [TextField(TYPE, text), TextField(NAME, name)];
    }
  }

  lemma {:induction false} ValueRight(st: Settings, typ: string, name: string, obj: Addr, payload: Payload, n: nat)
    requires Plain(typ) && Plain(name) && PlainAddr(obj) && PlainPayload(payload)
    ensures Right(ValueText(st, typ, name, obj, payload, n), PrintsValue(name, obj) ==> GoodPayload(payload),
                  ValueJs(st, typ, name, obj, payload))
    decreases payload, 3
  {
    if PrintsValue(name, obj) {
      PayloadLineRight(st, typ, payload, n + 1);
      LastLineRight(st, typ, name, obj, ValueLine(st, typ, PayloadText(st, payload, n + 1)), n,
                    GoodPayload(payload), PayloadJs(st, payload));
    } else {
      var ls, fs := ValueHead(st, typ, name, obj), ValueFields(st, typ, name, obj);
      ValueHeadSound(st, typ, name, obj);
      assert ls + [] == ls && fs + [] == fs;
      RightFlat(st, ls, fs, n);
    }
  }

  lemma {:induction false} LastLineRight(st: Settings, typ: string, name: string, obj: Addr, l: Line, n: nat,
                                         good: bool, v: Json.Value)
    requires Plain(typ) && Plain(name) && PlainAddr(obj) && RightLine(Indentation(st, n + 1), l, good, v)
    ensures Right(FlatText(st, ValueHead(st, typ, name, obj) + [l], n), good,
                  Obj(ValueFields(st, typ, name, obj) + [Field(l.key, v)]))
  {
    ValueHeadSound(st, typ, name, obj);
    RightObject(Indentation(st, n), Indentation(st, n + 1), ValueHead(st, typ, name, obj),
                ValueFields(st, typ, name, obj), l, good, v);
  }

  lemma {:induction false} ValueLinePlain(st: Settings, typ: string, body: string)
    ensures var l := ValueLine(st, typ, body);
            && Plain(l.key) && AllWs(l.gap) && l.body == body
            && l.key == if IsUnion(st, typ) || IsStruct(st, typ) then MEMBERS else VALUE
  {
    KeysPlain();
  }

  lemma {:induction false} PayloadLineRight(st: Settings, typ: string, p: Payload, n: nat)
    requires PlainPayload(p)
    ensures RightLine(Indentation(st, n), ValueLine(st, typ, PayloadText(st, p, n)), GoodPayload(p), PayloadJs(st, p))
    decreases p, 2, 1
  {
    var ind, l := Indentation(st, n), ValueLine(st, typ, PayloadText(st, p, n));
    if p.IntScalar? {
      IntLineBad(ind, l, TextLine(VALUE, p.text), p.text);
    } else {
      PayloadRight(st, p, n);
      ValueLinePlain(st, typ, PayloadText(st, p, n));
      RightBody(ind, l, GoodPayload(p), PayloadJs(st, p));
    }
  }

  /** A member printed where the value of another member is expected. */
  lemma {:induction false} IntLineBad(ind: string, outer: Line, inner: Line, text: string)
    requires AllWs(ind) && LineOk(outer) && inner == TextLine(VALUE, text) && Plain(text)
    requires outer.body == LineText(ind, inner)
    ensures Closed(LineText(ind, outer)) && Bad(LineText(ind, outer))
  {
    SoundQuote(text);
    LexLine(ind, inner, Str(text));
    LexKey(ind, outer);
    var head, tail := [Text(outer.key), Colon], PrintField(Field(VALUE, Str(text)));
    LexCat(ind + (Quote(outer.key) + (" :" + outer.gap)), head, outer.body, tail);
    assert tail == [Text(VALUE), Colon, Text(text)] by {
      assert Print(Str(text)) == [Text(text)];
    }
    assert DefectAt(head + tail, 1);
  }

  lemma {:induction false} PayloadRight(st: Settings, p: Payload, n: nat)
    requires PlainPayload(p) && !p.IntScalar?
    ensures Right(PayloadText(st, p, n), GoodPayload(p), PayloadJs(st, p))
    decreases p, 2, 0
  {
    match p
    case Scalar(t) => SoundQuote(t);
    case Void(a) =>
      AddressPlain(st, a);
      SoundQuote(AddressName(st, a));
      LexSpaced("", AddressText(st, a), [Text(AddressName(st, a))], "\n");
      assert "" + AddressText(st, a) + "\n" == PayloadText(st, p, n);
    case Struct(ms) => ItemListRight(st, ms, n, n + 1);
    case Union(cs) => ItemListRight(st, cs, n, n + 2);
    case IntScalar(_) =>
  }

  lemma {:induction false} ItemsRight(st: Settings, items: seq<Item>, n: nat)
    requires forall i :: 0 <= i < |items| ==> PlainItem(items[i])
    ensures forall i :: 0 <= i < |items| && !items[i].Unprinted? ==>
              Right(ItemTexts(st, items, n)[i], GoodItem(items[i]), ItemJs(st, items[i]))
    decreases items, 1
  {
    forall i | 0 <= i < |items| && !items[i].Unprinted?
      ensures Right(ItemTexts(st, items, n)[i], GoodItem(items[i]), ItemJs(st, items[i]))
    {
      ItemRight(st, items[i], n);
    }
  }

  /** A list of members or parameters, printed at depth `n` with the items `deeper`. */
  lemma {:induction false} ItemListRight(st: Settings, items: seq<Item>, n: nat, deeper: nat)
    requires forall i :: 0 <= i < |items| ==> PlainItem(items[i])
    ensures Right(ListText(Indentation(st, n), ItemTexts(st, items, deeper)), GoodItems(items), Arr(ItemsJs(st, items)))
    decreases items, 2
  {
    ItemsRight(st, items, deeper);
    if k :| 0 <= k < |items| && items[k].Unprinted? {
      GapListRight(st, items, n, deeper, k);
    } else {
      var goods := seq(|items|, i requires 0 <= i < |items| => GoodItem(items[i]));
      ItemsJsAt(st, items);
      GoodsAre(items, goods);
      RightList(Indentation(st, n), ItemTexts(st, items, deeper), goods, ItemsJs(st, items), GoodItems(items));
    }
  }

  lemma {:induction false} GoodsAre(items: seq<Item>, goods: seq<bool>)
    requires |goods| == |items| && forall i :: 0 <= i < |items| ==> goods[i] == GoodItem(items[i])
    requires forall i :: 0 <= i < |items| ==> !items[i].Unprinted?
    ensures GoodItems(items) <==> forall i :: 0 <= i < |items| ==> goods[i]
  {
    if forall i :: 0 <= i < |items| ==> goods[i] {
      forall i | 0 <= i < |items|
        ensures GoodItem(items[i])
      {
        assert goods[i];
      }
    }
  }

  /** The texts around the `k`-th item, which prints nothing. */
  lemma {:induction false} TextsAround(st: Settings, items: seq<Item>, n: nat, k: nat)
    requires k < |items| && items[k].Unprinted?
    ensures ItemTexts(st, items, n) == ItemTexts(st, items[..k], n) + [""] + ItemTexts(st, items[k + 1..], n)
  {
  }

  /** A member that prints nothing, alone, leaves an empty array. */
  lemma {:induction false} LoneItem(st: Settings, items: seq<Item>, n: nat, deeper: nat)
    requires |items| == 1 && items[0].Unprinted?
    ensures Sound(ListText(Indentation(st, n), ItemTexts(st, items, deeper)), Arr([]))
    ensures ItemsJs(st, items) == [] && GoodItems(items) && PlainValue(Arr([]))
  {
    LoneGap(Indentation(st, n));
    assert ItemTexts(st, items, deeper)[0] == ItemText(st, items[0], deeper) == "";
    assert ItemTexts(st, items, deeper) == [""];
    assert items[1..] == [];
  }

  lemma {:induction false} GapListRight(st: Settings, items: seq<Item>, n: nat, deeper: nat, k: nat)
    requires k < |items| && items[k].Unprinted?
    requires forall i :: 0 <= i < |items| && !items[i].Unprinted? ==>
               Right(ItemTexts(st, items, deeper)[i], GoodItem(items[i]), ItemJs(st, items[i]))
    ensures Right(ListText(Indentation(st, n), ItemTexts(st, items, deeper)), GoodItems(items), Arr(ItemsJs(st, items)))
  {
    var texts := ItemTexts(st, items, deeper);
    if |items| == 1 {
      LoneItem(st, items, n, deeper);
    } else {
      var pre, post := ItemTexts(st, items[..k], deeper), ItemTexts(st, items[k + 1..], deeper);
      TextsAround(st, items, deeper, k);
      LexWs("");
      assert forall i :: 0 <= i < |items| ==> Closed(texts[i]);
      assert forall i :: 0 <= i < |pre| ==> pre[i] == texts[i];
      assert forall i :: 0 <= i < |post| ==> post[i] == texts[k + 1 + i];
      GapBad(Indentation(st, n), pre, post);
    }
  }

  lemma {:induction false} ElementsRight(st: Settings, childType: string, elems: seq<Element>, n: nat)
    requires Plain(childType)
    requires forall i :: 0 <= i < |elems| ==> Plain(elems[i].addr) && PlainPayload(elems[i].payload)
    ensures forall i :: 0 <= i < |elems| ==>
              Right(ElementTexts(st, childType, elems, n)[i], GoodPayload(elems[i].payload),
                    ElementsJs(st, childType, elems)[i])
    decreases elems, 1
  {
    forall i | 0 <= i < |elems|
      ensures Right(ElementTexts(st, childType, elems, n)[i], GoodPayload(elems[i].payload),
                    ElementsJs(st, childType, elems)[i])
    {
      ElementNamePlain(i);
      ValueRight(st, childType, ElementName(i), At(elems[i].addr), elems[i].payload, n);
    }
  }

  lemma {:induction false} DigitsPlain(s: string)
    requires AllDigits(s)
    ensures Plain(s)
  {
    assert forall i :: 0 <= i < |s| ==> IsDigit(s[i]);
  }

  lemma {:induction false} ElementNamePlain(i: nat)
    ensures Plain(ElementName(i)) && !IsChainName(ElementName(i))
  {
    DigitsPlain(Decimal(i));
    assert ElementName(i)[0] == '[';
  }

  /** A number behind a closed string: an illegal character. */
  lemma {:induction false} UnknownBad(sType: nat)
    ensures Right(UnknownBody(sType), false, Str(""))
  {
    KeysPlain();
    LexQuote(UNKNOWN);
    var tail := Decimal(sType) + "\")";
    assert IsDigit(tail[0]);
    LexAppend(Quote(UNKNOWN), tail);
  }

  lemma {:induction false} UnusedSound(typ: string, name: string)
    requires Plain(typ) && Plain(name)
    ensures SoundLines(UnusedLines(typ, name), UnusedFields(typ, name))
  {
    KeysPlain();
    SoundPair(TYPE, typ, NAME, name);
    var ls, fs := [TextLine(TYPE, typ), TextLine(NAME, name)], [TextField(TYPE, typ), TextField(NAME, name)];
    SoundSnoc(ls, fs, ADDRESS, UNUSED);
    SoundSnoc(ls + [TextLine(ADDRESS, UNUSED)], fs + [TextField(ADDRESS, UNUSED)], VALUE, UNUSED);
    assert UnusedLines(typ, name) == ls + [TextLine(ADDRESS, UNUSED)] + [TextLine(VALUE, UNUSED)];
    assert UnusedFields(typ, name) == fs + [TextField(ADDRESS, UNUSED)] + [TextField(VALUE, UNUSED)];
  }

  lemma {:induction false} ElementsLineRight(st: Settings, it: Item, n: nat)
    requires it.Array? && PlainItem(it) && !IsEmptyArray(it.addr, it.elems)
    ensures var inner := Indentation(st, n + 1);
            RightLine(inner, Line(ELEMENTS, "\n", ListText(inner, ElementTexts(st, it.childType, it.elems, n + 2))),
                      GoodItem(it), Arr(ElementsJs(st, it.childType, it.elems)))
    decreases it, 2
  {
    var inner := Indentation(st, n + 1);
    ElementListRight(st, it.childType, it.elems, inner, n + 2, GoodItem(it));
    RightBody(inner, Line(ELEMENTS, "\n", ListText(inner, ElementTexts(st, it.childType, it.elems, n + 2))),
              GoodItem(it), Arr(ElementsJs(st, it.childType, it.elems)));
  }

  lemma {:induction false} ArrayRight(st: Settings, it: Item, n: nat)
    requires it.Array? && PlainItem(it) && !IsEmptyArray(it.addr, it.elems)
    ensures Right(ItemText(st, it, n), GoodItem(it), ItemJs(st, it))
    decreases it, 3
  {
    var Array(typ, childType, name, addr, elems) := it;
    var inner := Indentation(st, n + 1);
    var v := Arr(ElementsJs(st, childType, elems));
    var l := Line(ELEMENTS, "\n", ListText(inner, ElementTexts(st, childType, elems, n + 2)));
    ArrayHeadSound(st, typ, name, addr);
    ElementsLineRight(st, it, n);
    RightObject(Indentation(st, n), inner, ArrayHead(st, typ, name, addr), ArrayFields(st, typ, name, addr), l,
                GoodItem(it), v);
  }

  lemma {:induction false} ElementListRight(st: Settings, childType: string, elems: seq<Element>, ind: string, n: nat,
                                            good: bool)
    requires AllWs(ind) && Plain(childType)
    requires forall i :: 0 <= i < |elems| ==> Plain(elems[i].addr) && PlainPayload(elems[i].payload)
    requires good <==> forall i :: 0 <= i < |elems| ==> GoodPayload(elems[i].payload)
    ensures Right(ListText(ind, ElementTexts(st, childType, elems, n)), good, Arr(ElementsJs(st, childType, elems)))
    decreases elems, 2
  {
    var goods := seq(|elems|, i requires 0 <= i < |elems| => GoodPayload(elems[i].payload));
    ElementsRight(st, childType, elems, n);
    if forall i :: 0 <= i < |goods| ==> goods[i] {
      forall i | 0 <= i < |elems|
        ensures GoodPayload(elems[i].payload)
      {
        assert goods[i];
      }
    }
    RightList(ind, ElementTexts(st, childType, elems, n), goods, ElementsJs(st, childType, elems), good);
  }

  lemma {:induction false} SpecialRight(st: Settings, typ: string, name: string, text: string, addr: string, n: nat)
    requires PlainItem(Special(typ, name, text, addr))
    ensures var it := Special(typ, name, text, addr); Right(ItemText(st, it, n), GoodItem(it), ItemJs(st, it))
  {
    ArrayHeadSound(st, typ, name, At(addr));
    KeysPlain();
    var ls, fs := ArrayHead(st, typ, name, At(addr)), ArrayFields(st, typ, name, At(addr));
    SoundSnoc(ls, fs, VALUE, text);
    RightFlat(st, ls + [TextLine(VALUE, text)], fs + [TextField(VALUE, text)], n);
  }

  lemma {:induction false} ItemRight(st: Settings, it: Item, n: nat)
    requires PlainItem(it) && !it.Unprinted?
    ensures Right(ItemText(st, it, n), GoodItem(it), ItemJs(st, it))
    decreases it, 4
  {
    match it
    case Value(typ, name, obj, payload) => ValueRight(st, typ, name, obj, payload, n);
    case NullPointer(typ, name) =>
      ArrayHeadSound(st, typ, name, Null);
      RightFlat(st, ArrayHead(st, typ, name, Null), ArrayFields(st, typ, name, Null), n);
    case Array(typ, childType, name, addr, elems) =>
      if IsEmptyArray(addr, elems) {
        ArrayHeadSound(st, typ, name, addr);
        RightFlat(st, ArrayHead(st, typ, name, addr), ArrayFields(st, typ, name, addr), n);
      } else {
        ArrayRight(st, it, n);
      }
    case Special(typ, name, text, addr) => SpecialRight(st, typ, name, text, addr, n);
    case Unused(typ, name) =>
      UnusedSound(typ, name);
      RightFlat(st, UnusedLines(typ, name), UnusedFields(typ, name), n);
    case PNext(chain) => ChainRight(st, chain, n);
  }

  lemma {:induction false} ChainLinesSound()
    ensures SoundLines(ChainLines(), ChainFields())
  {
    KeysPlain();
    SoundPair(TYPE, VOID_POINTER, NAME, PNEXT);
  }

  lemma {:induction false} ChainRight(st: Settings, c: Chain, n: nat)
    requires PlainChain(c)
    ensures Right(ChainText(st, c, n), GoodChain(c), ChainJs(st, c))
    decreases c, 4
  {
    KeysPlain();
    match c
    case Known(typ, addr, payload) => ValueRight(st, typ, PNEXT, At(addr), payload, n);
    case LoaderEnd =>
      ChainLinesSound();
      SoundSnoc(ChainLines(), ChainFields(), VALUE, NULL_TEXT);
      RightFlat(st, ChainLines() + [TextLine(VALUE, NULL_TEXT)], ChainFields() + [TextField(VALUE, NULL_TEXT)], n);
    case LoaderNext(next) => ChainRight(st, next, n);
    case Unknown(sType) =>
      ChainLinesSound();
      UnknownBad(sType);
      var l := Line(VALUE, " ", UnknownBody(sType));
      RightBody(Indentation(st, n + 1), l, false, Str(""));
      RightObject(Indentation(st, n), Indentation(st, n + 1), ChainLines(), ChainFields(), l, false, Str(""));
  }
}
