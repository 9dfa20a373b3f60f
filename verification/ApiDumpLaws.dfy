/**
 What the api_dump layer prints, with its words written out: the keys and texts of every object, and when a member is
 there. The main results about addresses: hidden, they leave no trace in the text; shown, the printed value tells any
 two items apart that differ in an address the layer prints.
 */
module ApiDumpLaws {
  import opened Options
  import opened Json
  import opened JsonText
  import opened Numerals
  import opened ApiDumpValues
  import opened ApiDumpRun
  import opened ApiDumpJson

  // ---------- Type names ----------

  /** A type name: perhaps "const ", a name, and what follows from the first '*' or '[' on. */
  function TypeName(qualified: bool, base: string, rest: string): string {
    (if qualified then "const " else "") + base + rest
  }

  predicate IsTypeName(qualified: bool, base: string, rest: string) {
    && '*' !in base && '[' !in base && (rest != "" ==> rest[0] == '*' || rest[0] == '[')
    && (!qualified ==> !("const " <= base))
  }

  lemma {:induction false} CutIs(base: string, rest: string)
    requires '*' !in base && '[' !in base && (rest != "" ==> rest[0] == '*' || rest[0] == '[')
    ensures CutAtSuffix(base + rest) == base
  {
    if base == "" {
      assert base + rest == rest;
    } else {
      assert (base + rest)[1..] == base[1..] + rest;
      CutIs(base[1..], rest);
      assert [base[0]] + base[1..] == base;
    }
  }

  lemma {:induction false} BaseIs(qualified: bool, base: string, rest: string)
    requires IsTypeName(qualified, base, rest)
    ensures BaseType(TypeName(qualified, base, rest)) == base
  {
    CutIs(base, rest);
    if qualified {
      assert ("const " + base + rest)[6..] == base + rest;
    } else {
      assert "" + base + rest == base + rest;
      NotConst(base, rest);
    }
  }

  lemma {:induction false} NotConst(base: string, rest: string)
    requires !("const " <= base) && (rest != "" ==> rest[0] == '*' || rest[0] == '[')
    ensures !("const " <= base + rest)
  {
    assert rest != "" ==> (base + rest)[|base|] == rest[0];
    assert |base| >= 6 ==> (base + rest)[..6] == base[..6];
  }

  /** Every type name is of this form. */
  lemma {:induction false} TypeNameOf(typ: string) returns (qualified: bool, base: string, rest: string)
    ensures IsTypeName(qualified, base, rest) && typ == TypeName(qualified, base, rest)
  {
    qualified := "const " <= typ;
    var named := if qualified then typ[6..] else typ;
    base, rest := Cut(named);
    if qualified {
      assert "const " + named == typ;
      assert "const " + base + rest == "const " + named;
    } else {
      assert "" + base + rest == typ;
      assert "const " <= base ==> "const " <= base + rest;
    }
  }

  lemma {:induction false} Cut(s: string) returns (base: string, rest: string)
    ensures s == base + rest && '*' !in base && '[' !in base && (rest != "" ==> rest[0] == '*' || rest[0] == '[')
  {
    if s == "" || s[0] == '*' || s[0] == '[' {
      base, rest := "", s;
      assert "" + s == s;
    } else {
      base, rest := Cut(s[1..]);
      base := [s[0]] + base;
      assert [s[0]] + s[1..] == s;
    }
  }

  lemma {:induction false} HasStar(s: string)
    ensures Contains(s, "*") <==> '*' in s
  {
    if '*' in s {
      var i :| 0 <= i < |s| && s[i] == '*';
      assert "*" <= s[i..];
    }
    if Contains(s, "*") {
      var i :| 0 <= i <= |s| && "*" <= s[i..];
      assert s[i] == '*';
    }
  }

  /** Some text of the string is this one. */
  ghost predicate Within(t: string, s: string) {
    exists a: string, b: string :: s == a + t + b
  }

  lemma {:induction false} ContainsIs(s: string, t: string)
    ensures Contains(s, t) <==> Within(t, s)
  {
    if Contains(s, t) {
      var i :| 0 <= i <= |s| && t <= s[i..];
      assert s == s[..i] + t + s[i + |t|..];
    }
    if Within(t, s) {
      var a: string, b: string :| s == a + t + b;
      assert s[|a|..] == t + b;
      assert t <= s[|a|..];
    }
  }

  // ---------- The printed objects ----------

  function Text(key: string, text: string): Field {
    Field(key, Str(text))
  }

  /** An address as it is printed: its text, "NULL", or the word "address" if addresses are hidden. */
  function Shown(show: bool, a: Addr): string {
    match a
    case Null => if show then "NULL" else "address"
    case At(text) => if show then text else "address"
  }

  /** dump_json_value, for a type name and any settings. */
  lemma {:induction false} ValueIs(st: Settings, qualified: bool, base: string, rest: string, name: string, obj: Addr,
                                   payload: Payload)
    requires IsTypeName(qualified, base, rest)
    ensures var typ := TypeName(qualified, base, rest);
            var chain := name in {"pNext", "pUserData"};
            var star := if chain && !Within("void", typ) then "*" else "";
            var isUnion, isStruct := base in st.unions, base in st.structs;
            ValueJs(st, typ, name, obj, payload)
            == Obj([Text("type", typ + star + if isUnion then " (Union)" else ""), Text("name", name)]
                   + (if chain || ('*' in typ && typ !in {"const char*", "const char* const"})
                      then [Text("address", Shown(st.showAddress, obj))] else [])
                   + (if chain && obj == Null then []
                      else [Field(if isUnion || isStruct then "members" else "value", PayloadJs(st, payload))]))
  {
    var typ := TypeName(qualified, base, rest);
    BaseIs(qualified, base, rest);
    HasStar(typ);
    ContainsIs(typ, "void");
  }

  /** What stands behind "value" or "members". */
  lemma {:induction false} PayloadIs(st: Settings)
    ensures forall t :: PayloadJs(st, Scalar(t)) == Str(t) && PayloadJs(st, IntScalar(t)) == Str(t)
    ensures forall a :: PayloadJs(st, Void(a)) == Str(Shown(st.showAddress, a))
    ensures forall ms :: PayloadJs(st, Struct(ms)) == Arr(ItemsJs(st, ms)) == PayloadJs(st, Union(ms))
  {
  }

  /** The other kinds of parameters and members. */
  lemma {:induction false} ItemIs(st: Settings, typ: string, name: string)
    ensures ItemJs(st, NullPointer(typ, name))
         == Obj([Text("type", typ), Text("name", name), Text("address", Shown(st.showAddress, Null))])
    ensures forall text, place ::
              ItemJs(st, Special(typ, name, text, place))
              == Obj([Text("type", typ), Text("name", name), Text("address", Shown(st.showAddress, At(place))),
                      Text("value", text)])
    ensures ItemJs(st, Unused(typ, name))
         == Obj([Text("type", typ), Text("name", name), Text("address", "UNUSED"), Text("value", "UNUSED")])
  {
  }

  /** An array without elements, or a null one, is printed like a pointer; any other has its elements, by number. */
  lemma {:induction false} ArrayIs(st: Settings, typ: string, childType: string, name: string, addr: Addr,
                                   elems: seq<Element>)
    ensures ItemJs(st, Array(typ, childType, name, addr, elems))
         == Obj([Text("type", typ), Text("name", name), Text("address", Shown(st.showAddress, addr))]
                + if addr == Null || |elems| == 0 then []
                  else [Field("elements", Arr(ElementsJs(st, childType, elems)))])
    ensures |ElementsJs(st, childType, elems)| == |elems|
    ensures forall i :: 0 <= i < |elems| ==>
              ElementsJs(st, childType, elems)[i]
              == ValueJs(st, childType, "[" + Decimal(i) + "]", At(elems[i].addr), elems[i].payload)
  {
    var fs := [Text("type", typ), Text("name", name), Text("address", Shown(st.showAddress, addr))];
    assert fs + [] == fs;
  }

  /** A pNext chain: the structure behind the loader's own, "NULL" if there is none. */
  lemma {:induction false} ChainIs(st: Settings)
    ensures ChainJs(st, LoaderEnd)
         == Obj([Text("type", "const void*"), Text("name", "pNext"), Text("value", "NULL")])
    ensures forall next :: ChainJs(st, LoaderNext(next)) == ChainJs(st, next)
    ensures forall typ, addr, payload ::
              ChainJs(st, Known(typ, addr, payload)) == ValueJs(st, typ, "pNext", At(addr), payload)
  {
  }

  /** A call. */
  lemma {:induction false} CallIs(st: Settings, c: Call)
    ensures CallJs(st, c)
         == Obj([Text("name", c.name)]
                + (if st.showThreadAndFrame then [Text("thread", "Thread " + Decimal(c.thread))] else [])
                + (if st.showTimestamp then [Text("time", Decimal(c.time) + " us")] else [])
                + [Text("returnType", c.returnType)]
                + (if c.result.Some? then [Text("returnValue", c.result.value)] else [])
                + (if st.showParams then [Field("args", Arr(ItemsJs(st, c.args)))] else []))
  {
  }

  /** A frame. */
  lemma {:induction false} FrameIs(st: Settings, k: nat, cs: seq<Call>)
    ensures FrameJs(st, k, cs)
         == Obj((if st.showThreadAndFrame then [Text("frameNumber", Decimal(k))] else [])
                + [Field("apiCalls", Arr(CallsJs(st, cs)))])
    ensures |CallsJs(st, cs)| == |cs| && forall i :: 0 <= i < |cs| ==> CallsJs(st, cs)[i] == CallJs(st, cs[i])
  {
  }

  // ---------- Layout ----------

  /** Spaces of the configured width, or one tab for each level. */
  lemma {:induction false} IndentationIs(st: Settings, n: nat)
    ensures |Indentation(st, n)| == if st.useSpaces then n * st.indentSize else n
    ensures forall i :: 0 <= i < |Indentation(st, n)| ==> Indentation(st, n)[i] == if st.useSpaces then ' ' else '\t'
  {
  }

  // ---------- Addresses ----------

  /** The items with the text of every address that is not null replaced. */
  function Masked(it: Item): Item
    decreases it, 2
  {
    match it
    case Value(typ, name, obj, payload) => Value(typ, name, MaskedAddr(obj), MaskedPayload(payload))
    case Array(typ, childType, name, addr, elems) =>
      Array(typ, childType, name, MaskedAddr(addr), MaskedElements(elems))
    case Special(typ, name, text, _) => Special(typ, name, text, "")
    case PNext(chain) => PNext(MaskedChain(chain))
    case NullPointer(_, _) => it
    case Unused(_, _) => it
    case Unprinted => it
  }

  function MaskedAddr(a: Addr): Addr {
    if a == Null then Null else At("")
  }

  function MaskedPayload(p: Payload): Payload
    decreases p, 2
  {
    match p
    case Void(a) => Void(MaskedAddr(a))
    case Struct(ms) => Struct(MaskedItems(ms))
    case Union(cs) => Union(MaskedItems(cs))
    case Scalar(_) => p
    case IntScalar(_) => p
  }

  function MaskedItems(items: seq<Item>): (ms: seq<Item>)
    ensures |ms| == |items|
    decreases items, 1
  {
    seq(|items|, i requires 0 <= i < |items| => Masked(items[i]))
  }

  function MaskedElements(elems: seq<Element>): (ms: seq<Element>)
    ensures |ms| == |elems|
    decreases elems, 1
  {
    seq(|elems|, i requires 0 <= i < |elems| => Element("", MaskedPayload(elems[i].payload)))
  }

  function MaskedChain(c: Chain): Chain
    decreases c, 2
  {
    match c
    case Known(typ, _, payload) => Known(typ, "", MaskedPayload(payload))
    case LoaderNext(next) => LoaderNext(MaskedChain(next))
    case LoaderEnd => c
    case Unknown(_) => c
  }

  /** With hidden addresses the text does not depend on any address text. */
  lemma {:induction false} HiddenItem(st: Settings, it: Item, n: nat)
    requires !st.showAddress
    ensures ItemText(st, it, n) == ItemText(st, Masked(it), n)
    decreases it, 4
  {
    match it
    case Value(typ, name, obj, payload) => HiddenValue(st, typ, name, obj, payload, n);
    case Array(typ, childType, name, addr, elems) =>
      HiddenElements(st, childType, elems, n + 2);
    case PNext(chain) => HiddenChain(st, chain, n);
    case _ =>
  }

  lemma {:induction false} HiddenValue(st: Settings, typ: string, name: string, obj: Addr, payload: Payload, n: nat)
    requires !st.showAddress
    ensures ValueText(st, typ, name, obj, payload, n)
         == ValueText(st, typ, name, MaskedAddr(obj), MaskedPayload(payload), n)
    decreases payload, 4
  {
    HiddenPayload(st, payload, n + 1);
  }

  lemma {:induction false} HiddenPayload(st: Settings, p: Payload, n: nat)
    requires !st.showAddress
    ensures PayloadText(st, p, n) == PayloadText(st, MaskedPayload(p), n)
    decreases p, 3
  {
    match p
    case Struct(ms) => HiddenItems(st, ms, n + 1);
    case Union(cs) => HiddenItems(st, cs, n + 2);
    case _ =>
  }

  lemma {:induction false} HiddenItems(st: Settings, items: seq<Item>, n: nat)
    requires !st.showAddress
    ensures ItemTexts(st, items, n) == ItemTexts(st, MaskedItems(items), n)
    decreases items, 2
  {
    forall i | 0 <= i < |items| ensures ItemText(st, items[i], n) == ItemText(st, MaskedItems(items)[i], n) {
      HiddenItem(st, items[i], n);
    }
  }

  lemma {:induction false} HiddenElements(st: Settings, childType: string, elems: seq<Element>, n: nat)
    requires !st.showAddress
    ensures ElementTexts(st, childType, elems, n) == ElementTexts(st, childType, MaskedElements(elems), n)
    decreases elems, 2
  {
    forall i | 0 <= i < |elems|
      ensures ElementTexts(st, childType, elems, n)[i] == ElementTexts(st, childType, MaskedElements(elems), n)[i]
    {
      HiddenValue(st, childType, ElementName(i), At(elems[i].addr), elems[i].payload, n);
    }
  }

  lemma {:induction false} HiddenChain(st: Settings, c: Chain, n: nat)
    requires !st.showAddress
    ensures ChainText(st, c, n) == ChainText(st, MaskedChain(c), n)
    decreases c, 4
  {
    match c
    case Known(typ, addr, payload) => HiddenValue(st, typ, PNEXT, At(addr), payload, n);
    case LoaderNext(next) => HiddenChain(st, next, n);
    case _ =>
  }

  /** Two items that differ in the texts of addresses only have the same text if addresses are hidden. */
  lemma {:induction false} HiddenAddresses(st: Settings, a: Item, b: Item, n: nat)
    requires !st.showAddress && Masked(a) == Masked(b)
    ensures ItemText(st, a, n) == ItemText(st, b, n)
  {
    HiddenItem(st, a, n);
    HiddenItem(st, b, n);
  }

  // ---------- Shown addresses ----------

  /** The items with the texts of those addresses replaced that are not printed. */
  function Visible(it: Item): Item
    decreases it, 2
  {
    match it
    case Value(typ, name, obj, payload) =>
      Value(typ, name, if PrintsAddress(typ, name) then obj else MaskedAddr(obj),
            if PrintsValue(name, obj) then VisiblePayload(payload) else MaskedPayload(payload))
    case Array(typ, childType, name, addr, elems) =>
      Array(typ, childType, name, addr,
            if IsEmptyArray(addr, elems) then MaskedElements(elems) else VisibleElements(childType, elems))
    case PNext(chain) => PNext(VisibleChain(chain))
    case _ => it
  }

  function VisiblePayload(p: Payload): Payload
    decreases p, 2
  {
    match p
    case Struct(ms) => Struct(VisibleItems(ms))
    case Union(cs) => Union(VisibleItems(cs))
    case _ => p
  }

  function VisibleItems(items: seq<Item>): (ms: seq<Item>)
    ensures |ms| == |items|
    decreases items, 1
  {
    seq(|items|, i requires 0 <= i < |items| => Visible(items[i]))
  }

  function VisibleElements(childType: string, elems: seq<Element>): (ms: seq<Element>)
    ensures |ms| == |elems|
    decreases elems, 1
  {
    seq(|elems|, i requires 0 <= i < |elems| =>
      Element(if PrintsAddress(childType, ElementName(i)) then elems[i].addr else "", VisiblePayload(elems[i].payload)))
  }

  function VisibleChain(c: Chain): Chain
    decreases c, 2
  {
    match c
    case Known(typ, addr, payload) => Known(typ, addr, VisiblePayload(payload))
    case LoaderNext(next) => LoaderNext(VisibleChain(next))
    case _ => c
  }

  /** The value of an item has its visible addresses only. */
  lemma {:induction false} ItemShows(st: Settings, it: Item)
    requires !it.Unprinted?
    ensures !Visible(it).Unprinted? && ItemJs(st, it) == ItemJs(st, Visible(it))
    decreases it, 4
  {
    match it
    case Value(typ, name, obj, payload) =>
      PayloadShows(st, payload);
    case Array(typ, childType, name, addr, elems) =>
      ElementsShow(st, childType, elems);
    case PNext(chain) => ChainShows(st, chain);
    case _ =>
  }

  lemma {:induction false} PayloadShows(st: Settings, p: Payload)
    ensures PayloadJs(st, p) == PayloadJs(st, VisiblePayload(p))
    decreases p, 3
  {
    match p
    case Struct(ms) => ItemsShow(st, ms);
    case Union(cs) => ItemsShow(st, cs);
    case _ =>
  }

  lemma {:induction false} ItemsShow(st: Settings, items: seq<Item>)
    ensures ItemsJs(st, items) == ItemsJs(st, VisibleItems(items))
    decreases items, 2
  {
    if items != [] {
      assert VisibleItems(items)[1..] == VisibleItems(items[1..]);
      ItemsShow(st, items[1..]);
      if !items[0].Unprinted? {
        ItemShows(st, items[0]);
      }
    }
  }

  lemma {:induction false} ElementsShow(st: Settings, childType: string, elems: seq<Element>)
    ensures ElementsJs(st, childType, elems) == ElementsJs(st, childType, VisibleElements(childType, elems))
    decreases elems, 2
  {
    forall i | 0 <= i < |elems|
      ensures ElementsJs(st, childType, elems)[i] == ElementsJs(st, childType, VisibleElements(childType, elems))[i]
    {
      PayloadShows(st, elems[i].payload);
    }
  }

  lemma {:induction false} ChainShows(st: Settings, c: Chain)
    ensures ChainJs(st, c) == ChainJs(st, VisibleChain(c))
    decreases c, 4
  {
    match c
    case Known(typ, addr, payload) => PayloadShows(st, payload);
    case LoaderNext(next) => ChainShows(st, next);
    case _ =>
  }

  lemma {:induction false} SameValue(st: Settings, typ: string, name: string, o1: Addr, p1: Payload, o2: Addr,
                                     p2: Payload)
    requires st.showAddress && MaskedAddr(o1) == MaskedAddr(o2)
    requires ValueJs(st, typ, name, o1, p1) == ValueJs(st, typ, name, o2, p2)
    ensures PrintsAddress(typ, name) ==> o1 == o2
    ensures PrintsValue(name, o1) ==> PayloadJs(st, p1) == PayloadJs(st, p2)
  {
    var key := if IsUnion(st, typ) || IsStruct(st, typ) then MEMBERS else VALUE;
    var f1, f2 := ValueFields(st, typ, name, o1), ValueFields(st, typ, name, o2);
    var l1, l2 := [Field(key, PayloadJs(st, p1))], [Field(key, PayloadJs(st, p2))];
    assert |f1| == |f2|;
    if PrintsValue(name, o1) {
      assert (f1 + l1)[|f1|] == l1[0] && (f2 + l2)[|f1|] == l2[0];
    }
    if PrintsAddress(typ, name) {
      assert f1[2] == TextField(ADDRESS, AddressName(st, o1)) && f2[2] == TextField(ADDRESS, AddressName(st, o2));
      assert ValueJs(st, typ, name, o1, p1).fields[2] == f1[2] && ValueJs(st, typ, name, o2, p2).fields[2] == f2[2];
    }
  }

  lemma {:induction false} SameItem(st: Settings, a: Item, b: Item)
    requires st.showAddress && Masked(a) == Masked(b) && !a.Unprinted? && !b.Unprinted?
    requires ItemJs(st, a) == ItemJs(st, b)
    ensures Visible(a) == Visible(b)
    decreases a, 4
  {
    match a
    case Value(typ, name, obj, payload) =>
      SameValue(st, typ, name, obj, payload, b.obj, b.payload);
      if PrintsValue(name, obj) {
        SamePayload(st, payload, b.payload);
      }
    case Array(typ, childType, name, addr, elems) => SameArray(st, a, b);
    case Special(typ, name, text, place) =>
      var f := ArrayFields(st, typ, name, At(place)) + [TextField(VALUE, text)];
      var g := ArrayFields(st, typ, name, At(b.place)) + [TextField(VALUE, text)];
      assert f[2] == TextField(ADDRESS, place) && g[2] == TextField(ADDRESS, b.place);
    case PNext(chain) => SameChain(st, chain, b.chain);
    case _ =>
  }

  lemma {:induction false} SameArray(st: Settings, a: Item, b: Item)
    requires st.showAddress && a.Array? && Masked(a) == Masked(b) && ItemJs(st, a) == ItemJs(st, b)
    ensures Visible(a) == Visible(b)
    decreases a, 3
  {
    var f, g := ArrayFields(st, a.typ, a.name, a.addr), ArrayFields(st, b.typ, b.name, b.addr);
    var e1, e2 := ElementsJs(st, a.childType, a.elems), ElementsJs(st, b.childType, b.elems);
    assert |MaskedElements(a.elems)| == |MaskedElements(b.elems)|;
    if IsEmptyArray(a.addr, a.elems) {
      assert f[2] == g[2];
    } else {
      var l1, l2 := [Field(ELEMENTS, Arr(e1))], [Field(ELEMENTS, Arr(e2))];
      assert f[2] == (f + l1)[2] == (g + l2)[2] == g[2];
      assert l1[0] == (f + l1)[3] == (g + l2)[3] == l2[0];
      SameElements(st, a.childType, a.elems, b.elems);
    }
  }

  lemma {:induction false} SameElements(st: Settings, childType: string, a: seq<Element>, b: seq<Element>)
    requires st.showAddress && MaskedElements(a) == MaskedElements(b)
    requires ElementsJs(st, childType, a) == ElementsJs(st, childType, b)
    ensures VisibleElements(childType, a) == VisibleElements(childType, b)
    decreases a, 2
  {
    assert |MaskedElements(a)| == |a| && |MaskedElements(b)| == |b|;
    forall i | 0 <= i < |a| ensures VisibleElements(childType, a)[i] == VisibleElements(childType, b)[i] {
      assert MaskedElements(a)[i] == MaskedElements(b)[i];
      assert ElementsJs(st, childType, a)[i] == ElementsJs(st, childType, b)[i];
      SameValue(st, childType, ElementName(i), At(a[i].addr), a[i].payload, At(b[i].addr), b[i].payload);
      SamePayload(st, a[i].payload, b[i].payload);
    }
  }

  lemma {:induction false} SamePayload(st: Settings, p: Payload, q: Payload)
    requires st.showAddress && MaskedPayload(p) == MaskedPayload(q) && PayloadJs(st, p) == PayloadJs(st, q)
    ensures VisiblePayload(p) == VisiblePayload(q)
    decreases p, 3
  {
    match p
    case Struct(ms) => SameItems(st, ms, q.members);
    case Union(cs) => SameItems(st, cs, q.choices);
    case _ =>
  }

  lemma {:induction false} ItemsJsFirst(st: Settings, items: seq<Item>)
    requires items != []
    ensures var js := ItemsJs(st, items);
            if items[0].Unprinted? then js == ItemsJs(st, items[1..])
            else js != [] && js[0] == ItemJs(st, items[0]) && js[1..] == ItemsJs(st, items[1..])
  {
    assert [] + ItemsJs(st, items[1..]) == ItemsJs(st, items[1..]);
  }

  lemma {:induction false} SameItems(st: Settings, a: seq<Item>, b: seq<Item>)
    requires st.showAddress && MaskedItems(a) == MaskedItems(b) && ItemsJs(st, a) == ItemsJs(st, b)
    ensures VisibleItems(a) == VisibleItems(b)
    decreases a, 2
  {
    assert |MaskedItems(a)| == |a| && |MaskedItems(b)| == |b|;
    if a != [] {
      assert MaskedItems(a)[0] == MaskedItems(b)[0];
      assert MaskedItems(a)[1..] == MaskedItems(a[1..]) && MaskedItems(b)[1..] == MaskedItems(b[1..]);
      ItemsJsFirst(st, a);
      ItemsJsFirst(st, b);
      if !a[0].Unprinted? {
        SameItem(st, a[0], b[0]);
      }
      SameItems(st, a[1..], b[1..]);
      assert VisibleItems(a) == [Visible(a[0])] + VisibleItems(a[1..]);
      assert VisibleItems(b) == [Visible(b[0])] + VisibleItems(b[1..]);
    }
  }

  lemma {:induction false} SameChain(st: Settings, c: Chain, d: Chain)
    requires st.showAddress && MaskedChain(c) == MaskedChain(d) && ChainJs(st, c) == ChainJs(st, d)
    ensures VisibleChain(c) == VisibleChain(d)
    decreases c, 4
  {
    match c
    case Known(typ, addr, payload) =>
      SameValue(st, typ, PNEXT, At(addr), payload, At(d.addr), d.payload);
      SamePayload(st, payload, d.payload);
    case LoaderNext(next) => SameChain(st, next, d.next);
    case _ =>
  }

  /** Of two items that differ in addresses only, the printed values differ exactly if a printed address does. */
  lemma {:induction false} ShownAddresses(st: Settings, a: Item, b: Item)
    requires st.showAddress && Masked(a) == Masked(b) && !a.Unprinted? && !b.Unprinted?
    ensures ItemJs(st, a) == ItemJs(st, b) <==> Visible(a) == Visible(b)
  {
    if Visible(a) == Visible(b) {
      ItemShows(st, a);
      ItemShows(st, b);
    }
    if ItemJs(st, a) == ItemJs(st, b) {
      SameItem(st, a, b);
    }
  }
}
