/**
 The text of a run for all strings, also those that would need escaping. `ItemExact`, `CallExact` and `FrameExact`
 say of every text that it either lexes to its value or differs from it in every context, and when;
 `RunDecodesIff` says for which runs the text decodes to the array of frames that were asked for.
 */
module ApiDumpExact {
  import opened Options
  import opened Json
  import opened JsonText
  import opened Numerals
  import opened ApiDumpValues
  import opened ApiDumpRun
  import opened ApiDumpJson

  // ---------- Items ----------

  /** An object of string members and one more, with a plain key. */
  lemma {:induction false} LexesLast(ind: string, inner: string, ls: seq<Line>, fs: seq<Field>, last: Line,
                                     v: Json.Value, good: bool)
    requires AllWs(ind) && AllWs(inner) && AllWs(last.gap) && TextLines(ls, fs) && Plain(last.key)
    requires LexesIff(last.body + Closing(ind), Print(v) + [RBrace], good && PlainValue(v))
    ensures var obj := Obj(fs + [Field(last.key, v)]);
            LexesIff(ObjectText(ind, inner, ls + [last]), Print(obj), good && PlainValue(obj))
  {
    LexesObject(ind, inner, ls, fs, last, v, good && PlainValue(v));
    PlainSnoc(fs, last.key, v);
  }

  lemma {:induction false} PlainSnoc(fs: seq<Field>, key: string, v: Json.Value)
    ensures PlainValue(Obj(fs + [Field(key, v)])) <==> PlainFields(fs) && Plain(key) && PlainValue(v)
  {
    var all := fs + [Field(key, v)];
    assert all[|fs|] == Field(key, v);
    if PlainFields(all) {
      assert PlainField(all[|fs|]);
      forall i | 0 <= i < |fs|
        ensures PlainField(fs[i])
      {
        assert all[i] == fs[i];
      }
    }
    assert PlainField(Field(key, v)) <==> Plain(key) && PlainValue(v);
  }

  lemma {:induction false} FlatExact(st: Settings, ls: seq<Line>, fs: seq<Field>, n: nat)
    requires TextLines(ls, fs)
    ensures LexesIff(FlatText(st, ls, n), Print(Obj(fs)), PlainValue(Obj(fs)))
  {
    LexesFlat(Indentation(st, n), Indentation(st, n + 1), ls, fs);
  }

  /** A text without tokens of its own makes every text around it differ. */
  lemma {:induction false} IllegalDiverges(s: string, more: string, ts: seq<Token>)
    requires Lex(s).Illegal?
    ensures Diverges(s + more, ts)
  {
    forall rest, tail
      ensures Lex(s + more + rest) != Toks(ts + tail)
    {
      LexAppend(s, more + rest);
      assert s + more + rest == s + (more + rest);
    }
  }

  lemma {:induction false} UnknownIllegal(sType: nat)
    ensures Lex(UnknownBody(sType)).Illegal?
  {
    KeysPlain();
    LexQuote(UNKNOWN);
    var tail := Decimal(sType) + "\")";
    assert IsDigit(tail[0]);
    LexAppend(Quote(UNKNOWN), tail);
  }

  /** A member where a value should be: a colon meets the closing brace. */
  lemma {:induction false} MemberDiverges(ind: string, t: string, more: string)
    requires AllWs(ind)
    ensures Diverges(LineText(ind, TextLine(VALUE, t)) + more, [Text(t)] + [RBrace])
  {
    var l := TextLine(VALUE, t);
    var key := ind + (Quote(VALUE) + (" :" + " "));
    KeysPlain();
    LexKey(ind, l);
    forall rest, tail
      ensures Lex(LineText(ind, l) + more + rest) != Toks([Text(t)] + [RBrace] + tail)
    {
      assert LineText(ind, l) + more + rest == key + (Quote(t) + more + rest);
      LexAppend(key, Quote(t) + more + rest);
      assert ([Text(t)] + [RBrace] + tail)[1] == RBrace;
      if Lex(Quote(t) + more + rest).Toks? {
        assert ([Text(VALUE), Colon] + Lex(Quote(t) + more + rest).toks)[1] == Colon;
      }
    }
  }

  lemma {:induction false} ValueExact(st: Settings, typ: string, name: string, obj: Addr, payload: Payload, n: nat)
    ensures LexesIff(ValueText(st, typ, name, obj, payload, n), Print(ValueJs(st, typ, name, obj, payload)),
                     (PrintsValue(name, obj) ==> GoodPayload(payload))
                      && PlainValue(ValueJs(st, typ, name, obj, payload)))
    decreases payload, 5
  {
    if PrintsValue(name, obj) {
      PrintedExact(st, typ, name, obj, payload, n);
    } else {
      var ls, fs := ValueHead(st, typ, name, obj), ValueFields(st, typ, name, obj);
      assert ls + [] == ls && fs + [] == fs;
      FlatExact(st, ls, fs, n);
    }
  }

  lemma {:induction false} ValueHeadLines(st: Settings, typ: string, name: string, obj: Addr)
    ensures TextLines(ValueHead(st, typ, name, obj), ValueFields(st, typ, name, obj))
  {
    KeysPlain();
  }

  lemma {:induction false} PrintedExact(st: Settings, typ: string, name: string, obj: Addr, payload: Payload, n: nat)
    requires PrintsValue(name, obj)
    ensures LexesIff(ValueText(st, typ, name, obj, payload, n), Print(ValueJs(st, typ, name, obj, payload)),
                     GoodPayload(payload) && PlainValue(ValueJs(st, typ, name, obj, payload)))
    decreases payload, 4, 1
  {
    var l := ValueLine(st, typ, PayloadText(st, payload, n + 1));
    PayloadClosing(st, payload, n + 1, Indentation(st, n));
    ValueLinePlain(st, typ, PayloadText(st, payload, n + 1));
    ValueHeadLines(st, typ, name, obj);
    LexesLast(Indentation(st, n), Indentation(st, n + 1), ValueHead(st, typ, name, obj),
              ValueFields(st, typ, name, obj), l, PayloadJs(st, payload), GoodPayload(payload));
  }

  lemma {:induction false} PayloadClosing(st: Settings, p: Payload, n: nat, ind: string)
    requires AllWs(ind)
    ensures LexesIff(PayloadText(st, p, n) + Closing(ind), Print(PayloadJs(st, p)) + [RBrace],
                     GoodPayload(p) && PlainValue(PayloadJs(st, p)))
    decreases p, 4, 0
  {
    if p.IntScalar? {
      MemberDiverges(Indentation(st, n), p.text, Closing(ind));
    } else {
      PayloadExact(st, p, n);
      LexesClose(ind);
      LexesCat(PayloadText(st, p, n), Print(PayloadJs(st, p)), GoodPayload(p) && PlainValue(PayloadJs(st, p)),
               Closing(ind), [RBrace], true);
    }
  }

  lemma {:induction false} PayloadExact(st: Settings, p: Payload, n: nat)
    requires !p.IntScalar?
    ensures LexesIff(PayloadText(st, p, n), Print(PayloadJs(st, p)), GoodPayload(p) && PlainValue(PayloadJs(st, p)))
    decreases p, 3
  {
    match p
    case Scalar(t) => LexesQuote(t);
    case Void(a) =>
      var t := AddressName(st, a);
      LexesQuote(t);
      LexWs("\n");
      LexesCat(Quote(t), [Text(t)], Plain(t), "\n", [], true);
      assert [Text(t)] + [] == [Text(t)];
    case Struct(ms) => MembersExact(st, ms, n, n + 1);
    case Union(cs) => MembersExact(st, cs, n, n + 2);
    case IntScalar(_) =>
  }

  /** Whether an item is printed as JSON and holds no string that needs escaping. */
  predicate ItemOk(st: Settings, it: Item)
    requires !it.Unprinted?
  {
    GoodItem(it) && PlainValue(ItemJs(st, it))
  }

  predicate AllPrinted(items: seq<Item>) {
    forall i :: 0 <= i < |items| ==> !items[i].Unprinted?
  }

  function ItemOks(st: Settings, items: seq<Item>): (oks: seq<bool>)
    requires AllPrinted(items)
    ensures |oks| == |items|
  {
    seq(|items|, i requires 0 <= i < |items| => ItemOk(st, items[i]))
  }

  /** A list of members or parameters: exact unless an item that prints nothing has neighbours. */
  lemma {:induction false} MembersExact(st: Settings, items: seq<Item>, n: nat, deeper: nat)
    ensures LexesIff(ListText(Indentation(st, n), ItemTexts(st, items, deeper)), Print(Arr(ItemsJs(st, items))),
                     GoodItems(items) && PlainValue(Arr(ItemsJs(st, items))))
    decreases items, 2
  {
    if AllPrinted(items) {
      ItemsExact(st, items, deeper);
      LexesList(Indentation(st, n), ItemTexts(st, items, deeper), ItemsJs(st, items), ItemOks(st, items));
      ItemsOk(st, items);
    } else if |items| == 1 {
      LoneItem(st, items, n, deeper);
    } else {
      var k := FirstGap(items);
      ItemsExact(st, items[..k], deeper);
      GapListDiverges(st, items, n, deeper, k);
    }
  }

  lemma {:induction false} FirstGap(items: seq<Item>) returns (k: nat)
    requires !AllPrinted(items)
    ensures k < |items| && items[k].Unprinted? && AllPrinted(items[..k])
  {
    k := 0;
    while !items[k].Unprinted?
      invariant k < |items| && AllPrinted(items[..k])
      invariant exists i :: k <= i < |items| && items[i].Unprinted?
      decreases |items| - k
    {
      assert items[..k + 1] == items[..k] + [items[k]];
      k := k + 1;
    }
  }

  lemma {:induction false} GapListDiverges(st: Settings, items: seq<Item>, n: nat, deeper: nat, k: nat)
    requires k < |items| && |items| > 1 && items[k].Unprinted? && AllPrinted(items[..k])
    requires LexesAll(ItemTexts(st, items[..k], deeper), ItemsJs(st, items[..k]), ItemOks(st, items[..k]))
    ensures Diverges(ListText(Indentation(st, n), ItemTexts(st, items, deeper)), Print(Arr(ItemsJs(st, items))))
  {
    var pre, post := items[..k], items[k + 1..];
    TextsAround(st, items, deeper, k);
    GapDiverges(Indentation(st, n), ItemTexts(st, pre, deeper), ItemTexts(st, post, deeper), ItemsJs(st, pre),
                ItemOks(st, pre), ItemsJs(st, post));
    JsAround(st, items, k);
  }

  lemma {:induction false} JsAround(st: Settings, items: seq<Item>, k: nat)
    requires k < |items| && items[k].Unprinted?
    ensures ItemsJs(st, items) == ItemsJs(st, items[..k]) + ItemsJs(st, items[k + 1..])
  {
    assert items == items[..k] + items[k..];
    assert items[k..][1..] == items[k + 1..];
    ItemsJsCat(st, items[..k], items[k..]);
    assert ItemsJs(st, items[k..]) == [] + ItemsJs(st, items[k + 1..]);
  }

  lemma {:induction false} ItemsOk(st: Settings, items: seq<Item>)
    requires AllPrinted(items)
    ensures All(ItemOks(st, items)) <==> GoodItems(items) && PlainValue(Arr(ItemsJs(st, items)))
  {
    var vs, oks := ItemsJs(st, items), ItemOks(st, items);
    ItemsJsAt(st, items);
    if All(oks) {
      forall i | 0 <= i < |items|
        ensures GoodItem(items[i]) && PlainValue(vs[i])
      {
        assert oks[i];
      }
    }
    if GoodItems(items) && PlainValue(Arr(vs)) {
      forall i | 0 <= i < |items|
        ensures oks[i]
      {
        assert GoodItem(items[i]) && PlainValue(vs[i]);
      }
    }
  }

  lemma {:induction false} ItemsExact(st: Settings, items: seq<Item>, n: nat)
    requires AllPrinted(items)
    ensures LexesAll(ItemTexts(st, items, n), ItemsJs(st, items), ItemOks(st, items))
    decreases items, 1
  {
    ItemsJsAt(st, items);
    forall i | 0 <= i < |items|
      ensures LexesIff(ItemTexts(st, items, n)[i], Print(ItemsJs(st, items)[i]), ItemOks(st, items)[i])
    {
      ItemExact(st, items[i], n);
    }
  }

  predicate ElementOk(st: Settings, childType: string, e: Element, i: nat) {
    GoodPayload(e.payload) && PlainValue(ValueJs(st, childType, ElementName(i), At(e.addr), e.payload))
  }

  lemma {:induction false} ElementsExact(st: Settings, childType: string, elems: seq<Element>, n: nat)
    ensures forall i :: 0 <= i < |elems| ==>
              LexesIff(ElementTexts(st, childType, elems, n)[i], Print(ElementsJs(st, childType, elems)[i]),
                       ElementOk(st, childType, elems[i], i))
    decreases elems, 1
  {
    forall i | 0 <= i < |elems|
      ensures LexesIff(ElementTexts(st, childType, elems, n)[i], Print(ElementsJs(st, childType, elems)[i]),
                       ElementOk(st, childType, elems[i], i))
    {
      ElementNamePlain(i);
      ValueExact(st, childType, ElementName(i), At(elems[i].addr), elems[i].payload, n);
    }
  }

  lemma {:induction false} ElementsOk(st: Settings, childType: string, elems: seq<Element>, oks: seq<bool>)
    requires |oks| == |elems| && forall i :: 0 <= i < |elems| ==> oks[i] == ElementOk(st, childType, elems[i], i)
    ensures All(oks) <==> (forall i :: 0 <= i < |elems| ==> GoodPayload(elems[i].payload))
                          && PlainValue(Arr(ElementsJs(st, childType, elems)))
  {
    var vs := ElementsJs(st, childType, elems);
    assert forall i :: 0 <= i < |elems| ==>
      vs[i] == ValueJs(st, childType, ElementName(i), At(elems[i].addr), elems[i].payload);
    if All(oks) {
      assert forall i :: 0 <= i < |elems| ==> oks[i];
    }
  }

  lemma {:induction false} ArrayExact(st: Settings, it: Item, n: nat)
    requires it.Array? && !IsEmptyArray(it.addr, it.elems)
    ensures LexesIff(ItemText(st, it, n), Print(ItemJs(st, it)), ItemOk(st, it))
    decreases it, 3
  {
    var Array(typ, childType, name, addr, elems) := it;
    var ind, inner := Indentation(st, n), Indentation(st, n + 1);
    var l := Line(ELEMENTS, "\n", ListText(inner, ElementTexts(st, childType, elems, n + 2)));
    var fs, v := ArrayFields(st, typ, name, addr), Arr(ElementsJs(st, childType, elems));
    ArrayClosing(st, it, n);
    KeysPlain();
    LexesLast(ind, inner, ArrayHead(st, typ, name, addr), fs, l, v, GoodItem(it));
  }

  lemma {:induction false} ArrayClosing(st: Settings, it: Item, n: nat)
    requires it.Array? && !IsEmptyArray(it.addr, it.elems)
    ensures var v := Arr(ElementsJs(st, it.childType, it.elems));
            LexesIff(ListText(Indentation(st, n + 1), ElementTexts(st, it.childType, it.elems, n + 2))
                     + Closing(Indentation(st, n)), Print(v) + [RBrace], GoodItem(it) && PlainValue(v))
    decreases it, 2
  {
    var v, ind, inner := Arr(ElementsJs(st, it.childType, it.elems)), Indentation(st, n), Indentation(st, n + 1);
    ElementListExact(st, it.childType, it.elems, inner, n + 2);
    LexesClose(ind);
    LexesCat(ListText(inner, ElementTexts(st, it.childType, it.elems, n + 2)), Print(v), GoodItem(it) && PlainValue(v),
             Closing(ind), [RBrace], true);
  }

  lemma {:induction false} ElementListExact(st: Settings, childType: string, elems: seq<Element>, ind: string, n: nat)
    requires AllWs(ind)
    ensures LexesIff(ListText(ind, ElementTexts(st, childType, elems, n)), Print(Arr(ElementsJs(st, childType, elems))),
                     (forall i :: 0 <= i < |elems| ==> GoodPayload(elems[i].payload))
                     && PlainValue(Arr(ElementsJs(st, childType, elems))))
    decreases elems, 2
  {
    var oks := seq(|elems|, i requires 0 <= i < |elems| => ElementOk(st, childType, elems[i], i));
    ElementsExact(st, childType, elems, n);
    ElementsOk(st, childType, elems, oks);
    LexesList(ind, ElementTexts(st, childType, elems, n), ElementsJs(st, childType, elems), oks);
  }

  /** Every item: its text lexes to its value exactly if it is printed as JSON and needs no escaping. */
  lemma {:induction false} ItemExact(st: Settings, it: Item, n: nat)
    requires !it.Unprinted?
    ensures LexesIff(ItemText(st, it, n), Print(ItemJs(st, it)), ItemOk(st, it))
    decreases it, 6
  {
    match it
    case Value(typ, name, obj, payload) => ValueExact(st, typ, name, obj, payload, n);
    case NullPointer(typ, name) => FlatExact(st, ArrayHead(st, typ, name, Null), ArrayFields(st, typ, name, Null), n);
    case Array(typ, childType, name, addr, elems) =>
      if IsEmptyArray(addr, elems) {
        FlatExact(st, ArrayHead(st, typ, name, addr), ArrayFields(st, typ, name, addr), n);
      } else {
        ArrayExact(st, it, n);
      }
    case Special(typ, name, text, addr) =>
      FlatExact(st, ArrayHead(st, typ, name, At(addr)) + [TextLine(VALUE, text)],
                ArrayFields(st, typ, name, At(addr)) + [TextField(VALUE, text)], n);
    case Unused(typ, name) => FlatExact(st, UnusedLines(typ, name), UnusedFields(typ, name), n);
    case PNext(chain) => ChainExact(st, chain, n);
  }

  lemma {:induction false} ChainExact(st: Settings, c: Chain, n: nat)
    ensures LexesIff(ChainText(st, c, n), Print(ChainJs(st, c)), GoodChain(c) && PlainValue(ChainJs(st, c)))
    decreases c, 6
  {
    match c
    case Known(typ, addr, payload) => ValueExact(st, typ, PNEXT, At(addr), payload, n);
    case LoaderEnd =>
      FlatExact(st, ChainLines() + [TextLine(VALUE, NULL_TEXT)], ChainFields() + [TextField(VALUE, NULL_TEXT)], n);
    case LoaderNext(next) => ChainExact(st, next, n);
    case Unknown(sType) =>
      var l := Line(VALUE, " ", UnknownBody(sType));
      UnknownIllegal(sType);
      IllegalDiverges(l.body, Closing(Indentation(st, n)), Print(Str("")) + [RBrace]);
      LexesObject(Indentation(st, n), Indentation(st, n + 1), ChainLines(), ChainFields(), l, Str(""), false);
  }

  // ---------- Calls ----------

  predicate CallOk(st: Settings, c: Call) {
    GoodCall(st, c) && PlainValue(CallJs(st, c))
  }

  lemma {:induction false} HeadTextLines(st: Settings, c: Call)
    ensures TextLines(HeadLines(st, c), HeadFields(st, c))
    ensures TextLines(HeadLines(st, c) + ResultLines(c), HeadFields(st, c) + ResultFields(c))
  {
  }

  lemma {:induction false} CallExact(st: Settings, c: Call)
    ensures LexesIff(CallText(st, c), Print(CallJs(st, c)), CallOk(st, c))
  {
    HeadTextLines(st, c);
    if c.result.Some? || st.showParams {
      CallIsObject(st, c);
      var ls, fs := HeadLines(st, c) + ResultLines(c), HeadFields(st, c) + ResultFields(c);
      if st.showParams {
        ArgsExact(st, c, ls, fs);
      } else {
        assert ls + [] == ls && fs + [] == fs;
        LexesFlat(Indentation(st, 2), Indentation(st, 3), ls, fs);
      }
    } else {
      HeadOnlyDiverges(st, c);
    }
  }

  lemma {:induction false} ArgsExact(st: Settings, c: Call, ls: seq<Line>, fs: seq<Field>)
    requires st.showParams && TextLines(ls, fs)
    ensures LexesIff(ObjectText(Indentation(st, 2), Indentation(st, 3), ls + [ArgsLine(st, c)]),
                     Print(Obj(fs + [Field(ARGS, Arr(ItemsJs(st, c.args)))])),
                     GoodCall(st, c) && PlainValue(Obj(fs + [Field(ARGS, Arr(ItemsJs(st, c.args)))])))
  {
    var l, v := ArgsLine(st, c), Arr(ItemsJs(st, c.args));
    var ok := GoodCall(st, c) && PlainValue(v);
    MembersExact(st, c.args, 3, 4);
    LexesClose(Indentation(st, 2));
    LexesCat(l.body, Print(v), ok, Closing(Indentation(st, 2)), [RBrace], true);
    LexesObject(Indentation(st, 2), Indentation(st, 3), ls, fs, l, v, ok);
    PlainSnoc(fs, ARGS, v);
    RunKeysPlain();
  }

  /** A comma where the closing brace should be. */
  lemma {:induction false} CommaDiverges(more: string)
    ensures Diverges(COMMA_LINE + more, [RBrace])
  {
    LexCommaLine();
    forall rest, tail
      ensures Lex(COMMA_LINE + more + rest) != Toks([RBrace] + tail)
    {
      assert COMMA_LINE + more + rest == COMMA_LINE + (more + rest);
      LexAppend(COMMA_LINE, more + rest);
      assert ([RBrace] + tail)[0] == RBrace;
      if Lex(more + rest).Toks? {
        assert ([Comma] + Lex(more + rest).toks)[0] == Comma;
      }
    }
  }

  lemma {:induction false} HeadOnlyDiverges(st: Settings, c: Call)
    requires c.result.None? && !st.showParams
    ensures Diverges(CallText(st, c), Print(CallJs(st, c)))
  {
    var i2, i3 := Indentation(st, 2), Indentation(st, 3);
    var ls, fs := HeadLines(st, c), HeadFields(st, c);
    HeadTextLines(st, c);
    LexesOpen(i2);
    LexesTextLines(i3, ls, fs);
    CommaDiverges(i2 + "}");
    var lines := Join(Lines(i3, ls));
    LexesCat(i2 + OPEN_OBJECT, [LBrace], true, lines, PrintFields(fs), PlainFields(fs));
    LexesCat(i2 + OPEN_OBJECT + lines, [LBrace] + PrintFields(fs), PlainFields(fs),
             COMMA_LINE + (i2 + "}"), [RBrace], false);
    assert fs + [] + [] == fs;
    HeadOnlyText(i2, lines);
  }

  lemma {:induction false} HeadOnlyText(ind: string, lines: string)
    ensures ind + (OPEN_OBJECT + (lines + COMMA_LINE)) + ("" + "" + (ind + "}"))
         == ind + OPEN_OBJECT + lines + (COMMA_LINE + (ind + "}"))
  {
  }

  // ---------- Frames ----------

  predicate FrameOk(st: Settings, k: nat, cs: seq<Call>) {
    GoodCalls(st, cs) && PlainValue(FrameJs(st, k, cs))
  }

  lemma {:induction false} CallsOk(st: Settings, cs: seq<Call>, oks: seq<bool>)
    requires |oks| == |cs| && forall i :: 0 <= i < |cs| ==> oks[i] == CallOk(st, cs[i])
    ensures All(oks) <==> GoodCalls(st, cs) && PlainValue(Arr(CallsJs(st, cs)))
  {
    var vs := CallsJs(st, cs);
    assert forall i :: 0 <= i < |cs| ==> vs[i] == CallJs(st, cs[i]);
    if All(oks) {
      assert forall i :: 0 <= i < |cs| ==> oks[i];
    }
  }

  lemma {:induction false} CallsExact(st: Settings, cs: seq<Call>)
    ensures LexesIff(ListText(Indentation(st, 1), CallTexts(st, cs)), Print(Arr(CallsJs(st, cs))),
                     GoodCalls(st, cs) && PlainValue(Arr(CallsJs(st, cs))))
  {
    var oks := seq(|cs|, i requires 0 <= i < |cs| => CallOk(st, cs[i]));
    forall i | 0 <= i < |cs|
      ensures LexesIff(CallTexts(st, cs)[i], Print(CallsJs(st, cs)[i]), oks[i])
    {
      CallExact(st, cs[i]);
    }
    LexesList(Indentation(st, 1), CallTexts(st, cs), CallsJs(st, cs), oks);
    CallsOk(st, cs, oks);
  }

  lemma {:induction false} FrameExact(st: Settings, k: nat, cs: seq<Call>)
    ensures LexesIff(FrameText(st, k, cs), Print(FrameJs(st, k, cs)), FrameOk(st, k, cs))
  {
    var i1, v := Indentation(st, 1), Arr(CallsJs(st, cs));
    var last, fs := Line(API_CALLS, "\n", ListText(i1, CallTexts(st, cs))), FrameFields(st, k);
    CallsClosing(st, cs);
    RunKeysPlain();
    LexesLast("", i1, FrameLines(st, k), fs, last, v, GoodCalls(st, cs));
  }

  lemma {:induction false} CallsClosing(st: Settings, cs: seq<Call>)
    ensures LexesIff(ListText(Indentation(st, 1), CallTexts(st, cs)) + Closing(""),
                     Print(Arr(CallsJs(st, cs))) + [RBrace],
                     GoodCalls(st, cs) && PlainValue(Arr(CallsJs(st, cs))))
  {
    var v := Arr(CallsJs(st, cs));
    CallsExact(st, cs);
    LexesClose("");
    LexesCat(ListText(Indentation(st, 1), CallTexts(st, cs)), Print(v), GoodCalls(st, cs) && PlainValue(v), Closing(""),
             [RBrace], true);
  }

  /** The frames in range below `n` are printed as JSON and hold no string that needs escaping. */
  predicate FramesOk(cfg: Config, h: seq<seq<Call>>, n: nat)
    requires n <= |h|
  {
    forall k :: 0 <= k < n && cfg.inRange(k) ==> FrameOk(cfg.st, k, h[k])
  }

  /** Whether each of them is. */
  function FrameOks(cfg: Config, h: seq<seq<Call>>, n: nat): seq<bool>
    requires n <= |h|
  {
    if n == 0 then []
    else FrameOks(cfg, h, n - 1) + if cfg.inRange(n - 1) then [FrameOk(cfg.st, n - 1, h[n - 1])] else []
  }

  lemma {:induction false} FramesExact(cfg: Config, h: seq<seq<Call>>, n: nat)
    requires n <= |h|
    ensures LexesAll(FrameTexts(cfg, h, n), FramesJs(cfg, h, n), FrameOks(cfg, h, n))
    decreases n
  {
    if n > 0 {
      FramesExact(cfg, h, n - 1);
      if cfg.inRange(n - 1) {
        FrameExact(cfg.st, n - 1, h[n - 1]);
      }
      LexesAllCat(FrameTexts(cfg, h, n - 1), FramesJs(cfg, h, n - 1), FrameOks(cfg, h, n - 1),
                  if cfg.inRange(n - 1) then [FrameText(cfg.st, n - 1, h[n - 1])] else [],
                  if cfg.inRange(n - 1) then [FrameJs(cfg.st, n - 1, h[n - 1])] else [],
                  if cfg.inRange(n - 1) then [FrameOk(cfg.st, n - 1, h[n - 1])] else []);
    }
  }

  lemma {:induction false} LexesAllCat(xs: seq<string>, vs: seq<Json.Value>, oks: seq<bool>, xs': seq<string>,
                                       vs': seq<Json.Value>, oks': seq<bool>)
    requires LexesAll(xs, vs, oks) && LexesAll(xs', vs', oks')
    ensures LexesAll(xs + xs', vs + vs', oks + oks')
  {
  }

  lemma {:induction false} FrameOksAll(cfg: Config, h: seq<seq<Call>>, n: nat)
    requires n <= |h|
    ensures All(FrameOks(cfg, h, n)) <==> FramesOk(cfg, h, n)
    decreases n
  {
    if n > 0 {
      FrameOksAll(cfg, h, n - 1);
      FramesOkNext(cfg, h, n);
      AllWith(FrameOks(cfg, h, n - 1), cfg.inRange(n - 1), FrameOk(cfg.st, n - 1, h[n - 1]));
    }
  }

  lemma {:induction false} AllWith(oks: seq<bool>, counts: bool, ok: bool)
    ensures All(oks + if counts then [ok] else []) <==> All(oks) && (counts ==> ok)
  {
    var all := oks + if counts then [ok] else [];
    assert forall i :: 0 <= i < |oks| ==> oks[i] == all[i];
    assert counts ==> all[|oks|] == ok;
  }

  lemma {:induction false} FramesOkNext(cfg: Config, h: seq<seq<Call>>, n: nat)
    requires 0 < n <= |h|
    ensures FramesOk(cfg, h, n)
       <==> FramesOk(cfg, h, n - 1) && (cfg.inRange(n - 1) ==> FrameOk(cfg.st, n - 1, h[n - 1]))
  {
  }

  // ---------- Runs ----------

  lemma {:induction false} WellEndedExact(cfg: Config, h: History)
    requires EndsWell(cfg, h)
    ensures Decode(RunText(cfg, h)) == Some(Arr(FramesJs(cfg, h, |h|))) <==> FramesOk(cfg, h, |h|)
  {
    var v, text := Arr(FramesJs(cfg, h, |h|)), ListText("", FrameTexts(cfg, h, |h|));
    var oks := FrameOks(cfg, h, |h|);
    FramesExact(cfg, h, |h|);
    FrameOksAll(cfg, h, |h|);
    WellEndedText(cfg, h);
    LexesList("", FrameTexts(cfg, h, |h|), FramesJs(cfg, h, |h|), oks);
    LexWs("\n");
    LexesCat(text, Print(v), All(oks), "\n", [], true);
    assert Print(v) + [] == Print(v);
    ExactDecodes(text + "\n", v, All(oks));
  }

  lemma {:induction false} ExactDecodes(s: string, v: Json.Value, ok: bool)
    requires LexesIff(s, Print(v), ok)
    ensures Decode(s) == Some(v) <==> ok
  {
    DecodeIff(s, v);
    if !ok {
      assert s + "" == s && Print(v) + [] == Print(v);
      assert Lex(s + "") != Toks(Print(v) + []);
    }
  }

  /** A run whose last frame stays open: finished frames that differ still differ, others leave a brace open. */
  lemma {:induction false} UnfinishedExact(cfg: Config, h: History)
    requires !EndsWell(cfg, h) && cfg.inRange(|h| - 1)
    ensures Decode(RunText(cfg, h)) != Some(Arr(FramesJs(cfg, h, |h|)))
  {
    var n: nat := |h| - 1;
    var texts, vs := FrameTexts(cfg, h, n), FramesJs(cfg, h, n);
    var oks := FrameOks(cfg, h, n);
    FramesExact(cfg, h, n);
    LexesJoin(texts, vs, oks);
    if All(oks) {
      ItemsBalanced(vs);
      OneBraceOpen(cfg, h);
    } else {
      FrontDiverges(Join(texts), OpenFrame(cfg, h) + (if FirstCall(cfg, h) then "" else CloseText(cfg.st)) + "\n]\n",
                    vs, FrameJs(cfg.st, n, h[n]), RunText(cfg, h));
    }
  }

  lemma {:induction false} ItemsBalanced(vs: seq<Json.Value>)
    ensures Braces(PrintItems(vs)) == 0
  {
    PrintBraces(Arr(vs));
    BracesCat([LBracket] + PrintItems(vs), [RBracket]);
    BracesCat([LBracket], PrintItems(vs));
  }

  lemma {:induction false} PrintItemsSnoc(vs: seq<Json.Value>, v: Json.Value)
    requires vs != []
    ensures PrintItems(vs + [v]) == PrintItems(vs) + ([Comma] + Print(v))
  {
    assert (vs + [v])[1..] == vs[1..] + [v];
    if |vs| == 1 {
      assert vs[1..] == [];
    } else {
      PrintItemsSnoc(vs[1..], v);
      assert Print(vs[0]) + [Comma] + (PrintItems(vs[1..]) + ([Comma] + Print(v)))
          == Print(vs[0]) + [Comma] + PrintItems(vs[1..]) + ([Comma] + Print(v));
    }
  }

  lemma {:induction false} ArraySnoc(vs: seq<Json.Value>, v: Json.Value)
    requires vs != []
    ensures Print(Arr(vs + [v])) == [LBracket] + PrintItems(vs) + ([Comma] + Print(v) + [RBracket])
  {
    PrintItemsSnoc(vs, v);
    TokensAssoc(PrintItems(vs), [Comma], Print(v));
  }

  lemma {:induction false} TokensAssoc(a: seq<Token>, b: seq<Token>, c: seq<Token>)
    ensures [LBracket] + (a + (b + c)) + [RBracket] == [LBracket] + a + (b + c + [RBracket])
  {
  }

  lemma {:induction false} FrontDiverges(front: string, rest: string, vs: seq<Json.Value>, v: Json.Value, s: string)
    requires Diverges(front, PrintItems(vs)) && vs != []
    requires s == OPEN_ARRAY + front + rest
    ensures Decode(s) != Some(Arr(vs + [v]))
  {
    LexMark("", '[', "\n");
    assert "" + ['['] + "\n" == OPEN_ARRAY;
    DivergesSecond(OPEN_ARRAY, [LBracket], front, PrintItems(vs));
    var more := [Comma] + Print(v) + [RBracket];
    ArraySnoc(vs, v);
    assert Lex(OPEN_ARRAY + front + rest) != Toks([LBracket] + PrintItems(vs) + more);
    DecodeIff(s, Arr(vs + [v]));
  }

  /**
   Every run, with any strings: the text decodes to the array of the frames in range, each with its calls in order,
   exactly if the run ends well, every dumped call is printed as JSON, and no dumped string needs escaping.
   */
  lemma {:induction false} RunDecodesIff(cfg: Config, h: History)
    ensures Decode(RunText(cfg, h)) == Some(Arr(FramesJs(cfg, h, |h|)))
       <==> EndsWell(cfg, h) && FramesOk(cfg, h, |h|)
  {
    if EndsWell(cfg, h) {
      WellEndedExact(cfg, h);
    } else if cfg.inRange(|h| - 1) {
      UnfinishedExact(cfg, h);
    } else {
      UnopenedRun(cfg, h);
    }
  }
}
