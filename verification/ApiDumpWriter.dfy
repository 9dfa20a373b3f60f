/**
 The `dump_json_*` writers of the api_dump layer as they run: methods that append to one output stream.
 Each is proved to append exactly the text `ApiDumpValues` specifies.
 */
module ApiDumpWriter {
  import opened Json
  import opened JsonText
  import opened ApiDumpValues

  /** What the stream `o` looks like with `i` elements of a list written. */
  function OpenList(o: string, ind: string, texts: seq<string>, i: nat): string
    requires i <= |texts|
  {
    o + (ind + (OPEN_ARRAY + Join(texts[..i])))
  }

  lemma {:induction false} ListStart(o: string, ind: string, texts: seq<string>)
    ensures o + ind + OPEN_ARRAY == OpenList(o, ind, texts, 0)
  {
    assert texts[..0] == [];
    assert OPEN_ARRAY + "" == OPEN_ARRAY;
  }

  lemma {:induction false} ListStep(o: string, ind: string, texts: seq<string>, i: nat)
    requires i < |texts|
    ensures OpenList(o, ind, texts, i) + (if i > 0 then COMMA_LINE else "") + texts[i] == OpenList(o, ind, texts, i + 1)
  {
    assert texts[..i + 1] == texts[..i] + [texts[i]];
    JoinSnoc(texts[..i], texts[i]);
    if i == 0 {
      assert OpenList(o, ind, texts, i) + "" == o + (ind + OPEN_ARRAY);
    }
  }

  lemma {:induction false} ListEnd(o: string, ind: string, texts: seq<string>)
    ensures OpenList(o, ind, texts, |texts|) + ("\n" + ind + "]") == o + ListText(ind, texts)
  {
    assert texts[..|texts|] == texts;
  }

  /** The same for the array writer, which breaks the line behind every element. */
  function BrokenList(o: string, ind: string, texts: seq<string>, i: nat): string
    requires i <= |texts|
  {
    if i == 0 then OpenList(o, ind, texts, 0)
    else OpenList(o, ind, texts, i) + LineBreak(i < |texts|)
  }

  function LineBreak(more: bool): string {
    if more then COMMA_LINE else "\n"
  }

  lemma {:induction false} BrokenStep(o: string, ind: string, texts: seq<string>, i: nat)
    requires i < |texts|
    ensures BrokenList(o, ind, texts, i) + texts[i] == OpenList(o, ind, texts, i + 1)
  {
    ListStep(o, ind, texts, i);
    if i == 0 {
      assert OpenList(o, ind, texts, 0) + "" == OpenList(o, ind, texts, 0);
    }
  }

  lemma {:induction false} BrokenEnd(o: string, ind: string, texts: seq<string>)
    requires texts != []
    ensures BrokenList(o, ind, texts, |texts|) + (ind + "]") == o + ListText(ind, texts)
  {
    ListEnd(o, ind, texts);
    var open := OpenList(o, ind, texts, |texts|);
    assert open + "\n" + (ind + "]") == open + ("\n" + ind + "]");
  }

  /** A stream that holds `o`, then an open object with the lines `ls`. */
  function OpenLines(o: string, ind: string, inner: string, ls: seq<Line>): string {
    o + (ind + (OPEN_OBJECT + Join(Lines(inner, ls))))
  }

  /** The same with one more line up to its key. */
  function KeyText(o: string, ind: string, inner: string, ls: seq<Line>, key: string, gap: string): string {
    OpenLines(o, ind, inner, ls) + (if ls == [] then "" else COMMA_LINE) + (inner + (Quote(key) + (" :" + gap)))
  }

  lemma {:induction false} KeyBody(o: string, ind: string, inner: string, ls: seq<Line>, key: string, gap: string,
                                   body: string)
    ensures KeyText(o, ind, inner, ls, key, gap) + body == OpenLines(o, ind, inner, ls + [Line(key, gap, body)])
  {
    var l := Line(key, gap, body);
    assert Lines(inner, ls + [l]) == Lines(inner, ls) + [LineText(inner, l)];
    JoinSnoc(Lines(inner, ls), LineText(inner, l));
    LinePieces(o, ind, Join(Lines(inner, ls)), if ls == [] then "" else COMMA_LINE,
               inner + (Quote(key) + (" :" + gap)), body);
  }

  lemma {:induction false} LinePieces(o: string, ind: string, lines: string, comma: string, key: string, body: string)
    ensures o + (ind + (OPEN_OBJECT + lines)) + comma + key + body
            == o + (ind + (OPEN_OBJECT + (lines + comma + (key + body))))
    ensures lines == "" && comma == "" ==> lines + comma + (key + body) == key + body
  {
  }

  class JsonStream {
    const st: Settings
    var out: string

    constructor (st: Settings)
      ensures this.st == st && out == ""
    {
      this.st := st;
      out := "";
    }

    method Write(s: string)
      modifies this
      ensures out == old(out) + s
    {
      out := out + s;
    }

    // ---------- Objects, line by line ----------

    /** The stream holds `o`, then an open object with the lines `ls`. */
    ghost predicate InObject(o: string, ind: string, inner: string, ls: seq<Line>)
      reads this
    {
      out == OpenLines(o, ind, inner, ls)
    }

    method OpenObject(ind: string, ghost inner: string)
      modifies this
      ensures InObject(old(out), ind, inner, [])
    {
      Write(ind);
      Write(OPEN_OBJECT);
      assert OPEN_OBJECT + "" == OPEN_OBJECT;
    }

    /** Starts a line: the comma that closes the line before it, the indentation and the key. */
    method Key(ghost o: string, ghost ind: string, inner: string, ghost ls: seq<Line>, first: bool,
               key: string, gap: string)
      requires InObject(o, ind, inner, ls) && (first <==> ls == [])
      modifies this
      ensures out == KeyText(o, ind, inner, ls, key, gap)
    {
      if !first {
        Write(COMMA_LINE);
      } else {
        assert out + "" == out;
      }
      Write(inner + (Quote(key) + (" :" + gap)));
    }

    method TextMember(ghost o: string, ghost ind: string, inner: string, ghost ls: seq<Line>, first: bool,
                      key: string, text: string)
      requires InObject(o, ind, inner, ls) && (first <==> ls == [])
      modifies this
      ensures InObject(o, ind, inner, ls + [TextLine(key, text)])
    {
      Key(o, ind, inner, ls, first, key, " ");
      Write(Quote(text));
      KeyBody(o, ind, inner, ls, key, " ", Quote(text));
    }

    method CloseObject(ghost o: string, ind: string, ghost inner: string, ghost ls: seq<Line>)
      requires InObject(o, ind, inner, ls)
      modifies this
      ensures out == o + ObjectText(ind, inner, ls)
    {
      Write("\n" + ind + "}");
    }

    /** The three lines every array, null pointer and special value starts with. */
    method ArrayHeader(ghost o: string, ind: string, inner: string, typ: string, name: string, addr: Addr)
      requires out == o
      modifies this
      ensures InObject(o, ind, inner, ArrayHead(st, typ, name, addr))
    {
      OpenObject(ind, inner);
      TextMember(o, ind, inner, [], true, TYPE, typ);
      ghost var ls := [] + [TextLine(TYPE, typ)];
      TextMember(o, ind, inner, ls, false, NAME, name);
      ls := ls + [TextLine(NAME, name)];
      TextMember(o, ind, inner, ls, false, ADDRESS, AddressName(st, addr));
      assert ls + [TextLine(ADDRESS, AddressName(st, addr))] == ArrayHead(st, typ, name, addr);
    }

    // ---------- The writers ----------

    /** dump_json_value */
    method DumpValue(typ: string, name: string, obj: Addr, payload: Payload, n: nat)
      modifies this
      ensures out == old(out) + ValueText(st, typ, name, obj, payload, n)
      decreases payload, 4
    {
      ghost var o := out;
      var ind, inner := Indentation(st, n), Indentation(st, n + 1);
      ValueHeader(o, ind, inner, typ, name, obj);
      ghost var ls := ValueHead(st, typ, name, obj);
      if PrintsValue(name, obj) {
        DumpLast(o, ind, inner, ls, typ, payload, n + 1);
        ls := ls + [ValueLine(st, typ, PayloadText(st, payload, n + 1))];
      } else {
        assert ls == ls + [];
      }
      CloseObject(o, ind, inner, ls);
    }

    /** The line of dump_json_value that holds the value or the members. */
    method DumpLast(ghost o: string, ghost ind: string, inner: string, ghost ls: seq<Line>, typ: string,
                    payload: Payload, n: nat)
      requires InObject(o, ind, inner, ls) && ls != []
      modifies this
      ensures InObject(o, ind, inner, ls + [ValueLine(st, typ, PayloadText(st, payload, n))])
      decreases payload, 3
    {
      var hasMembers := IsUnion(st, typ) || IsStruct(st, typ);
      var key, gap := if hasMembers then MEMBERS else VALUE, if hasMembers then "\n" else " ";
      Key(o, ind, inner, ls, false, key, gap);
      DumpPayload(payload, n);
      KeyBody(o, ind, inner, ls, key, gap, PayloadText(st, payload, n));
    }

    method ValueHeader(ghost o: string, ind: string, inner: string, typ: string, name: string, obj: Addr)
      requires out == o
      modifies this
      ensures InObject(o, ind, inner, ValueHead(st, typ, name, obj))
    {
      var text := TypeText(st, typ, name);
      OpenObject(ind, inner);
      TextMember(o, ind, inner, [], true, TYPE, text);
      ghost var ls := [] + [TextLine(TYPE, text)];
      TextMember(o, ind, inner, ls, false, NAME, name);
      ls := ls + [TextLine(NAME, name)];
      if PrintsAddress(typ, name) {
        TextMember(o, ind, inner, ls, false, ADDRESS, AddressName(st, obj));
        ls := ls + [TextLine(ADDRESS, AddressName(st, obj))];
      }
      assert ls == ValueHead(st, typ, name, obj);
    }

    /** The dump function a writer is given for its type. */
    method DumpPayload(p: Payload, n: nat)
      modifies this
      ensures out == old(out) + PayloadText(st, p, n)
      decreases p, 2
    {
      match p
      case Scalar(t) => Write(Quote(t));
      case Void(a) =>
        Write(AddressText(st, a));
        Write("\n");
      case IntScalar(t) => DumpInt(t, n);
      case Struct(ms) => DumpMembers(ms, n, n + 1);
      case Union(cs) => DumpMembers(cs, n, n + 2);
    }

    /** dump_json_int, which writes a member of its own. */
    method DumpInt(text: string, n: nat)
      modifies this
      ensures out == old(out) + LineText(Indentation(st, n), TextLine(VALUE, text))
    {
      Write(Indentation(st, n) + (Quote(VALUE) + (" :" + " ")));
      Write(Quote(text));
    }

    /** A generated struct or union body, with its need-comma flag. */
    method DumpMembers(items: seq<Item>, n: nat, deeper: nat)
      modifies this
      ensures out == old(out) + ListText(Indentation(st, n), ItemTexts(st, items, deeper))
      decreases items, 1
    {
      ghost var o, texts := out, ItemTexts(st, items, deeper);
      var ind := Indentation(st, n);
      Write(ind);
      Write(OPEN_ARRAY);
      ListStart(o, ind, texts);
      var needComma, i := false, 0;
      while i < |items|
        invariant i <= |items| && (needComma <==> i > 0)
        invariant out == OpenList(o, ind, texts, i)
      {
        DumpNext(o, ind, items, deeper, i, needComma);
        needComma, i := true, i + 1;
      }
      ListEnd(o, ind, texts);
      Write("\n" + ind + "]");
    }

    /** One item of a body, behind a comma if it is not the first. */
    method DumpNext(ghost o: string, ghost ind: string, items: seq<Item>, deeper: nat, i: nat, needComma: bool)
      requires i < |items| && (needComma <==> i > 0)
      requires out == OpenList(o, ind, ItemTexts(st, items, deeper), i)
      modifies this
      ensures out == OpenList(o, ind, ItemTexts(st, items, deeper), i + 1)
      decreases items, 0
    {
      ListStep(o, ind, ItemTexts(st, items, deeper), i);
      if needComma {
        Write(COMMA_LINE);
      } else {
        assert out + "" == out;
      }
      DumpItem(items[i], deeper);
    }

    /** The element loop of dump_json_array, which writes the comma after each element but the last. */
    method DumpElements(childType: string, elems: seq<Element>, n: nat)
      requires elems != []
      modifies this
      ensures out == old(out) + ListText(Indentation(st, n), ElementTexts(st, childType, elems, n + 1))
      decreases elems, 1
    {
      ghost var o, texts := out, ElementTexts(st, childType, elems, n + 1);
      var ind := Indentation(st, n);
      Write(ind);
      Write(OPEN_ARRAY);
      ListStart(o, ind, texts);
      DumpAllElements(o, ind, childType, elems, n + 1);
      BrokenEnd(o, ind, texts);
      Write(ind + "]");
    }

    method DumpAllElements(ghost o: string, ghost ind: string, childType: string, elems: seq<Element>, n: nat)
      requires elems != [] && out == BrokenList(o, ind, ElementTexts(st, childType, elems, n), 0)
      modifies this
      ensures out == BrokenList(o, ind, ElementTexts(st, childType, elems, n), |elems|)
      decreases elems, 0, 1
    {
      var i := 0;
      while i < |elems|
        invariant i <= |elems|
        invariant out == BrokenList(o, ind, ElementTexts(st, childType, elems, n), i)
      {
        DumpElement(o, ind, childType, elems, n, i);
        i := i + 1;
      }
    }

    method DumpElement(ghost o: string, ghost ind: string, childType: string, elems: seq<Element>, n: nat, i: nat)
      requires i < |elems| && out == BrokenList(o, ind, ElementTexts(st, childType, elems, n), i)
      modifies this
      ensures out == BrokenList(o, ind, ElementTexts(st, childType, elems, n), i + 1)
      decreases elems, 0, 0
    {
      BrokenStep(o, ind, ElementTexts(st, childType, elems, n), i);
      DumpValue(childType, ElementName(i), At(elems[i].addr), elems[i].payload, n);
      BreakLine(i + 1 < |elems|);
    }

    method BreakLine(more: bool)
      modifies this
      ensures out == old(out) + LineBreak(more)
    {
      if more {
        Write(",");
      }
      Write("\n");
      assert "," + "\n" == COMMA_LINE;
    }

    /** One parameter, member, choice or element. */
    method DumpItem(it: Item, n: nat)
      modifies this
      ensures out == old(out) + ItemText(st, it, n)
      decreases it, 4
    {
      ghost var o := out;
      var ind, inner := Indentation(st, n), Indentation(st, n + 1);
      match it
      case Value(typ, name, obj, payload) => DumpValue(typ, name, obj, payload, n);
      case NullPointer(typ, name) =>
        ArrayHeader(o, ind, inner, typ, name, Null);
        CloseObject(o, ind, inner, ArrayHead(st, typ, name, Null));
      case Array(typ, childType, name, addr, elems) =>
        ghost var head := ArrayHead(st, typ, name, addr);
        ArrayHeader(o, ind, inner, typ, name, addr);
        if IsEmptyArray(addr, elems) {
          CloseObject(o, ind, inner, head);
        } else {
          DumpArrayBody(o, ind, inner, head, childType, elems, n + 1);
          CloseObject(o, ind, inner,
                      head + [Line(ELEMENTS, "\n", ListText(inner, ElementTexts(st, childType, elems, n + 2)))]);
        }
      case Special(typ, name, text, place) => DumpSpecial(typ, name, text, place, n);
      case Unused(typ, name) => DumpUnused(typ, name, n);
      case PNext(chain) => Trampoline(chain, n);
      case Unprinted =>
        assert out + "" == out;
    }

    /** The line of dump_json_array that holds the elements. */
    method DumpArrayBody(ghost o: string, ghost ind: string, inner: string, ghost ls: seq<Line>, childType: string,
                         elems: seq<Element>, n: nat)
      requires InObject(o, ind, inner, ls) && ls != [] && elems != [] && inner == Indentation(st, n)
      modifies this
      ensures InObject(o, ind, inner,
                       ls + [Line(ELEMENTS, "\n", ListText(inner, ElementTexts(st, childType, elems, n + 1)))])
      decreases elems, 2
    {
      Key(o, ind, inner, ls, false, ELEMENTS, "\n");
      DumpElements(childType, elems, n);
      KeyBody(o, ind, inner, ls, ELEMENTS, "\n", ListText(inner, ElementTexts(st, childType, elems, n + 1)));
    }

    /** dump_json_special */
    method DumpSpecial(typ: string, name: string, text: string, place: string, n: nat)
      modifies this
      ensures out == old(out) + FlatText(st, ArrayHead(st, typ, name, At(place)) + [TextLine(VALUE, text)], n)
    {
      ghost var o, head := out, ArrayHead(st, typ, name, At(place));
      var ind, inner := Indentation(st, n), Indentation(st, n + 1);
      ArrayHeader(o, ind, inner, typ, name, At(place));
      TextMember(o, ind, inner, head, false, VALUE, text);
      CloseObject(o, ind, inner, head + [TextLine(VALUE, text)]);
    }

    /** The else branch a struct writes for a member whose condition fails. */
    method DumpUnused(typ: string, name: string, n: nat)
      modifies this
      ensures out == old(out) + FlatText(st, UnusedLines(typ, name), n)
    {
      ghost var o := out;
      var ind, inner := Indentation(st, n), Indentation(st, n + 1);
      OpenObject(ind, inner);
      TextMember(o, ind, inner, [], true, TYPE, typ);
      ghost var ls := [] + [TextLine(TYPE, typ)];
      TextMember(o, ind, inner, ls, false, NAME, name);
      ls := ls + [TextLine(NAME, name)];
      TextMember(o, ind, inner, ls, false, ADDRESS, UNUSED);
      ls := ls + [TextLine(ADDRESS, UNUSED)];
      TextMember(o, ind, inner, ls, false, VALUE, UNUSED);
      assert ls + [TextLine(VALUE, UNUSED)] == UnusedLines(typ, name);
      CloseObject(o, ind, inner, UnusedLines(typ, name));
    }

    /** dump_json_pNext_trampoline */
    method Trampoline(c: Chain, n: nat)
      modifies this
      ensures out == old(out) + ChainText(st, c, n)
      decreases c, 4
    {
      ghost var o := out;
      var ind, inner := Indentation(st, n), Indentation(st, n + 1);
      match c
      case Known(typ, addr, payload) => DumpValue(typ, PNEXT, At(addr), payload, n);
      case LoaderNext(next) => Trampoline(next, n);
      case LoaderEnd =>
        ChainHeader(o, ind, inner);
        TextMember(o, ind, inner, ChainLines(), false, VALUE, NULL_TEXT);
        CloseObject(o, ind, inner, ChainLines() + [TextLine(VALUE, NULL_TEXT)]);
      case Unknown(sType) =>
        ChainHeader(o, ind, inner);
        Key(o, ind, inner, ChainLines(), false, VALUE, " ");
        Write(UnknownBody(sType));
        KeyBody(o, ind, inner, ChainLines(), VALUE, " ", UnknownBody(sType));
        CloseObject(o, ind, inner, ChainLines() + [Line(VALUE, " ", UnknownBody(sType))]);
    }

    method ChainHeader(ghost o: string, ind: string, inner: string)
      requires out == o
      modifies this
      ensures InObject(o, ind, inner, ChainLines())
    {
      OpenObject(ind, inner);
      TextMember(o, ind, inner, [], true, TYPE, VOID_POINTER);
      ghost var ls := [] + [TextLine(TYPE, VOID_POINTER)];
      TextMember(o, ind, inner, ls, false, NAME, PNEXT);
      assert ls + [TextLine(NAME, PNEXT)] == ChainLines();
    }
  }
}
