/**
 The layout of what the api_dump layer prints, line by line and character by character: `Braces`, `Brackets` and
 `Member` are the only shapes. Together with the conditions under which a member is there, this is the text of every
 parameter, call, frame and run.
 */
module ApiDumpLayout {
  import opened Options
  import opened Json
  import opened JsonText
  import opened Numerals
  import opened ApiDumpValues
  import opened ApiDumpRun
  import opened ApiDumpJson
  import opened ApiDumpLaws

  // ---------- Shapes ----------

  function Joined(xs: seq<string>): string {
    if |xs| == 0 then "" else if |xs| == 1 then xs[0] else xs[0] + ",\n" + Joined(xs[1..])
  }

  function Braces(ind: string, lines: seq<string>): string {
    ind + "{\n" + Joined(lines) + "\n" + ind + "}"
  }

  function Brackets(ind: string, xs: seq<string>): string {
    ind + "[\n" + Joined(xs) + "\n" + ind + "]"
  }

  function Member(ind: string, key: string, text: string): string {
    ind + "\"" + key + "\" : \"" + text + "\""
  }

  function ValueMember(ind: string, key: string, body: string): string {
    ind + "\"" + key + "\" : " + body
  }

  function ListMember(ind: string, key: string, body: string): string {
    ind + "\"" + key + "\" :\n" + body
  }

  lemma {:induction false} JoinedIs(xs: seq<string>)
    ensures Join(xs) == Joined(xs)
  {
    if |xs| > 1 {
      JoinedIs(xs[1..]);
    }
  }

  lemma {:induction false} Flat(a: string, b: string, c: string, d: string, e: string)
    ensures a + (b + c + (d + a + e)) == a + b + c + d + a + e
  {
  }

  lemma {:induction false} BracketsAre(ind: string, xs: seq<string>)
    ensures ListText(ind, xs) == Brackets(ind, xs)
  {
    JoinedIs(xs);
    Flat(ind, "[\n", Joined(xs), "\n", "]");
  }

  lemma {:induction false} BracesAre(ind: string, inner: string, ls: seq<Line>)
    ensures ObjectText(ind, inner, ls) == Braces(ind, Lines(inner, ls))
  {
    JoinedIs(Lines(inner, ls));
    Flat(ind, "{\n", Joined(Lines(inner, ls)), "\n", "}");
  }

  lemma {:induction false} ValueMemberIs(ind: string, key: string, body: string)
    ensures LineText(ind, Line(key, " ", body)) == ValueMember(ind, key, body)
  {
    Colon2(ind, key, body);
  }

  lemma {:induction false} Colon2(ind: string, key: string, body: string)
    ensures ind + ("\"" + key + "\"" + (" :" + " ")) + body == ind + "\"" + key + "\" : " + body
  {
    assert "\"" + (" :" + " ") == "\" : ";
  }

  lemma {:induction false} ListMemberIs(ind: string, key: string, body: string)
    ensures LineText(ind, Line(key, "\n", body)) == ListMember(ind, key, body)
  {
    assert "\"" + (" :" + "\n") == "\" :\n";
  }

  lemma {:induction false} MemberIs(ind: string, key: string, text: string)
    ensures LineText(ind, TextLine(key, text)) == Member(ind, key, text)
  {
    ValueMemberIs(ind, key, Quote(text));
    assert "\" : " + ("\"" + text + "\"") == "\" : \"" + text + "\"";
  }

  // ---------- Values ----------

  /** dump_json_value, line by line, `n` levels deep. */
  lemma {:induction false} ValueLayout(st: Settings, qualified: bool, base: string, rest: string, name: string,
                                       obj: Addr, payload: Payload, n: nat)
    requires IsTypeName(qualified, base, rest)
    ensures var typ := TypeName(qualified, base, rest);
            var chain := name in {"pNext", "pUserData"};
            var star := if chain && !Within("void", typ) then "*" else "";
            var isUnion, isStruct := base in st.unions, base in st.structs;
            var inner, body := Indentation(st, n + 1), PayloadText(st, payload, n + 1);
            ValueText(st, typ, name, obj, payload, n)
            == Braces(Indentation(st, n),
                 [Member(inner, "type", typ + star + if isUnion then " (Union)" else ""), Member(inner, "name", name)]
                 + (if chain || ('*' in typ && typ !in {"const char*", "const char* const"})
                    then [Member(inner, "address", Shown(st.showAddress, obj))] else [])
                 + (if chain && obj == Null then []
                    else if isUnion || isStruct then [ListMember(inner, "members", body)]
                    else [ValueMember(inner, "value", body)]))
  {
    var typ, inner := TypeName(qualified, base, rest), Indentation(st, n + 1);
    BaseIs(qualified, base, rest);
    HasStar(typ);
    ContainsIs(typ, "void");
    var body := PayloadText(st, payload, n + 1);
    var head, tail := ValueHead(st, typ, name, obj), if PrintsValue(name, obj) then [ValueLine(st, typ, body)] else [];
    BracesAre(Indentation(st, n), inner, head + tail);
    LinesCat(inner, head, tail);
    HeadLayout(st, typ, name, obj, inner);
    ValueLineLayout(st, typ, body, inner);
  }

  lemma {:induction false} ValueLineLayout(st: Settings, typ: string, body: string, inner: string)
    ensures Lines(inner, [ValueLine(st, typ, body)])
         == [if IsUnion(st, typ) || IsStruct(st, typ) then ListMember(inner, "members", body)
             else ValueMember(inner, "value", body)]
    ensures Lines(inner, []) == []
  {
    OneLine(inner, ValueLine(st, typ, body));
    ValueMemberIs(inner, "value", body);
    ListMemberIs(inner, "members", body);
  }

  lemma {:induction false} LinesCat(ind: string, a: seq<Line>, b: seq<Line>)
    ensures Lines(ind, a + b) == Lines(ind, a) + Lines(ind, b)
  {
  }

  lemma {:induction false} OneLine(ind: string, a: Line)
    ensures Lines(ind, [a]) == [LineText(ind, a)] && Lines(ind, []) == []
  {
  }

  lemma {:induction false} ThreeLines(ind: string, a: Line, b: Line, c: Line)
    ensures Lines(ind, [a, b]) == [LineText(ind, a), LineText(ind, b)]
    ensures Lines(ind, [a, b, c]) == [LineText(ind, a), LineText(ind, b), LineText(ind, c)]
  {
  }

  lemma {:induction false} HeadLayout(st: Settings, typ: string, name: string, obj: Addr, inner: string)
    ensures Lines(inner, ValueHead(st, typ, name, obj))
         == [Member(inner, "type", TypeText(st, typ, name)), Member(inner, "name", name)]
            + if PrintsAddress(typ, name) then [Member(inner, "address", Shown(st.showAddress, obj))] else []
  {
    MemberIs(inner, "type", TypeText(st, typ, name));
    MemberIs(inner, "name", name);
    MemberIs(inner, "address", Shown(st.showAddress, obj));
  }

  /** What stands behind "value" or "members". */
  lemma {:induction false} PayloadLayout(st: Settings, n: nat)
    ensures forall t :: PayloadText(st, Scalar(t), n) == "\"" + t + "\""
    ensures forall a :: PayloadText(st, Void(a), n) == "\"" + Shown(st.showAddress, a) + "\"" + "\n"
    ensures forall t :: PayloadText(st, IntScalar(t), n) == Member(Indentation(st, n), "value", t)
    ensures forall ms :: PayloadText(st, Struct(ms), n) == Brackets(Indentation(st, n), ItemTexts(st, ms, n + 1))
    ensures forall cs :: PayloadText(st, Union(cs), n) == Brackets(Indentation(st, n), ItemTexts(st, cs, n + 2))
  {
    forall t ensures PayloadText(st, IntScalar(t), n) == Member(Indentation(st, n), "value", t) {
      MemberIs(Indentation(st, n), "value", t);
    }
    forall ms ensures PayloadText(st, Struct(ms), n) == Brackets(Indentation(st, n), ItemTexts(st, ms, n + 1)) {
      BracketsAre(Indentation(st, n), ItemTexts(st, ms, n + 1));
    }
    forall cs ensures PayloadText(st, Union(cs), n) == Brackets(Indentation(st, n), ItemTexts(st, cs, n + 2)) {
      BracketsAre(Indentation(st, n), ItemTexts(st, cs, n + 2));
    }
  }

  /** Type, name and address of an array or a pointer, and perhaps one line more. */
  lemma {:induction false} ArrayHeadLayout(st: Settings, typ: string, name: string, addr: Addr, more: seq<Line>, n: nat)
    ensures var inner := Indentation(st, n + 1);
            FlatText(st, ArrayHead(st, typ, name, addr) + more, n)
            == Braces(Indentation(st, n),
                 [Member(inner, "type", typ), Member(inner, "name", name),
                  Member(inner, "address", Shown(st.showAddress, addr))] + Lines(inner, more))
  {
    var inner, head := Indentation(st, n + 1), ArrayHead(st, typ, name, addr);
    BracesAre(Indentation(st, n), inner, head + more);
    LinesCat(inner, head, more);
    ThreeLines(inner, head[0], head[1], head[2]);
    MemberIs(inner, "type", typ);
    MemberIs(inner, "name", name);
    MemberIs(inner, "address", Shown(st.showAddress, addr));
  }

  /** dump_json_pointer on null, dump_json_special, an unused member, and an unprinted one. */
  lemma {:induction false} ItemLayout(st: Settings, typ: string, name: string, text: string, place: string, n: nat)
    ensures var ind, inner := Indentation(st, n), Indentation(st, n + 1);
            var front := [Member(inner, "type", typ), Member(inner, "name", name)];
            && ItemText(st, NullPointer(typ, name), n)
               == Braces(ind, front + [Member(inner, "address", Shown(st.showAddress, Null))])
            && ItemText(st, Special(typ, name, text, place), n)
               == Braces(ind, front + [Member(inner, "address", Shown(st.showAddress, At(place))),
                                       Member(inner, "value", text)])
            && ItemText(st, Unused(typ, name), n)
               == Braces(ind, front + [Member(inner, "address", "UNUSED"), Member(inner, "value", "UNUSED")])
            && ItemText(st, Unprinted, n) == ""
  {
    var ind, inner := Indentation(st, n), Indentation(st, n + 1);
    var front := [Member(inner, "type", typ), Member(inner, "name", name)];
    NullLayout(st, typ, name, n);
    SpecialLayout(st, typ, name, text, place, n);
    UnusedLayout(st, typ, name, n);
    assert front + [Member(inner, "address", "UNUSED"), Member(inner, "value", "UNUSED")]
        == [front[0], front[1], Member(inner, "address", "UNUSED"), Member(inner, "value", "UNUSED")];
  }

  lemma {:induction false} NullLayout(st: Settings, typ: string, name: string, n: nat)
    ensures var inner := Indentation(st, n + 1);
            ItemText(st, NullPointer(typ, name), n)
            == Braces(Indentation(st, n), [Member(inner, "type", typ), Member(inner, "name", name)]
                                          + [Member(inner, "address", Shown(st.showAddress, Null))])
  {
    ArrayHeadLayout(st, typ, name, Null, [], n);
    assert ArrayHead(st, typ, name, Null) + [] == ArrayHead(st, typ, name, Null);
    var inner := Indentation(st, n + 1);
    var lines := [Member(inner, "type", typ), Member(inner, "name", name),
                  Member(inner, "address", Shown(st.showAddress, Null))];
    assert lines + Lines(inner, []) == lines;
    assert lines == [lines[0], lines[1]] + [lines[2]];
  }

  lemma {:induction false} SpecialLayout(st: Settings, typ: string, name: string, text: string, place: string, n: nat)
    ensures var inner := Indentation(st, n + 1);
            ItemText(st, Special(typ, name, text, place), n)
            == Braces(Indentation(st, n), [Member(inner, "type", typ), Member(inner, "name", name)]
                                          + [Member(inner, "address", Shown(st.showAddress, At(place))),
                                             Member(inner, "value", text)])
  {
    var inner := Indentation(st, n + 1);
    ArrayHeadLayout(st, typ, name, At(place), [TextLine("value", text)], n);
    MemberIs(inner, "value", text);
    var lines := [Member(inner, "type", typ), Member(inner, "name", name),
                  Member(inner, "address", Shown(st.showAddress, At(place)))];
    assert Lines(inner, [TextLine("value", text)]) == [Member(inner, "value", text)];
    assert lines + [Member(inner, "value", text)] == [lines[0], lines[1]] + [lines[2], Member(inner, "value", text)];
  }

  lemma {:induction false} UnusedLayout(st: Settings, typ: string, name: string, n: nat)
    ensures var inner := Indentation(st, n + 1);
            ItemText(st, Unused(typ, name), n)
            == Braces(Indentation(st, n), [Member(inner, "type", typ), Member(inner, "name", name),
                                           Member(inner, "address", "UNUSED"), Member(inner, "value", "UNUSED")])
  {
    var inner := Indentation(st, n + 1);
    var ls := UnusedLines(typ, name);
    BracesAre(Indentation(st, n), inner, ls);
    assert ls == [ls[0], ls[1]] + [ls[2], ls[3]];
    LinesCat(inner, [ls[0], ls[1]], [ls[2], ls[3]]);
    ThreeLines(inner, ls[0], ls[1], ls[2]);
    ThreeLines(inner, ls[2], ls[3], ls[3]);
    var lines := Lines(inner, ls);
    assert lines == [lines[0], lines[1], lines[2], lines[3]];
    MemberIs(inner, "type", typ);
    MemberIs(inner, "name", name);
    MemberIs(inner, "address", "UNUSED");
    MemberIs(inner, "value", "UNUSED");
  }

  /** dump_json_array: the elements stand two levels deeper, under their numbers. */
  lemma {:induction false} ArrayLayout(st: Settings, typ: string, childType: string, name: string, addr: Addr,
                                       elems: seq<Element>, n: nat)
    ensures var inner := Indentation(st, n + 1);
            var items := ElementTexts(st, childType, elems, n + 2);
            ItemText(st, Array(typ, childType, name, addr, elems), n)
            == Braces(Indentation(st, n),
                 [Member(inner, "type", typ), Member(inner, "name", name),
                  Member(inner, "address", Shown(st.showAddress, addr))]
                 + if addr == Null || |elems| == 0 then [] else [ListMember(inner, "elements", Brackets(inner, items))])
    ensures forall i :: 0 <= i < |elems| ==>
              ElementTexts(st, childType, elems, n + 2)[i]
              == ValueText(st, childType, "[" + Decimal(i) + "]", At(elems[i].addr), elems[i].payload, n + 2)
  {
    var inner := Indentation(st, n + 1);
    var items := ElementTexts(st, childType, elems, n + 2);
    BracketsAre(inner, items);
    ListMemberIs(inner, "elements", Brackets(inner, items));
    var line := Line("elements", "\n", Brackets(inner, items));
    ArrayHeadLayout(st, typ, name, addr, [], n);
    ArrayHeadLayout(st, typ, name, addr, [line], n);
    assert ArrayHead(st, typ, name, addr) + [] == ArrayHead(st, typ, name, addr);
    assert Lines(inner, [line]) == [ListMember(inner, "elements", Brackets(inner, items))];
    assert Lines(inner, []) == [];
  }

  /** The pNext trampoline. */
  lemma {:induction false} ChainLayout(st: Settings, n: nat)
    ensures var inner := Indentation(st, n + 1);
            ChainText(st, LoaderEnd, n)
            == Braces(Indentation(st, n), [Member(inner, "type", "const void*"), Member(inner, "name", "pNext"),
                                           Member(inner, "value", "NULL")])
    ensures var inner := Indentation(st, n + 1);
            forall sType ::
              ChainText(st, Unknown(sType), n)
              == Braces(Indentation(st, n),
                   [Member(inner, "type", "const void*"), Member(inner, "name", "pNext"),
                    ValueMember(inner, "value", "\"UNKNOWN (\"" + Decimal(sType) + "\")")])
    ensures forall next :: ChainText(st, LoaderNext(next), n) == ChainText(st, next, n)
    ensures forall typ, addr, payload ::
              ChainText(st, Known(typ, addr, payload), n) == ValueText(st, typ, "pNext", At(addr), payload, n)
    ensures forall chain :: ItemText(st, PNext(chain), n) == ChainText(st, chain, n)
  {
    var ind, inner := Indentation(st, n), Indentation(st, n + 1);
    MemberIs(inner, "type", "const void*");
    MemberIs(inner, "name", "pNext");
    MemberIs(inner, "value", "NULL");
    ChainLinesAre(st, n, TextLine(VALUE, NULL_TEXT));
    forall sType
      ensures ChainText(st, Unknown(sType), n)
           == Braces(ind, [Member(inner, "type", "const void*"), Member(inner, "name", "pNext"),
                           ValueMember(inner, "value", "\"UNKNOWN (\"" + Decimal(sType) + "\")")])
    {
      var line := Line(VALUE, " ", UnknownBody(sType));
      ChainLinesAre(st, n, line);
      assert UnknownBody(sType) == "\"UNKNOWN (\"" + Decimal(sType) + "\")" by {
        assert Quote(UNKNOWN) == "\"UNKNOWN (\"";
      }
      ValueMemberIs(inner, "value", UnknownBody(sType));
    }
  }

  lemma {:induction false} ChainLinesAre(st: Settings, n: nat, last: Line)
    ensures var inner := Indentation(st, n + 1);
            FlatText(st, ChainLines() + [last], n)
            == Braces(Indentation(st, n), [Member(inner, "type", "const void*"), Member(inner, "name", "pNext"),
                                           LineText(inner, last)])
  {
    var inner, two := Indentation(st, n + 1), ChainLines();
    BracesAre(Indentation(st, n), inner, two + [last]);
    assert two + [last] == [two[0], two[1], last];
    ThreeLines(inner, two[0], two[1], last);
    MemberIs(inner, "type", "const void*");
    MemberIs(inner, "name", "pNext");
  }

  // ---------- Calls, frames and runs ----------

  /** The lines of a call's head. */
  function HeadMembers(st: Settings, c: Call): seq<string> {
    var ind := Indentation(st, 3);
    [Member(ind, "name", c.name)]
    + (if st.showThreadAndFrame then [Member(ind, "thread", "Thread " + Decimal(c.thread))] else [])
    + (if st.showTimestamp then [Member(ind, "time", Decimal(c.time) + " us")] else [])
    + [Member(ind, "returnType", c.returnType)]
  }

  lemma {:induction false} HeadMembersAre(st: Settings, c: Call)
    ensures Lines(Indentation(st, 3), HeadLines(st, c)) == HeadMembers(st, c)
  {
    var ind := Indentation(st, 3);
    MemberIs(ind, "name", c.name);
    MemberIs(ind, "thread", "Thread " + Decimal(c.thread));
    MemberIs(ind, "time", Decimal(c.time) + " us");
    MemberIs(ind, "returnType", c.returnType);
  }

  /** The lines of a call's body. */
  function BodyMembers(st: Settings, c: Call): seq<string> {
    var ind := Indentation(st, 3);
    (if c.result.Some? then [Member(ind, "returnValue", c.result.value)] else [])
    + (if st.showParams then [ListMember(ind, "args", Brackets(ind, ItemTexts(st, c.args, 4)))] else [])
  }

  /** A call with a body line is one object; without one, a comma stays in front of the closing brace. */
  lemma {:induction false} CallLayout(st: Settings, c: Call)
    ensures CallText(st, c)
         == if BodyMembers(st, c) != [] then Braces(Indentation(st, 2), HeadMembers(st, c) + BodyMembers(st, c))
            else Indentation(st, 2) + "{\n" + Joined(HeadMembers(st, c)) + ",\n" + Indentation(st, 2) + "}"
  {
    HeadMembersAre(st, c);
    JoinedIs(HeadMembers(st, c));
    if c.result.Some? || st.showParams {
      WholeCallLayout(st, c);
    } else {
      LoneHead(Indentation(st, 2), Joined(HeadMembers(st, c)));
    }
  }

  lemma {:induction false} WholeCallLayout(st: Settings, c: Call)
    requires c.result.Some? || st.showParams
    ensures CallText(st, c) == Braces(Indentation(st, 2), HeadMembers(st, c) + BodyMembers(st, c))
  {
    var args := if st.showParams then [ArgsLine(st, c)] else [];
    CallIsObject(st, c);
    LinesRegroup(HeadLines(st, c), ResultLines(c), args);
    LinesCat(Indentation(st, 3), HeadLines(st, c), ResultLines(c) + args);
    HeadMembersAre(st, c);
    BodyMembersAre(st, c);
    BracesAre(Indentation(st, 2), Indentation(st, 3), HeadLines(st, c) + (ResultLines(c) + args));
  }

  lemma {:induction false} LinesRegroup(a: seq<Line>, b: seq<Line>, c: seq<Line>)
    ensures a + b + c == a + (b + c)
  {
  }

  lemma {:induction false} LoneHead(ind: string, head: string)
    ensures ind + ("{\n" + (head + ",\n")) + ("" + "" + (ind + "}")) == ind + "{\n" + head + ",\n" + ind + "}"
  {
  }

  lemma {:induction false} BodyMembersAre(st: Settings, c: Call)
    ensures Lines(Indentation(st, 3), ResultLines(c) + if st.showParams then [ArgsLine(st, c)] else [])
         == BodyMembers(st, c)
  {
    var ind := Indentation(st, 3);
    if c.result.Some? {
      MemberIs(ind, "returnValue", c.result.value);
    }
    BracketsAre(ind, ItemTexts(st, c.args, 4));
    ListMemberIs(ind, "args", Brackets(ind, ItemTexts(st, c.args, 4)));
    LinesCat(ind, ResultLines(c), if st.showParams then [ArgsLine(st, c)] else []);
  }

  /** A frame. */
  lemma {:induction false} FrameLayout(st: Settings, k: nat, cs: seq<Call>)
    ensures var ind := Indentation(st, 1);
            FrameText(st, k, cs)
            == Braces("", (if st.showThreadAndFrame then [Member(ind, "frameNumber", Decimal(k))] else [])
                          + [ListMember(ind, "apiCalls", Brackets(ind, CallTexts(st, cs)))])
    ensures |CallTexts(st, cs)| == |cs| && forall i :: 0 <= i < |cs| ==> CallTexts(st, cs)[i] == CallText(st, cs[i])
  {
    var ind := Indentation(st, 1);
    MemberIs(ind, "frameNumber", Decimal(k));
    BracketsAre(ind, CallTexts(st, cs));
    ListMemberIs(ind, "apiCalls", Brackets(ind, CallTexts(st, cs)));
    var last := Line("apiCalls", "\n", Brackets(ind, CallTexts(st, cs)));
    BracesAre("", ind, FrameLines(st, k) + [last]);
    LinesCat(ind, FrameLines(st, k), [last]);
    OneLine(ind, last);
    OneLine(ind, TextLine("frameNumber", Decimal(k)));
  }

  /** The text of a run that ends well: its frames in range, in order, each with its number. */
  lemma {:induction false} RunLayout(cfg: Config, h: History)
    requires EndsWell(cfg, h)
    ensures RunText(cfg, h) == Brackets("", FrameTexts(cfg, h, |h|)) + "\n"
  {
    WellEndedText(cfg, h);
    BracketsAre("", FrameTexts(cfg, h, |h|));
  }

  lemma {:induction false} FramesLayout(cfg: Config, h: seq<seq<Call>>, n: nat)
    requires n < |h|
    ensures FrameTexts(cfg, h, 0) == []
    ensures FrameTexts(cfg, h, n + 1)
         == FrameTexts(cfg, h, n) + if cfg.inRange(n) then [FrameText(cfg.st, n, h[n])] else []
  {
  }
}
