/**
 VIA's vkconfig output: a JSON object printed by counting tables, rows, columns and texts. The main results: for
 every well-nested sequence of calls the output is exactly the pretty-printed document; that text decodes to the
 document if and only if no printed string needs escaping; and the tables, rows and cells are recovered from it.
 */
module VkConfig {
  import opened Options
  import opened Numerals
  import opened Json
  import opened JsonText

  // ---------- Pretty-printed objects ----------

  function Head(ind: string, key: string): string {
    ind + (Quote(key) + ": ")
  }

  const TAB: string := "\t"

  /** An object spreads over lines, its members indented by one more tab. */
  function Pretty(ind: string, v: Value): string
    decreases v, 1
  {
    match v
    case Str(s) => Quote(s)
    case Obj(fields) => OPEN_OBJECT + Join(Members(ind + TAB, fields)) + ("\n" + ind + "}")
    case Arr(_) => ""
  }

  function Members(ind: string, fields: seq<Field>): (xs: seq<string>)
    ensures |xs| == |fields|
    decreases fields, 0
  {
    seq(|fields|, i requires 0 <= i < |fields| => Member(ind, fields[i]))
  }

  function Member(ind: string, f: Field): string
    decreases f, 2
  {
    Head(ind, f.key) + Pretty(ind, f.value)
  }

  predicate NoArrays(v: Value)
    decreases v, 1
  {
    match v
    case Str(_) => true
    case Obj(fields) => NoArraysIn(fields)
    case Arr(_) => false
  }

  predicate NoArraysIn(fields: seq<Field>)
    decreases fields, 0
  {
    forall i :: 0 <= i < |fields| ==> NoArrays(fields[i].value)
  }

  // ---------- Lexing ----------

  lemma {:induction false} LexesHead(ind: string, key: string)
    requires AllWs(ind)
    ensures LexesIff(Head(ind, key), [Text(key), Colon], Plain(key))
  {
    LexWs(ind);
    LexesQuote(key);
    LexMark("", ':', " ");
    assert "" + [':'] + " " == ": ";
    LexesCat(Quote(key), [Text(key)], Plain(key), ": ", [Colon], true);
    assert [Text(key)] + [Colon] == [Text(key), Colon];
    LexesCat(ind, [], true, Quote(key) + ": ", [Text(key), Colon], Plain(key));
    assert [] + [Text(key), Colon] == [Text(key), Colon];
  }

  lemma {:induction false} LexesMember(ind: string, f: Field)
    requires AllWs(ind) && NoArrays(f.value)
    ensures LexesIff(Member(ind, f), PrintField(f), PlainField(f))
    decreases f, 2
  {
    LexesHead(ind, f.key);
    LexesPretty(ind, f.value);
    LexesCat(Head(ind, f.key), [Text(f.key), Colon], Plain(f.key), Pretty(ind, f.value),
             Print(f.value), PlainValue(f.value));
  }

  lemma {:induction false} MembersTail(ind: string, fields: seq<Field>)
    requires fields != []
    ensures Members(ind, fields)[0] == Member(ind, fields[0]) && Members(ind, fields)[1..] == Members(ind, fields[1..])
  {
  }

  lemma {:induction false} LexesMembers(ind: string, fields: seq<Field>)
    requires AllWs(ind) && NoArraysIn(fields)
    ensures LexesIff(Join(Members(ind, fields)), PrintFields(fields), PlainFields(fields))
    decreases fields, 0
  {
    if fields == [] {
      LexWs("");
    } else {
      LexesMember(ind, fields[0]);
      MembersTail(ind, fields);
      if |fields| > 1 {
        LexesMembers(ind, fields[1..]);
        LexCommaLine();
        var first, t := Member(ind, fields[0]), PrintField(fields[0]);
        LexesCat(first, t, PlainField(fields[0]), COMMA_LINE, [Comma], true);
        LexesCat(first + COMMA_LINE, t + [Comma], PlainField(fields[0]),
                 Join(Members(ind, fields[1..])), PrintFields(fields[1..]), PlainFields(fields[1..]));
      } else {
        assert Join(Members(ind, fields)) == Member(ind, fields[0]);
        assert PrintFields(fields) == PrintField(fields[0]);
      }
    }
  }

  lemma {:induction false} LexesPretty(ind: string, v: Value)
    requires AllWs(ind) && NoArrays(v)
    ensures LexesIff(Pretty(ind, v), Print(v), PlainValue(v))
    decreases v, 1
  {
    match v
    case Str(s) => LexesQuote(s);
    case Obj(fields) =>
      LexesMembers(ind + TAB, fields);
      LexesBraces(ind, Join(Members(ind + TAB, fields)), PrintFields(fields), PlainFields(fields));
  }

  lemma {:induction false} LexesBraces(ind: string, body: string, ts: seq<Token>, ok: bool)
    requires AllWs(ind) && LexesIff(body, ts, ok)
    ensures LexesIff(OPEN_OBJECT + body + ("\n" + ind + "}"), [LBrace] + ts + [RBrace], ok)
  {
    LexMark("", '{', "\n");
    assert "" + ['{'] + "\n" == OPEN_OBJECT;
    LexMark("\n" + ind, '}', "");
    assert "\n" + ind + ['}'] + "" == "\n" + ind + "}";
    LexesCat(OPEN_OBJECT, [LBrace], true, body, ts, ok);
    LexesCat(OPEN_OBJECT + body, [LBrace] + ts, ok, "\n" + ind + "}", [RBrace], true);
  }

  /** A pretty-printed object decodes to itself exactly if nothing in it needs escaping. */
  lemma {:induction false} PrettyDecodesIff(v: Value)
    requires NoArrays(v)
    ensures Decode(Pretty("", v) + "\n") == Some(v) <==> PlainValue(v)
  {
    LexesPretty("", v);
    LexWs("\n");
    LexesCat(Pretty("", v), Print(v), PlainValue(v), "\n", [], true);
    assert Print(v) + [] == Print(v);
    DecodeIff(Pretty("", v) + "\n", v);
    if !PlainValue(v) {
      var s := Pretty("", v) + "\n";
      assert s + "" == s;
      assert Lex(s + "") != Toks(Print(v) + []);
    }
  }

  // ---------- Documents ----------

  datatype Item = Paragraph(text: string) | Table(name: string, rows: seq<seq<string>>)

  function RowFields(cells: seq<string>): (fs: seq<Field>)
    ensures |fs| == |cells|
  {
    seq(|cells|, c requires 0 <= c < |cells| => Field(Decimal(c), Str(cells[c])))
  }

  function TableFields(rows: seq<seq<string>>): (fs: seq<Field>)
    ensures |fs| == |rows|
  {
    seq(|rows|, r requires 0 <= r < |rows| => Field(Decimal(r), Obj(RowFields(rows[r]))))
  }

  /** The number of paragraphs. */
  function TextCount(items: seq<Item>): (n: nat)
    ensures n <= |items|
  {
    if items == [] then 0
    else TextCount(items[..|items| - 1]) + if items[|items| - 1].Paragraph? then 1 else 0
  }

  function ItemField(item: Item, texts: nat): Field {
    match item
    case Paragraph(text) => Field(Decimal(texts), Str(text))
    case Table(name, rows) => Field(name, Obj(TableFields(rows)))
  }

  /** A paragraph's key is its number among the paragraphs, a table's its name. */
  function DocFields(items: seq<Item>): (fs: seq<Field>)
    ensures |fs| == |items|
  {
    if items == [] then []
    else
      var init := items[..|items| - 1];
      DocFields(init) + [ItemField(items[|items| - 1], TextCount(init))]
  }

  function DocText(items: seq<Item>): string {
    Pretty("", Obj(DocFields(items))) + "\n"
  }

  // ---------- The calls ----------

  datatype Call =
    | StandardText(text: string)
    | BeginTable(name: string)
    | BeginRow
    | Element(text: string)
    | EndRow
    | EndTable

  datatype State = State(tables: nat, rows: nat, cols: nat, texts: nat, out: string)

  /** The separator of a counter: none before the first. */
  function Sep(count: nat): string {
    if count > 0 then COMMA_LINE else ""
  }

  const TAB2: string := TAB + TAB
  const TAB3: string := TAB2 + TAB

  function Step(s: State, call: Call): State {
    match call
    case StandardText(text) =>
      s.(tables := s.tables + 1, texts := s.texts + 1,
          out := s.out + Sep(s.tables) + (Head(TAB, Decimal(s.texts)) + Quote(text)))
    case BeginTable(name) =>
      s.(tables := s.tables + 1, rows := 0,
          out := s.out + Sep(s.tables) + (Head(TAB, name) + OPEN_OBJECT))
    case BeginRow =>
      s.(rows := s.rows + 1, cols := 0,
          out := s.out + Sep(s.rows) + (Head(TAB2, Decimal(s.rows)) + OPEN_OBJECT))
    case Element(text) =>
      s.(cols := s.cols + 1, out := s.out + Sep(s.cols) + (Head(TAB3, Decimal(s.cols)) + Quote(text)))
    case EndRow => s.(out := s.out + ("\n" + TAB2 + "}"))
    case EndTable => s.(out := s.out + ("\n" + TAB + "}"))
  }

  /** The comma in front of a member that is not the first. */
  function CommaAfter(count: nat): string {
    if count > 0 then ",\n" else ""
  }

  /** What each call writes: the comma its counter asks for, and its own text. */
  lemma {:induction false} StepWrites(s: State, call: Call)
    ensures Step(s, call).out
         == match call
            case StandardText(text) =>
              s.out + CommaAfter(s.tables) + "\t\"" + Decimal(s.texts) + "\": \"" + text + "\""
            case BeginTable(name) => s.out + CommaAfter(s.tables) + "\t\"" + name + "\": {\n"
            case BeginRow => s.out + CommaAfter(s.rows) + "\t\t\"" + Decimal(s.rows) + "\": {\n"
            case Element(text) =>
              s.out + CommaAfter(s.cols) + "\t\t\t\"" + Decimal(s.cols) + "\": \"" + text + "\""
            case EndRow => s.out + "\n\t\t}"
            case EndTable => s.out + "\n\t}"
  {
    match call
    case StandardText(text) => MemberWrites(s.out + CommaAfter(s.tables), "\t", Decimal(s.texts), text);
    case BeginTable(name) => OpeningWrites(s.out + CommaAfter(s.tables), "\t", name);
    case BeginRow => OpeningWrites(s.out + CommaAfter(s.rows), "\t\t", Decimal(s.rows));
    case Element(text) => MemberWrites(s.out + CommaAfter(s.cols), "\t\t\t", Decimal(s.cols), text);
    case EndRow => RowEnd();
    case EndTable => RowEnd();
  }

  lemma {:induction false} RowEnd()
    ensures "\n" + TAB2 + "}" == "\n\t\t}" && "\n" + TAB + "}" == "\n\t}"
    ensures TAB == "\t" && TAB2 == "\t\t" && TAB3 == "\t\t\t"
  {
  }

  lemma {:induction false} MemberWrites(o: string, ind: string, key: string, text: string)
    ensures o + (Head(ind, key) + Quote(text)) == o + (ind + "\"") + key + "\": \"" + text + "\""
    ensures "\t" + "\"" == "\t\"" && "\t\t\t" + "\"" == "\t\t\t\""
    ensures TAB == "\t" && TAB3 == "\t\t\t"
  {
    MemberText(ind, key, text);
    RowEnd();
    Behind4(o, ind + "\"", key, "\": \"" + text + "\"");
    Behind3(o + (ind + "\"") + key, "\": \"", text, "\"");
    Behind(ind, "\"", key + ("\": \"" + text + "\""));
  }

  lemma {:induction false} OpeningWrites(o: string, ind: string, key: string)
    ensures o + (Head(ind, key) + OPEN_OBJECT) == o + (ind + "\"") + key + "\": {\n"
    ensures "\t" + "\"" == "\t\"" && "\t\t" + "\"" == "\t\t\""
    ensures TAB == "\t" && TAB2 == "\t\t"
  {
    OpenText(ind, key);
    RowEnd();
    Behind4(o, ind + "\"", key, "\": {\n");
  }

  lemma {:induction false} MemberText(ind: string, key: string, text: string)
    ensures Head(ind, key) + Quote(text) == ind + "\"" + (key + ("\": \"" + text + "\""))
  {
    assert "\"" + ": " + "\"" == "\": \"";
  }

  lemma {:induction false} OpenText(ind: string, key: string)
    ensures Head(ind, key) + OPEN_OBJECT == ind + "\"" + (key + "\": {\n")
  {
    assert "\"" + ": " + "{\n" == "\": {\n";
  }

  lemma {:induction false} Behind(a: string, b: string, c: string)
    ensures a + b + c == a + (b + c)
  {
  }

  lemma {:induction false} Behind3(a: string, b: string, c: string, d: string)
    ensures a + (b + c + d) == a + b + c + d
  {
  }

  lemma {:induction false} Behind4(a: string, b: string, c: string, d: string)
    ensures a + (b + (c + d)) == a + b + c + d
  {
  }

  function Run(s: State, calls: seq<Call>): State
    decreases |calls|
  {
    if calls == [] then s else Run(Step(s, calls[0]), calls[1..])
  }

  // ---------- Well-nested calls ----------

  /** How deep the next call stands: 0 in the object, 1 in a table, 2 in a row; None once a call is out of place. */
  function Move(depth: Option<nat>, call: Call): Option<nat> {
    match call
    case StandardText(_) => if depth == Some(0) then Some(0) else None
    case BeginTable(_) => if depth == Some(0) then Some(1) else None
    case BeginRow => if depth == Some(1) then Some(2) else None
    case Element(_) => if depth == Some(2) then Some(2) else None
    case EndRow => if depth == Some(2) then Some(1) else None
    case EndTable => if depth == Some(1) then Some(0) else None
  }

  function DepthAfter(depth: Option<nat>, calls: seq<Call>): Option<nat> {
    if calls == [] then depth else Move(DepthAfter(depth, calls[..|calls| - 1]), calls[|calls| - 1])
  }

  predicate WellNested(calls: seq<Call>) {
    DepthAfter(Some(0), calls) == Some(0)
  }

  /** The calls of a document, row by row and element by element. */
  function RowCalls(cells: seq<string>): seq<Call> {
    [BeginRow] + ElementCalls(cells) + [EndRow]
  }

  function ElementCalls(cells: seq<string>): (cs: seq<Call>)
    ensures |cs| == |cells|
  {
    seq(|cells|, c requires 0 <= c < |cells| => Element(cells[c]))
  }

  function RowsCalls(rows: seq<seq<string>>): seq<Call> {
    if rows == [] then [] else RowsCalls(rows[..|rows| - 1]) + RowCalls(rows[|rows| - 1])
  }

  function ItemCalls(item: Item): seq<Call> {
    match item
    case Paragraph(text) => [StandardText(text)]
    case Table(name, rows) => [BeginTable(name)] + RowsCalls(rows) + [EndTable]
  }

  function DocCalls(items: seq<Item>): seq<Call> {
    if items == [] then [] else DocCalls(items[..|items| - 1]) + ItemCalls(items[|items| - 1])
  }

  lemma {:induction false} DepthAppend(depth: Option<nat>, a: seq<Call>, b: seq<Call>)
    ensures DepthAfter(depth, a + b) == DepthAfter(DepthAfter(depth, a), b)
    decreases |b|
  {
    if b == [] {
      assert a + b == a;
    } else {
      assert (a + b)[..|a + b| - 1] == a + b[..|b| - 1];
      DepthAppend(depth, a, b[..|b| - 1]);
    }
  }

  lemma {:induction false} ElementsNest(cells: seq<string>)
    ensures DepthAfter(Some(2), ElementCalls(cells)) == Some(2)
    decreases |cells|
  {
    if cells != [] {
      var init := cells[..|cells| - 1];
      assert ElementCalls(cells)[..|cells| - 1] == ElementCalls(init);
      ElementsNest(init);
    }
  }

  lemma {:induction false} RowsNest(rows: seq<seq<string>>)
    ensures DepthAfter(Some(1), RowsCalls(rows)) == Some(1)
    decreases |rows|
  {
    if rows != [] {
      var init, cells := rows[..|rows| - 1], rows[|rows| - 1];
      RowsNest(init);
      DepthAppend(Some(1), RowsCalls(init), RowCalls(cells));
      ElementsNest(cells);
      Enclosed(Some(1), BeginRow, ElementCalls(cells), EndRow);
    }
  }

  lemma {:induction false} Enclosed(depth: Option<nat>, first: Call, calls: seq<Call>, last: Call)
    ensures DepthAfter(depth, [first] + calls + [last]) == Move(DepthAfter(Move(depth, first), calls), last)
  {
    var all := [first] + calls + [last];
    assert all[..|all| - 1] == [first] + calls;
    DepthAppend(depth, [first], calls);
    assert [first][..0] == [];
  }

  lemma {:induction false} DocNests(items: seq<Item>)
    ensures WellNested(DocCalls(items))
    decreases |items|
  {
    if items != [] {
      var init, item := items[..|items| - 1], items[|items| - 1];
      DocNests(init);
      DepthAppend(Some(0), DocCalls(init), ItemCalls(item));
      match item
      case Paragraph(text) => assert [StandardText(text)][..0] == [];
      case Table(name, rows) =>
        RowsNest(rows);
        Enclosed(Some(0), BeginTable(name), RowsCalls(rows), EndTable);
    }
  }

  /** A part of a document, up to some call. */
  datatype Part =
    | InObject(items: seq<Item>)
    | InTable(items: seq<Item>, name: string, rows: seq<seq<string>>)
    | InRow(items: seq<Item>, name: string, rows: seq<seq<string>>, cells: seq<string>)

  function PartDepth(p: Part): nat {
    if p.InObject? then 0 else if p.InTable? then 1 else 2
  }

  function PartCalls(p: Part): seq<Call> {
    match p
    case InObject(items) => DocCalls(items)
    case InTable(items, name, rows) => DocCalls(items) + ([BeginTable(name)] + RowsCalls(rows))
    case InRow(items, name, rows, cells) =>
      DocCalls(items) + ([BeginTable(name)] + RowsCalls(rows)) + ([BeginRow] + ElementCalls(cells))
  }

  /** One call more, in its place. */
  function PartNext(p: Part, call: Call): Part
    requires Move(Some(PartDepth(p)), call).Some?
  {
    match call
    case StandardText(text) => InObject(p.items + [Paragraph(text)])
    case BeginTable(name) => InTable(p.items, name, [])
    case BeginRow => InRow(p.items, p.name, p.rows, [])
    case Element(text) => p.(cells := p.cells + [text])
    case EndRow => InTable(p.items, p.name, p.rows + [p.cells])
    case EndTable => InObject(p.items + [Table(p.name, p.rows)])
  }

  lemma {:induction false} DocSnoc(items: seq<Item>, item: Item)
    ensures DocCalls(items + [item]) == DocCalls(items) + ItemCalls(item)
  {
    assert (items + [item])[..|items|] == items;
  }

  lemma {:induction false} RowsSnoc(rows: seq<seq<string>>, cells: seq<string>)
    ensures RowsCalls(rows + [cells]) == RowsCalls(rows) + RowCalls(cells)
  {
    assert (rows + [cells])[..|rows|] == rows;
  }

  lemma {:induction false} PartMoves(p: Part, call: Call)
    requires Move(Some(PartDepth(p)), call).Some?
    ensures Move(Some(PartDepth(p)), call) == Some(PartDepth(PartNext(p, call)))
  {
  }

  lemma {:induction false} TableEnds(items: seq<Item>, name: string, rows: seq<seq<string>>)
    ensures DocCalls(items + [Table(name, rows)])
         == DocCalls(items) + ([BeginTable(name)] + RowsCalls(rows)) + [EndTable]
  {
    DocSnoc(items, Table(name, rows));
  }

  lemma {:induction false} RowEnds(before: seq<Call>, name: string, rows: seq<seq<string>>, cells: seq<string>)
    ensures before + ([BeginTable(name)] + RowsCalls(rows + [cells]))
         == before + ([BeginTable(name)] + RowsCalls(rows)) + ([BeginRow] + ElementCalls(cells)) + [EndRow]
  {
    RowsSnoc(rows, cells);
    RowRegroup(before, [BeginTable(name)], RowsCalls(rows), [BeginRow], ElementCalls(cells), [EndRow]);
  }

  lemma {:induction false} RowRegroup(a: seq<Call>, b: seq<Call>, c: seq<Call>, d: seq<Call>, e: seq<Call>,
                                      f: seq<Call>)
    ensures a + (b + (c + (d + e + f))) == a + (b + c) + (d + e) + f
  {
  }

  lemma {:induction false} RowBegins(before: seq<Call>)
    ensures before + ([BeginRow] + ElementCalls([])) == before + [BeginRow]
  {
  }

  lemma {:induction false} TableBegins(before: seq<Call>, name: string)
    ensures before + ([BeginTable(name)] + RowsCalls([])) == before + [BeginTable(name)]
  {
  }

  lemma {:induction false} RowGrows(before: seq<Call>, cells: seq<string>, text: string)
    ensures before + ([BeginRow] + ElementCalls(cells + [text]))
         == before + ([BeginRow] + ElementCalls(cells)) + [Element(text)]
  {
    assert ElementCalls(cells + [text]) == ElementCalls(cells) + [Element(text)];
  }

  lemma {:induction false} PartGrows(p: Part, call: Call)
    requires Move(Some(PartDepth(p)), call).Some?
    ensures PartCalls(PartNext(p, call)) == PartCalls(p) + [call]
  {
    match call
    case StandardText(text) => DocSnoc(p.items, Paragraph(text));
    case BeginTable(name) => TableBegins(DocCalls(p.items), name);
    case BeginRow => RowBegins(PartCalls(p));
    case Element(text) => ElementGrows(p, text);
    case EndRow => RowCloses(p);
    case EndTable => TableEnds(p.items, p.name, p.rows);
  }

  lemma {:induction false} ElementGrows(p: Part, text: string)
    requires p.InRow?
    ensures PartCalls(PartNext(p, Element(text))) == PartCalls(p) + [Element(text)]
  {
    RowGrows(DocCalls(p.items) + ([BeginTable(p.name)] + RowsCalls(p.rows)), p.cells, text);
  }

  lemma {:induction false} RowCloses(p: Part)
    requires p.InRow?
    ensures PartCalls(PartNext(p, EndRow)) == PartCalls(p) + [EndRow]
  {
    RowEnds(DocCalls(p.items), p.name, p.rows, p.cells);
  }

  /** Calls that are in place so far are a part of a document. */
  lemma {:induction false} ReadCalls(calls: seq<Call>) returns (p: Part)
    requires DepthAfter(Some(0), calls).Some?
    ensures calls == PartCalls(p) && DepthAfter(Some(0), calls) == Some(PartDepth(p))
    decreases |calls|
  {
    if calls == [] {
      p := InObject([]);
    } else {
      var init, call := calls[..|calls| - 1], calls[|calls| - 1];
      assert calls == init + [call];
      var before := ReadCalls(init);
      p := OneCall(before, call);
    }
  }

  lemma {:induction false} OneCall(before: Part, call: Call) returns (p: Part)
    requires Move(Some(PartDepth(before)), call).Some?
    ensures PartCalls(p) == PartCalls(before) + [call] && Move(Some(PartDepth(before)), call) == Some(PartDepth(p))
  {
    PartMoves(before, call);
    PartGrows(before, call);
    p := PartNext(before, call);
  }

  /** The well-nested sequences of calls are those of the documents. */
  lemma {:induction false} WellNestedIff(calls: seq<Call>)
    ensures WellNested(calls) <==> exists items :: calls == DocCalls(items)
  {
    if WellNested(calls) {
      var p := ReadCalls(calls);
      assert calls == DocCalls(p.items);
    }
    if items :| calls == DocCalls(items) {
      DocNests(items);
    }
  }

  lemma {:induction false} RunAppend(s: State, a: seq<Call>, b: seq<Call>)
    ensures Run(s, a + b) == Run(Run(s, a), b)
    decreases |a|
  {
    if a == [] {
      assert a + b == b;
    } else {
      assert (a + b)[1..] == a[1..] + b;
      RunAppend(Step(s, a[0]), a[1..], b);
    }
  }

  lemma {:induction false} RunOne(s: State, call: Call)
    ensures Run(s, [call]) == Step(s, call)
  {
    assert [call][1..] == [];
  }

  // ---------- The output of a document's calls ----------

  /** One more member: the separator and its text. */
  lemma {:induction false} OneMore(base: string, xs: seq<string>, x: string)
    ensures base + Join(xs) + Sep(|xs|) + x == base + Join(xs + [x])
  {
    JoinSnoc(xs, x);
    if xs == [] {
      assert base + "" + "" + x == base + x;
    } else {
      assert base + Join(xs) + COMMA_LINE + x == base + (Join(xs) + COMMA_LINE + x);
    }
  }

  lemma {:induction false} FieldMore(base: string, ind: string, fields: seq<Field>, f: Field)
    ensures base + Join(Members(ind, fields)) + Sep(|fields|) + Member(ind, f)
            == base + Join(Members(ind, fields + [f]))
  {
    MembersSnoc(ind, fields, f);
    OneMore(base, Members(ind, fields), Member(ind, f));
  }

  lemma {:induction false} RowFieldsSnoc(cells: seq<string>)
    requires cells != []
    ensures var init := cells[..|cells| - 1];
            RowFields(cells) == RowFields(init) + [Field(Decimal(|init|), Str(cells[|cells| - 1]))]
  {
  }

  lemma {:induction false} RunElements(s: State, cells: seq<string>)
    requires s.cols == 0
    ensures Run(s, ElementCalls(cells)) == s.(cols := |cells|, out := s.out + Join(Members(TAB3, RowFields(cells))))
    decreases |cells|
  {
    if cells == [] {
      assert s.out + "" == s.out;
    } else {
      var init, c := cells[..|cells| - 1], cells[|cells| - 1];
      var f := Field(Decimal(|init|), Str(c));
      RunElements(s, init);
      assert ElementCalls(cells) == ElementCalls(init) + [Element(c)];
      RunAppend(s, ElementCalls(init), [Element(c)]);
      RunOne(Run(s, ElementCalls(init)), Element(c));
      RowFieldsSnoc(cells);
      FieldMore(s.out, TAB3, RowFields(init), f);
    }
  }

  lemma {:induction false} MembersSnoc(ind: string, fields: seq<Field>, f: Field)
    ensures Members(ind, fields + [f]) == Members(ind, fields) + [Member(ind, f)]
  {
  }

  /** A member that is an object, written in three pieces. */
  lemma {:induction false} ObjectMember(before: string, ind: string, key: string, fields: seq<Field>)
    ensures before + (Head(ind, key) + OPEN_OBJECT) + Join(Members(ind + TAB, fields)) + ("\n" + ind + "}")
         == before + Member(ind, Field(key, Obj(fields)))
  {
    Pieces(before, Head(ind, key), OPEN_OBJECT, Join(Members(ind + TAB, fields)), "\n" + ind + "}");
  }

  lemma {:induction false} Pieces(a: string, b: string, c: string, d: string, e: string)
    ensures a + (b + c) + d + e == a + (b + (c + d + e))
  {
  }

  lemma {:induction false} RunRow(s: State, cells: seq<string>)
    ensures Run(s, RowCalls(cells))
         == s.(rows := s.rows + 1, cols := |cells|,
               out := s.out + Sep(s.rows) + Member(TAB2, Field(Decimal(s.rows), Obj(RowFields(cells)))))
  {
    var begun := Step(s, BeginRow);
    RunAppend(s, [BeginRow] + ElementCalls(cells), [EndRow]);
    RunAppend(s, [BeginRow], ElementCalls(cells));
    RunOne(s, BeginRow);
    RunElements(begun, cells);
    RunOne(Run(begun, ElementCalls(cells)), EndRow);
    ObjectMember(s.out + Sep(s.rows), TAB2, Decimal(s.rows), RowFields(cells));
  }

  lemma {:induction false} TableFieldsSnoc(rows: seq<seq<string>>)
    requires rows != []
    ensures var init := rows[..|rows| - 1];
            TableFields(rows) == TableFields(init) + [Field(Decimal(|init|), Obj(RowFields(rows[|rows| - 1])))]
  {
  }

  lemma {:induction false} RunRows(s: State, rows: seq<seq<string>>)
    requires s.rows == 0
    ensures var t := Run(s, RowsCalls(rows));
            && t.tables == s.tables && t.texts == s.texts && t.rows == |rows|
            && t.out == s.out + Join(Members(TAB2, TableFields(rows)))
    decreases |rows|
  {
    if rows == [] {
      assert s.out + "" == s.out;
    } else {
      var init, cells := rows[..|rows| - 1], rows[|rows| - 1];
      var f := Field(Decimal(|init|), Obj(RowFields(cells)));
      RunRows(s, init);
      RunAppend(s, RowsCalls(init), RowCalls(cells));
      RunRow(Run(s, RowsCalls(init)), cells);
      TableFieldsSnoc(rows);
      FieldMore(s.out, TAB2, TableFields(init), f);
    }
  }

  lemma {:induction false} RunTable(s: State, name: string, rows: seq<seq<string>>)
    ensures var t := Run(s, ItemCalls(Table(name, rows)));
            t.tables == s.tables + 1 && t.texts == s.texts
            && t.out == s.out + Sep(s.tables) + Member(TAB, Field(name, Obj(TableFields(rows))))
  {
    var begun := Step(s, BeginTable(name));
    RunAppend(s, [BeginTable(name)] + RowsCalls(rows), [EndTable]);
    RunAppend(s, [BeginTable(name)], RowsCalls(rows));
    RunOne(s, BeginTable(name));
    RunRows(begun, rows);
    RunOne(Run(begun, RowsCalls(rows)), EndTable);
    ObjectMember(s.out + Sep(s.tables), TAB, name, TableFields(rows));
  }

  lemma {:induction false} RunItem(s: State, item: Item)
    ensures var t := Run(s, ItemCalls(item));
            t.tables == s.tables + 1 && t.texts == s.texts + (if item.Paragraph? then 1 else 0)
            && t.out == s.out + Sep(s.tables) + Member(TAB, ItemField(item, s.texts))
  {
    match item
    case Paragraph(text) => RunOne(s, StandardText(text));
    case Table(name, rows) => RunTable(s, name, rows);
  }

  /** After the calls of a document the members are printed and counted. */
  lemma {:induction false} RunItems(s: State, items: seq<Item>)
    requires s.tables == 0 && s.texts == 0
    ensures var t := Run(s, DocCalls(items));
            t.tables == |items| && t.texts == TextCount(items) && t.out == s.out + Join(Members(TAB, DocFields(items)))
    decreases |items|
  {
    if items == [] {
      assert s.out + "" == s.out;
    } else {
      var init, item := items[..|items| - 1], items[|items| - 1];
      var f := ItemField(item, TextCount(init));
      RunItems(s, init);
      RunAppend(s, DocCalls(init), ItemCalls(item));
      RunItem(Run(s, DocCalls(init)), item);
      FieldMore(s.out, TAB, DocFields(init), f);
    }
  }

  // ---------- The class ----------

  class Printer {
    var tableCount: nat
    var rowCount: nat
    var colCount: nat
    var standardTextCount: nat
    var out: string

    constructor ()
      ensures out == ""
    {
      out := "";
    }

    function Now(): State
      reads this
    {
      State(tableCount, rowCount, colCount, standardTextCount, out)
    }

    method StartOutput()
      modifies this
      ensures Now() == State(0, old(rowCount), old(colCount), 0, old(out) + OPEN_OBJECT)
    {
      tableCount := 0;
      standardTextCount := 0;
      out := out + "{\n";
    }

    method EndOutput()
      modifies this`out
      ensures out == old(out) + ("\n" + "}\n")
    {
      out := out + "\n}\n";
    }

    method PrintStandardText(text: string)
      modifies this
      ensures Now() == Step(old(Now()), StandardText(text))
    {
      if tableCount > 0 {
        out := out + ",\n";
      }
      out := out + (Head(TAB, Decimal(standardTextCount)) + Quote(text));
      tableCount := tableCount + 1;
      standardTextCount := standardTextCount + 1;
    }

    method PrintBeginTable(name: string)
      modifies this
      ensures Now() == Step(old(Now()), BeginTable(name))
    {
      rowCount := 0;
      if tableCount > 0 {
        out := out + ",\n";
      }
      out := out + (Head(TAB, name) + "{\n");
      tableCount := tableCount + 1;
    }

    method PrintBeginTableRow()
      modifies this
      ensures Now() == Step(old(Now()), BeginRow)
    {
      colCount := 0;
      if rowCount > 0 {
        out := out + ",\n";
      }
      out := out + (Head(TAB2, Decimal(rowCount)) + "{\n");
      rowCount := rowCount + 1;
    }

    method PrintTableElement(element: string)
      modifies this
      ensures Now() == Step(old(Now()), Element(element))
    {
      if colCount > 0 {
        out := out + ",\n";
      }
      out := out + (Head(TAB3, Decimal(colCount)) + Quote(element));
      colCount := colCount + 1;
    }

    method PrintEndTableRow()
      modifies this
      ensures Now() == Step(old(Now()), EndRow)
    {
      out := out + ("\n" + TAB2 + "}");
    }

    method PrintEndTable()
      modifies this
      ensures Now() == Step(old(Now()), EndTable)
    {
      out := out + ("\n" + TAB + "}");
    }

    /** One call of a sequence. */
    method Perform(call: Call)
      modifies this
      ensures Now() == Step(old(Now()), call)
    {
      match call {
        case StandardText(text) => PrintStandardText(text);
        case BeginTable(name) => PrintBeginTable(name);
        case BeginRow => PrintBeginTableRow();
        case Element(text) => PrintTableElement(text);
        case EndRow => PrintEndTableRow();
        case EndTable => PrintEndTable();
      }
    }

    /** A whole output: well-nested calls, which are those of a document, between start and end. */
    method PrintDocument(calls: seq<Call>) returns (ghost items: seq<Item>)
      requires WellNested(calls)
      modifies this
      ensures calls == DocCalls(items) && out == old(out) + DocText(items)
    {
      ghost var before := out;
      WellNestedIff(calls);
      items :| calls == DocCalls(items);
      StartOutput();
      ghost var start := Now();
      assert calls[0..] == calls;
      for i := 0 to |calls|
        invariant Run(Now(), calls[i..]) == Run(start, calls)
      {
        assert calls[i..][0] == calls[i] && calls[i..][1..] == calls[i + 1..];
        Perform(calls[i]);
      }
      RunItems(start, items);
      EndOutput();
      DocShape(before, items);
    }
  }

  lemma {:induction false} DocShape(before: string, items: seq<Item>)
    ensures before + OPEN_OBJECT + Join(Members(TAB, DocFields(items))) + ("\n" + "}\n") == before + DocText(items)
  {
    assert "" + TAB == TAB;
    assert "\n" + "" + "}" + "\n" == "\n" + "}\n";
    DocPieces(before, OPEN_OBJECT, Join(Members(TAB, DocFields(items))), "\n" + "" + "}", "\n");
  }

  lemma {:induction false} DocPieces(a: string, b: string, c: string, d: string, e: string)
    ensures a + b + c + (d + e) == a + (b + c + d + e)
  {
  }

  // ---------- Reading the document back ----------

  predicate PlainItem(item: Item) {
    match item
    case Paragraph(text) => Plain(text)
    case Table(name, rows) =>
      Plain(name) && forall r, c :: 0 <= r < |rows| && 0 <= c < |rows[r]| ==> Plain(rows[r][c])
  }

  predicate PlainDoc(items: seq<Item>) {
    forall i :: 0 <= i < |items| ==> PlainItem(items[i])
  }

  function CellsOf(fields: seq<Field>): seq<string> {
    if fields == [] then []
    else CellsOf(fields[..|fields| - 1]) + match fields[|fields| - 1].value case Str(s) => [s] case _ => []
  }

  function RowsOf(fields: seq<Field>): seq<seq<string>> {
    if fields == [] then []
    else
      RowsOf(fields[..|fields| - 1])
      + match fields[|fields| - 1].value case Obj(cells) => [CellsOf(cells)] case _ => []
  }

  /** A reader of decoded outputs: strings are paragraphs, objects are tables. */
  function Read(fields: seq<Field>): seq<Item> {
    if fields == [] then [] else Read(fields[..|fields| - 1]) + ReadItem(fields[|fields| - 1])
  }

  function ReadItem(f: Field): seq<Item> {
    match f.value
    case Str(s) => [Paragraph(s)]
    case Obj(rows) => [Table(f.key, RowsOf(rows))]
    case Arr(_) => []
  }

  lemma {:induction false} CellsBack(cells: seq<string>)
    ensures CellsOf(RowFields(cells)) == cells
    decreases |cells|
  {
    if cells != [] {
      var init := cells[..|cells| - 1];
      CellsBack(init);
      assert RowFields(cells)[..|cells| - 1] == RowFields(init);
    }
  }

  lemma {:induction false} RowsBack(rows: seq<seq<string>>)
    ensures RowsOf(TableFields(rows)) == rows
    decreases |rows|
  {
    if rows != [] {
      RowsBack(rows[..|rows| - 1]);
      RowsLast(rows);
    }
  }

  lemma {:induction false} RowsLast(rows: seq<seq<string>>)
    requires rows != []
    ensures RowsOf(TableFields(rows)) == RowsOf(TableFields(rows[..|rows| - 1])) + [rows[|rows| - 1]]
  {
    CellsBack(rows[|rows| - 1]);
    assert TableFields(rows)[..|rows| - 1] == TableFields(rows[..|rows| - 1]);
  }

  lemma {:induction false} ReadBack(items: seq<Item>)
    ensures Read(DocFields(items)) == items
    decreases |items|
  {
    if items != [] {
      ReadBack(items[..|items| - 1]);
      ReadLast(items);
      FrontAndLast(items);
    }
  }

  lemma {:induction false} FrontAndLast(items: seq<Item>)
    requires items != []
    ensures items[..|items| - 1] + [items[|items| - 1]] == items
  {
  }

  lemma {:induction false} ReadLast(items: seq<Item>)
    requires items != []
    ensures Read(DocFields(items)) == Read(DocFields(items[..|items| - 1])) + [items[|items| - 1]]
  {
    DocFieldsSnoc(items);
    ReadSnoc(DocFields(items));
    ItemBack(items[|items| - 1], TextCount(items[..|items| - 1]));
  }

  lemma {:induction false} ReadSnoc(fields: seq<Field>)
    requires fields != []
    ensures Read(fields) == Read(fields[..|fields| - 1]) + ReadItem(fields[|fields| - 1])
  {
  }

  lemma {:induction false} DocFieldsSnoc(items: seq<Item>)
    requires items != []
    ensures var init, last := items[..|items| - 1], items[|items| - 1];
            var fs := DocFields(items);
            fs[..|fs| - 1] == DocFields(init) && fs[|fs| - 1] == ItemField(last, TextCount(init))
  {
  }

  lemma {:induction false} ItemBack(item: Item, texts: nat)
    ensures ReadItem(ItemField(item, texts)) == [item]
  {
    if item.Table? {
      RowsBack(item.rows);
    }
  }

  lemma {:induction false} DigitsArePlain(n: nat)
    ensures Plain(Decimal(n))
  {
  }

  lemma {:induction false} RowPlain(cells: seq<string>)
    ensures PlainFields(RowFields(cells)) <==> forall c :: 0 <= c < |cells| ==> Plain(cells[c])
  {
    var fs := RowFields(cells);
    forall c | 0 <= c < |cells|
      ensures PlainField(fs[c]) <==> Plain(cells[c])
    {
      DigitsArePlain(c);
    }
  }

  lemma {:induction false} TablePlain(rows: seq<seq<string>>)
    ensures PlainFields(TableFields(rows))
       <==> forall r, c :: 0 <= r < |rows| && 0 <= c < |rows[r]| ==> Plain(rows[r][c])
  {
    var fs := TableFields(rows);
    forall r | 0 <= r < |rows|
      ensures PlainField(fs[r]) <==> forall c :: 0 <= c < |rows[r]| ==> Plain(rows[r][c])
    {
      DigitsArePlain(r);
      RowPlain(rows[r]);
    }
  }

  lemma {:induction false} ItemPlain(item: Item, texts: nat)
    ensures PlainField(ItemField(item, texts)) <==> PlainItem(item)
  {
    match item
    case Paragraph(_) => DigitsArePlain(texts);
    case Table(_, rows) => TablePlain(rows);
  }

  lemma {:induction false} DocFieldAt(items: seq<Item>, i: nat)
    requires i < |items|
    ensures DocFields(items)[i] == ItemField(items[i], TextCount(items[..i]))
    decreases |items|
  {
    var init := items[..|items| - 1];
    if i < |init| {
      DocFieldAt(init, i);
      assert init[..i] == items[..i];
    }
  }

  lemma {:induction false} DocPlain(items: seq<Item>)
    ensures PlainFields(DocFields(items)) <==> PlainDoc(items)
  {
    forall i | 0 <= i < |items|
      ensures PlainField(DocFields(items)[i]) <==> PlainItem(items[i])
    {
      DocFieldAt(items, i);
      ItemPlain(items[i], TextCount(items[..i]));
    }
  }

  lemma {:induction false} DocNoArrays(items: seq<Item>)
    ensures NoArrays(Obj(DocFields(items)))
  {
    forall i | 0 <= i < |items|
      ensures NoArrays(DocFields(items)[i].value)
    {
      DocFieldAt(items, i);
      if items[i].Table? {
        forall r | 0 <= r < |items[i].rows|
          ensures NoArrays(TableFields(items[i].rows)[r].value)
        {
          assert forall f :: f in RowFields(items[i].rows[r]) ==> f.value.Str?;
        }
      }
    }
  }

  /**
   The output of a document's calls decodes to the document's fields exactly if no text, table name or cell needs
   escaping, and then the reader gives the paragraphs, tables, rows and cells back.
   */
  lemma {:induction false} DocumentDecodesIff(items: seq<Item>)
    ensures Decode(DocText(items)) == Some(Obj(DocFields(items))) <==> PlainDoc(items)
    ensures Read(DocFields(items)) == items
  {
    DocNoArrays(items);
    PrettyDecodesIff(Obj(DocFields(items)));
    DocPlain(items);
    ReadBack(items);
  }

  // ---------- Keys ----------

  predicate Distinct(fields: seq<Field>) {
    forall i, j :: 0 <= i < j < |fields| ==> fields[i].key != fields[j].key
  }

  /** Table names differ from each other and from the numbers of the paragraphs. */
  predicate NamesClear(items: seq<Item>) {
    && (forall i, j :: 0 <= i < j < |items| && items[i].Table? && items[j].Table? ==> items[i].name != items[j].name)
    && (forall i, k: nat :: 0 <= i < |items| && items[i].Table? && k < TextCount(items) ==> items[i].name != Decimal(k))
  }

  lemma {:induction false} CountUpTo(items: seq<Item>, i: nat, j: nat)
    requires i < j <= |items|
    ensures TextCount(items[..i]) + (if items[i].Paragraph? then 1 else 0) <= TextCount(items[..j])
    decreases j
  {
    assert items[..j][..j - 1] == items[..j - 1];
    if i < j - 1 {
      CountUpTo(items, i, j - 1);
    }
  }

  /** Every number below the count is some paragraph's. */
  lemma {:induction false} ParagraphWithNumber(items: seq<Item>, k: nat) returns (i: nat)
    requires k < TextCount(items)
    ensures i < |items| && items[i].Paragraph? && TextCount(items[..i]) == k
    decreases |items|
  {
    var init := items[..|items| - 1];
    if k < TextCount(init) {
      i := ParagraphWithNumber(init, k);
      assert init[..i] == items[..i];
    } else {
      i := |init|;
    }
  }

  lemma {:induction false} NumbersDiffer(m: nat, n: nat)
    ensures Decimal(m) == Decimal(n) <==> m == n
  {
    if Decimal(m) == Decimal(n) {
      DecimalInjective(m, n);
    }
  }

  lemma {:induction false} TwoKeys(items: seq<Item>, i: nat, j: nat)
    requires i < j < |items| && NamesClear(items)
    ensures DocFields(items)[i].key != DocFields(items)[j].key
  {
    DocFieldAt(items, i);
    DocFieldAt(items, j);
    NumbersDiffer(TextCount(items[..i]), TextCount(items[..j]));
    CountUpTo(items, i, j);
    CountUpTo(items, j, |items|);
    assert items[..|items|] == items;
  }

  /** The keys of the output differ exactly if the table names are clear; rows and cells never clash. */
  lemma {:induction false} KeysDistinctIff(items: seq<Item>)
    ensures Distinct(DocFields(items)) <==> NamesClear(items)
  {
    if NamesClear(items) {
      forall i, j | 0 <= i < j < |items|
        ensures DocFields(items)[i].key != DocFields(items)[j].key
      {
        TwoKeys(items, i, j);
      }
    }
    if Distinct(DocFields(items)) {
      forall i, j | 0 <= i < j < |items| && items[i].Table? && items[j].Table?
        ensures items[i].name != items[j].name
      {
        DocFieldAt(items, i);
        DocFieldAt(items, j);
      }
      forall i, k: nat | 0 <= i < |items| && items[i].Table? && k < TextCount(items)
        ensures items[i].name != Decimal(k)
      {
        var p := ParagraphWithNumber(items, k);
        DocFieldAt(items, i);
        DocFieldAt(items, p);
      }
    }
  }

  lemma {:induction false} InnerKeysDistinct(cells: seq<string>, rows: seq<seq<string>>)
    ensures Distinct(RowFields(cells)) && Distinct(TableFields(rows))
  {
    forall i: nat, j: nat | i < j
      ensures Decimal(i) != Decimal(j)
    {
      NumbersDiffer(i, j);
    }
  }
}
