/**
 Pretty-printed JSON texts, as the api_dump writers lay them out: members and elements on lines of their
 own, separated by a comma and a newline. A text is `Sound` for a value when it lexes to the tokens of that
 value, and `Bad` when no text around it can make it JSON.
 */
module JsonText {
  import opened Json
  import opened Options

  ghost predicate Sound(s: string, v: Value) {
    Lex(s) == Toks(Print(v))
  }

  ghost predicate Closed(s: string) {
    Lex(s).Toks? || Lex(s).Illegal?
  }

  ghost predicate Bad(s: string) {
    Lex(s).Illegal? || (Lex(s).Toks? && Defective(Lex(s).toks))
  }

  /** Closed texts concatenate to closed texts, and a bad part makes the whole bad. */
  lemma {:induction false} ClosedCat(a: string, b: string)
    requires Closed(a) && Closed(b)
    ensures Closed(a + b)
    ensures Bad(a) || Bad(b) ==> Bad(a + b)
  {
    LexAppend(a, b);
    if Lex(a).Toks? && Lex(b).Toks? {
      var ta, tb := Lex(a).toks, Lex(b).toks;
      if Defective(ta) {
        DefectiveInside([], ta, tb);
        assert [] + ta + tb == ta + tb;
      }
      if Defective(tb) {
        DefectiveInside(ta, tb, []);
        assert ta + tb + [] == ta + tb;
      }
    }
  }

  lemma {:induction false} BadIsNotJson(s: string)
    requires Bad(s)
    ensures Decode(s) == None
  {
    NotJson(s);
  }

  // ---------- Punctuation ----------

  const COMMA_LINE := ",\n"
  const OPEN_OBJECT := "{\n"
  const OPEN_ARRAY := "[\n"

  lemma {:induction false} LexOne(c: char)
    requires Structural(c).Some?
    ensures Lex([c]) == Toks([Structural(c).value])
  {
    assert [c][1..] == [];
    assert Lex([]) == Toks([]);
  }

  /** A structural character with white space before and behind it. */
  lemma {:induction false} LexMark(before: string, c: char, after: string)
    requires AllWs(before) && AllWs(after) && Structural(c).Some?
    ensures Lex(before + [c] + after) == Toks([Structural(c).value])
  {
    LexWs(before);
    LexWs(after);
    LexOne(c);
    LexCat(before, [], [c], [Structural(c).value]);
    assert [] + [Structural(c).value] == [Structural(c).value];
    LexCat(before + [c], [Structural(c).value], after, []);
    assert [Structural(c).value] + [] == [Structural(c).value];
  }

  lemma {:induction false} LexSpaced(before: string, s: string, ts: seq<Token>, after: string)
    requires AllWs(before) && AllWs(after) && Lex(s) == Toks(ts)
    ensures Lex(before + s + after) == Toks(ts)
  {
    LexWs(before);
    LexWs(after);
    LexCat(before, [], s, ts);
    assert [] + ts == ts;
    LexCat(before + s, ts, after, []);
    assert ts + [] == ts;
  }

  lemma {:induction false} WsIsClosed(s: string)
    requires AllWs(s)
    ensures Closed(s)
  {
    LexWs(s);
  }

  // ---------- Members ----------

  /** One line `"key" : body` of an object; `gap` is the white space behind the colon. */
  datatype Line = Line(key: string, gap: string, body: string)

  function LineText(ind: string, l: Line): string {
    ind + (Quote(l.key) + (" :" + l.gap)) + l.body
  }

  predicate LineOk(l: Line) {
    Plain(l.key) && AllWs(l.gap)
  }

  lemma {:induction false} LexKey(ind: string, l: Line)
    requires AllWs(ind) && LineOk(l)
    ensures Lex(ind + (Quote(l.key) + (" :" + l.gap))) == Toks([Text(l.key), Colon])
  {
    LexQuote(l.key);
    LexMark(" ", ':', l.gap);
    assert " " + [':'] + l.gap == " :" + l.gap;
    LexCat(Quote(l.key), [Text(l.key)], " :" + l.gap, [Colon]);
    assert [Text(l.key)] + [Colon] == [Text(l.key), Colon];
    LexSpaced(ind, Quote(l.key) + (" :" + l.gap), [Text(l.key), Colon], "");
    var k := ind + (Quote(l.key) + (" :" + l.gap));
    assert k + "" == k;
  }

  lemma {:induction false} LexLine(ind: string, l: Line, v: Value)
    requires AllWs(ind) && LineOk(l) && Sound(l.body, v)
    ensures Lex(LineText(ind, l)) == Toks(PrintField(Field(l.key, v)))
  {
    LexKey(ind, l);
    LexCat(ind + (Quote(l.key) + (" :" + l.gap)), [Text(l.key), Colon], l.body, Print(v));
  }

  lemma {:induction false} ClosedLine(ind: string, l: Line)
    requires AllWs(ind) && LineOk(l) && Closed(l.body)
    ensures Closed(LineText(ind, l))
    ensures Bad(l.body) ==> Bad(LineText(ind, l))
  {
    LexKey(ind, l);
    ClosedCat(ind + (Quote(l.key) + (" :" + l.gap)), l.body);
  }

  // ---------- Lists of lines ----------

  function Join(xs: seq<string>): string {
    if xs == [] then ""
    else if |xs| == 1 then xs[0]
    else xs[0] + COMMA_LINE + Join(xs[1..])
  }

  /** What a writer with a need-comma flag adds for one more element. */
  lemma {:induction false} JoinSnoc(xs: seq<string>, x: string)
    ensures Join(xs + [x]) == if xs == [] then x else Join(xs) + COMMA_LINE + x
  {
    if xs == [] {
      assert xs + [x] == [x];
    } else {
      JoinSnoc(xs[1..], x);
      assert (xs + [x])[1..] == xs[1..] + [x];
      if |xs| == 1 {
        assert xs[1..] == [];
      } else {
        assert Join(xs + [x]) == xs[0] + COMMA_LINE + (Join(xs[1..]) + COMMA_LINE + x);
      }
    }
  }

  lemma {:induction false} LexCommaLine()
    ensures Lex(COMMA_LINE) == Toks([Comma])
  {
    LexMark("", ',', "\n");
    assert "" + [','] + "\n" == COMMA_LINE;
  }

  lemma {:induction false} ClosedJoin(xs: seq<string>)
    requires forall x :: x in xs ==> Closed(x)
    ensures Closed(Join(xs))
    ensures (exists x :: x in xs && Bad(x)) ==> Bad(Join(xs))
  {
    if xs == [] {
      LexWs("");
    } else if |xs| > 1 {
      ClosedJoin(xs[1..]);
      LexCommaLine();
      ClosedCat(xs[0], COMMA_LINE);
      ClosedCat(xs[0] + COMMA_LINE, Join(xs[1..]));
      assert forall x :: x in xs ==> x == xs[0] || x in xs[1..];
    }
  }

  function Lines(ind: string, ls: seq<Line>): (xs: seq<string>)
    ensures |xs| == |ls| && forall i :: 0 <= i < |ls| ==> xs[i] == LineText(ind, ls[i])
  {
    seq(|ls|, i requires 0 <= i < |ls| => LineText(ind, ls[i]))
  }

  /** The values and the texts match position by position. */
  ghost predicate SoundAll(xs: seq<string>, vs: seq<Value>) {
    |xs| == |vs| && forall i :: 0 <= i < |xs| ==> Sound(xs[i], vs[i])
  }

  lemma {:induction false} LexJoin(xs: seq<string>, vs: seq<Value>)
    requires SoundAll(xs, vs)
    ensures Lex(Join(xs)) == Toks(PrintItems(vs))
  {
    if xs == [] {
      LexWs("");
    } else if |xs| > 1 {
      LexJoin(xs[1..], vs[1..]);
      LexCommaLine();
      LexCat(xs[0], Print(vs[0]), COMMA_LINE, [Comma]);
      LexCat(xs[0] + COMMA_LINE, Print(vs[0]) + [Comma], Join(xs[1..]), PrintItems(vs[1..]));
    } else {
      assert PrintItems(vs) == Print(vs[0]);
    }
  }

  ghost predicate SoundLines(ls: seq<Line>, fs: seq<Field>) {
    |ls| == |fs|
    && forall i :: 0 <= i < |ls| ==> LineOk(ls[i]) && fs[i].key == ls[i].key && Sound(ls[i].body, fs[i].value)
  }

  lemma {:induction false} LexJoinLines(ind: string, ls: seq<Line>, fs: seq<Field>)
    requires AllWs(ind) && SoundLines(ls, fs)
    ensures Lex(Join(Lines(ind, ls))) == Toks(PrintFields(fs))
  {
    if ls == [] {
      LexWs("");
    } else {
      LexLine(ind, ls[0], fs[0].value);
      assert fs[0] == Field(ls[0].key, fs[0].value);
      if |ls| > 1 {
        LexJoinLines(ind, ls[1..], fs[1..]);
        LexCommaLine();
        assert Lines(ind, ls)[1..] == Lines(ind, ls[1..]);
        LexCat(LineText(ind, ls[0]), PrintField(fs[0]), COMMA_LINE, [Comma]);
        LexCat(LineText(ind, ls[0]) + COMMA_LINE, PrintField(fs[0]) + [Comma],
               Join(Lines(ind, ls[1..])), PrintFields(fs[1..]));
      } else {
        assert PrintFields(fs) == PrintField(fs[0]);
      }
    }
  }

  // ---------- Objects and arrays ----------

  function ObjectText(ind: string, inner: string, ls: seq<Line>): string {
    ind + (OPEN_OBJECT + Join(Lines(inner, ls)) + ("\n" + ind + "}"))
  }

  function ListText(ind: string, xs: seq<string>): string {
    ind + (OPEN_ARRAY + Join(xs) + ("\n" + ind + "]"))
  }

  lemma {:induction false} LexBracketed(ind: string, open: char, body: string, ts: seq<Token>, close: char)
    requires AllWs(ind) && Structural(open).Some? && Structural(close).Some? && Lex(body) == Toks(ts)
    ensures Lex(ind + ([open] + "\n" + body + ("\n" + ind + [close])))
         == Toks([Structural(open).value] + ts + [Structural(close).value])
  {
    LexMark("", open, "\n");
    assert "" + [open] + "\n" == [open] + "\n";
    LexMark("\n" + ind, close, "");
    assert "\n" + ind + [close] + "" == "\n" + ind + [close];
    LexCat([open] + "\n", [Structural(open).value], body, ts);
    LexCat([open] + "\n" + body, [Structural(open).value] + ts, "\n" + ind + [close], [Structural(close).value]);
    var inside := [open] + "\n" + body + ("\n" + ind + [close]);
    LexSpaced(ind, inside, [Structural(open).value] + ts + [Structural(close).value], "");
    assert ind + inside + "" == ind + inside;
  }

  lemma {:induction false} ClosedBracketed(ind: string, open: char, body: string, close: char)
    requires AllWs(ind) && Structural(open).Some? && Structural(close).Some? && Closed(body)
    ensures Closed(ind + ([open] + "\n" + body + ("\n" + ind + [close])))
    ensures Bad(body) ==> Bad(ind + ([open] + "\n" + body + ("\n" + ind + [close])))
  {
    LexMark("", open, "\n");
    assert "" + [open] + "\n" == [open] + "\n";
    LexMark("\n" + ind, close, "");
    assert "\n" + ind + [close] + "" == "\n" + ind + [close];
    WsIsClosed(ind);
    ClosedCat([open] + "\n", body);
    ClosedCat([open] + "\n" + body, "\n" + ind + [close]);
    ClosedCat(ind, [open] + "\n" + body + ("\n" + ind + [close]));
  }

  lemma {:induction false} SoundObject(ind: string, inner: string, ls: seq<Line>, fs: seq<Field>)
    requires AllWs(ind) && AllWs(inner) && SoundLines(ls, fs)
    ensures Sound(ObjectText(ind, inner, ls), Obj(fs))
  {
    LexJoinLines(inner, ls, fs);
    LexBracketed(ind, '{', Join(Lines(inner, ls)), PrintFields(fs), '}');
    assert ['{'] + "\n" == OPEN_OBJECT;
    assert ['}'] == "}";
  }

  lemma {:induction false} SoundList(ind: string, xs: seq<string>, vs: seq<Value>)
    requires AllWs(ind) && SoundAll(xs, vs)
    ensures Sound(ListText(ind, xs), Arr(vs))
  {
    LexJoin(xs, vs);
    LexBracketed(ind, '[', Join(xs), PrintItems(vs), ']');
    assert ['['] + "\n" == OPEN_ARRAY;
    assert [']'] == "]";
  }

  /** An object of closed lines is closed, and a bad line makes it bad. */
  lemma {:induction false} ClosedObject(ind: string, inner: string, ls: seq<Line>)
    requires AllWs(ind)
    requires forall i :: 0 <= i < |ls| ==> Closed(LineText(inner, ls[i]))
    ensures Closed(ObjectText(ind, inner, ls))
    ensures (exists i :: 0 <= i < |ls| && Bad(LineText(inner, ls[i]))) ==> Bad(ObjectText(ind, inner, ls))
  {
    var xs := Lines(inner, ls);
    ClosedJoin(xs);
    if i :| 0 <= i < |ls| && Bad(LineText(inner, ls[i])) {
      assert xs[i] in xs;
    }
    ClosedBracketed(ind, '{', Join(xs), '}');
    assert ['{'] + "\n" == OPEN_OBJECT;
    assert ['}'] == "}";
  }

  lemma {:induction false} ClosedList(ind: string, xs: seq<string>)
    requires AllWs(ind) && forall x :: x in xs ==> Closed(x)
    ensures Closed(ListText(ind, xs))
    ensures (exists x :: x in xs && Bad(x)) ==> Bad(ListText(ind, xs))
  {
    ClosedJoin(xs);
    ClosedBracketed(ind, '[', Join(xs), ']');
    assert ['['] + "\n" == OPEN_ARRAY;
    assert [']'] == "]";
  }

  lemma {:induction false} SoundQuote(s: string)
    requires Plain(s)
    ensures Sound(Quote(s), Str(s))
  {
    LexQuote(s);
  }

  /** Every key and every string stands for itself between quotes. */
  predicate PlainValue(v: Value)
    decreases v, 1
  {
    match v
    case Str(s) => Plain(s)
    case Arr(items) => forall i :: 0 <= i < |items| ==> PlainValue(items[i])
    case Obj(fields) => PlainFields(fields)
  }

  predicate PlainFields(fields: seq<Field>)
    decreases fields, 0
  {
    forall i :: 0 <= i < |fields| ==> PlainField(fields[i])
  }

  predicate PlainField(f: Field)
    decreases f, 2
  {
    Plain(f.key) && PlainValue(f.value)
  }

  // ---------- Texts that lex to given tokens, or in no context to tokens that begin with them ----------

  /** Whatever follows the text, its tokens do not begin with `ts`. */
  ghost predicate Diverges(s: string, ts: seq<Token>) {
    forall rest, more :: Lex(s + rest) != Toks(ts + more)
  }

  ghost predicate LexesIff(s: string, ts: seq<Token>, ok: bool) {
    if ok then Lex(s) == Toks(ts) else Diverges(s, ts)
  }

  lemma {:induction false} DivergesFirst(a: string, ta: seq<Token>, b: string, tb: seq<Token>)
    requires Diverges(a, ta)
    ensures Diverges(a + b, ta + tb)
  {
    forall rest, more
      ensures Lex(a + b + rest) != Toks(ta + tb + more)
    {
      RestRegroup(a, ta, b, tb, rest, more);
    }
  }

  lemma {:induction false} RestRegroup(a: string, ta: seq<Token>, b: string, tb: seq<Token>, rest: string,
                                       more: seq<Token>)
    ensures a + b + rest == a + (b + rest) && ta + tb + more == ta + (tb + more)
  {
  }

  lemma {:induction false} DivergesSecond(a: string, ta: seq<Token>, b: string, tb: seq<Token>)
    requires Lex(a) == Toks(ta) && Diverges(b, tb)
    ensures Diverges(a + b, ta + tb)
  {
    forall rest, more
      ensures Lex(a + b + rest) != Toks(ta + tb + more)
    {
      assert a + b + rest == a + (b + rest) && ta + tb + more == ta + (tb + more);
      LexAppend(a, b + rest);
      assert Lex(b + rest) != Toks(tb + more);
      if Lex(b + rest).Toks? && ta + Lex(b + rest).toks == ta + (tb + more) {
        SamePrefix(ta, Lex(b + rest).toks, tb + more);
      }
    }
  }

  lemma {:induction false} SamePrefix(a: seq<Token>, b: seq<Token>, c: seq<Token>)
    requires a + b == a + c
    ensures b == c
  {
    assert b == (a + b)[|a|..] && c == (a + c)[|a|..];
  }

  lemma {:induction false} LexesCat(a: string, ta: seq<Token>, oka: bool, b: string, tb: seq<Token>, okb: bool)
    requires LexesIff(a, ta, oka) && LexesIff(b, tb, okb)
    ensures LexesIff(a + b, ta + tb, oka && okb)
  {
    if !oka {
      DivergesFirst(a, ta, b, tb);
    } else if !okb {
      DivergesSecond(a, ta, b, tb);
    } else {
      LexCat(a, ta, b, tb);
    }
  }

  /** A string that needs escaping comes out shorter, or not at all. */
  lemma {:induction false} LexesQuote(s: string)
    ensures LexesIff(Quote(s), [Text(s)], Plain(s))
  {
    if Plain(s) {
      LexQuote(s);
    } else {
      var k :| 0 <= k < |s| && !IsPlainChar(s[k]);
      forall rest, more
        ensures Lex(Quote(s) + rest) != Toks([Text(s)] + more)
      {
        QuoteStops(s, k, rest, more);
      }
    }
  }

  lemma {:induction false} QuoteStops(s: string, k: nat, rest: string, more: seq<Token>)
    requires k < |s| && !IsPlainChar(s[k])
    ensures Lex(Quote(s) + rest) != Toks([Text(s)] + more)
  {
    var q := Quote(s) + rest;
    assert q[1..] == s + ("\"" + rest);
    PlainRunStops(q[1..], k);
    var n := PlainRun(q[1..]);
    if Lex(q).Toks? {
      assert Lex(q).toks[0] == Text(q[1..n + 1]);
      assert |q[1..n + 1]| < |s|;
      assert ([Text(s)] + more)[0] == Text(s);
    }
  }

  lemma {:induction false} LexesLine(ind: string, l: Line, v: Value, ok: bool)
    requires AllWs(ind) && AllWs(l.gap) && LexesIff(l.body, Print(v), ok)
    ensures LexesIff(LineText(ind, l), PrintField(Field(l.key, v)), Plain(l.key) && ok)
  {
    LexesKey(ind, l);
    LexesCat(ind + (Quote(l.key) + (" :" + l.gap)), [Text(l.key), Colon], Plain(l.key), l.body, Print(v), ok);
  }

  lemma {:induction false} LexesKey(ind: string, l: Line)
    requires AllWs(ind) && AllWs(l.gap)
    ensures LexesIff(ind + (Quote(l.key) + (" :" + l.gap)), [Text(l.key), Colon], Plain(l.key))
  {
    LexesQuote(l.key);
    LexWs(ind);
    LexMark(" ", ':', l.gap);
    assert " " + [':'] + l.gap == " :" + l.gap;
    LexesCat(Quote(l.key), [Text(l.key)], Plain(l.key), " :" + l.gap, [Colon], true);
    assert [Text(l.key)] + [Colon] == [Text(l.key), Colon];
    LexesCat(ind, [], true, Quote(l.key) + (" :" + l.gap), [Text(l.key), Colon], Plain(l.key));
    assert [] + [Text(l.key), Colon] == [Text(l.key), Colon];
  }

  predicate All(oks: seq<bool>) {
    forall i :: 0 <= i < |oks| ==> oks[i]
  }

  /** Texts and values match position by position, each with its own condition. */
  ghost predicate LexesAll(xs: seq<string>, vs: seq<Value>, oks: seq<bool>) {
    |xs| == |vs| == |oks| && forall i :: 0 <= i < |xs| ==> LexesIff(xs[i], Print(vs[i]), oks[i])
  }

  lemma {:induction false} LexesJoin(xs: seq<string>, vs: seq<Value>, oks: seq<bool>)
    requires LexesAll(xs, vs, oks)
    ensures LexesIff(Join(xs), PrintItems(vs), All(oks))
  {
    if xs == [] {
      LexWs("");
    } else if |xs| == 1 {
      assert Join(xs) == xs[0] && PrintItems(vs) == Print(vs[0]) && All(oks) == oks[0];
    } else {
      LexesJoin(xs[1..], vs[1..], oks[1..]);
      AllSplit(oks);
      LexCommaLine();
      LexesCat(xs[0], Print(vs[0]), oks[0], COMMA_LINE, [Comma], true);
      LexesCat(xs[0] + COMMA_LINE, Print(vs[0]) + [Comma], oks[0], Join(xs[1..]), PrintItems(vs[1..]), All(oks[1..]));
    }
  }

  lemma {:induction false} AllSplit(oks: seq<bool>)
    requires oks != []
    ensures All(oks) <==> oks[0] && All(oks[1..])
  {
    if oks[0] && All(oks[1..]) {
      assert forall i :: 1 <= i < |oks| ==> oks[i] == oks[1..][i - 1];
    }
  }

  lemma {:induction false} LexesList(ind: string, xs: seq<string>, vs: seq<Value>, oks: seq<bool>)
    requires AllWs(ind) && LexesAll(xs, vs, oks)
    ensures LexesIff(ListText(ind, xs), Print(Arr(vs)), All(oks))
  {
    LexesJoin(xs, vs, oks);
    LexWs(ind);
    LexMark("", '[', "\n");
    assert "" + ['['] + "\n" == OPEN_ARRAY;
    LexMark("\n" + ind, ']', "");
    assert "\n" + ind + [']'] + "" == "\n" + ind + "]";
    LexesCat(OPEN_ARRAY, [LBracket], true, Join(xs), PrintItems(vs), All(oks));
    LexesCat(OPEN_ARRAY + Join(xs), [LBracket] + PrintItems(vs), All(oks), "\n" + ind + "]", [RBracket], true);
    var inside := OPEN_ARRAY + Join(xs) + ("\n" + ind + "]");
    LexesCat(ind, [], true, inside, Print(Arr(vs)), All(oks));
    assert [] + Print(Arr(vs)) == Print(Arr(vs));
  }

  /** The lines are those of text fields. */
  predicate TextLines(ls: seq<Line>, fs: seq<Field>) {
    |ls| == |fs|
    && forall i :: 0 <= i < |ls| ==> fs[i].value.Str? && ls[i] == Line(fs[i].key, " ", Quote(fs[i].value.text))
  }

  lemma {:induction false} LexesTextLine(ind: string, l: Line, f: Field)
    requires AllWs(ind) && f.value.Str? && l == Line(f.key, " ", Quote(f.value.text))
    ensures LexesIff(LineText(ind, l), PrintField(f), PlainField(f))
  {
    LexesQuote(f.value.text);
    assert Print(f.value) == [Text(f.value.text)] && PlainValue(f.value) == Plain(f.value.text);
    LexesLine(ind, l, f.value, Plain(f.value.text));
    assert f == Field(l.key, f.value);
  }

  /** The open object with the text lines written. */
  lemma {:induction false} LexesTextLines(ind: string, ls: seq<Line>, fs: seq<Field>)
    requires AllWs(ind) && TextLines(ls, fs)
    ensures LexesIff(Join(Lines(ind, ls)), PrintFields(fs), PlainFields(fs))
  {
    if ls == [] {
      LexWs("");
    } else {
      LexesTextLine(ind, ls[0], fs[0]);
      if |ls| == 1 {
        assert Join(Lines(ind, ls)) == LineText(ind, ls[0]) && PrintFields(fs) == PrintField(fs[0]);
      } else {
        LexesTextLines(ind, ls[1..], fs[1..]);
        LinesTail(ind, ls, fs);
        LexCommaLine();
        var first, t, ok := LineText(ind, ls[0]), PrintField(fs[0]), PlainField(fs[0]);
        LexesCat(first, t, ok, COMMA_LINE, [Comma], true);
        LexesCat(first + COMMA_LINE, t + [Comma], ok, Join(Lines(ind, ls[1..])),
                 PrintFields(fs[1..]), PlainFields(fs[1..]));
      }
    }
  }

  lemma {:induction false} LinesTail(ind: string, ls: seq<Line>, fs: seq<Field>)
    requires |ls| == |fs| > 0
    ensures Lines(ind, ls)[0] == LineText(ind, ls[0]) && Lines(ind, ls)[1..] == Lines(ind, ls[1..])
    ensures PlainFields(fs) <==> PlainField(fs[0]) && PlainFields(fs[1..])
  {
    if PlainField(fs[0]) && PlainFields(fs[1..]) {
      assert forall i :: 1 <= i < |fs| ==> fs[i] == fs[1..][i - 1];
    }
  }

  function Closing(ind: string): string {
    "\n" + ind + "}"
  }

  lemma {:induction false} LexesClose(ind: string)
    requires AllWs(ind)
    ensures Lex(Closing(ind)) == Toks([RBrace])
  {
    LexMark("\n" + ind, '}', "");
    assert "\n" + ind + ['}'] + "" == Closing(ind);
  }

  lemma {:induction false} LexesOpen(ind: string)
    requires AllWs(ind)
    ensures Lex(ind + OPEN_OBJECT) == Toks([LBrace])
  {
    LexMark(ind, '{', "\n");
    assert ind + ['{'] + "\n" == ind + OPEN_OBJECT;
  }

  /** An object of text lines. */
  lemma {:induction false} LexesFlat(ind: string, inner: string, ls: seq<Line>, fs: seq<Field>)
    requires AllWs(ind) && AllWs(inner) && TextLines(ls, fs)
    ensures LexesIff(ObjectText(ind, inner, ls), Print(Obj(fs)), PlainFields(fs))
  {
    LexesOpen(ind);
    LexesClose(ind);
    LexesTextLines(inner, ls, fs);
    var body := Join(Lines(inner, ls));
    LexesCat(ind + OPEN_OBJECT, [LBrace], true, body, PrintFields(fs), PlainFields(fs));
    LexesCat(ind + OPEN_OBJECT + body, [LBrace] + PrintFields(fs), PlainFields(fs), Closing(ind), [RBrace], true);
    assert ind + OPEN_OBJECT + body + Closing(ind) == ObjectText(ind, inner, ls);
  }

  /**
   An object of text lines and one more line. Its condition is about the last body together with the closing brace,
   because a body that is no value may differ from one only behind its end.
   */
  lemma {:induction false} LexesObject(ind: string, inner: string, ls: seq<Line>, fs: seq<Field>,
                                       last: Line, v: Value, ok: bool)
    requires AllWs(ind) && AllWs(inner) && AllWs(last.gap) && TextLines(ls, fs)
    requires LexesIff(last.body + Closing(ind), Print(v) + [RBrace], ok)
    ensures LexesIff(ObjectText(ind, inner, ls + [last]), Print(Obj(fs + [Field(last.key, v)])),
                     PlainFields(fs) && Plain(last.key) && ok)
  {
    LexesTextLines(inner, ls, fs);
    LexesOpen(ind);
    LexesKey(inner, last);
    LexCommaLine();
    LexWs("");
    var lines, key := Join(Lines(inner, ls)), inner + (Quote(last.key) + (" :" + last.gap));
    var comma, tc := if ls == [] then "" else COMMA_LINE, if ls == [] then [] else [Comma];
    var a, ta, head := ind + OPEN_OBJECT, [LBrace], PlainFields(fs);
    LexesCat(a, ta, true, lines, PrintFields(fs), head);
    LexesCat(a + lines, ta + PrintFields(fs), head, comma, tc, true);
    LexesCat(a + lines + comma, ta + PrintFields(fs) + tc, head, key, [Text(last.key), Colon], Plain(last.key));
    LexesCat(a + lines + comma + key, ta + PrintFields(fs) + tc + [Text(last.key), Colon], head && Plain(last.key),
             last.body + Closing(ind), Print(v) + [RBrace], ok);
    ObjectPieces(ind, inner, ls, last);
    FieldPieces(fs, last.key, v);
  }

  lemma {:induction false} ObjectPieces(ind: string, inner: string, ls: seq<Line>, last: Line)
    ensures ObjectText(ind, inner, ls + [last])
         == ind + OPEN_OBJECT + Join(Lines(inner, ls)) + (if ls == [] then "" else COMMA_LINE)
            + (inner + (Quote(last.key) + (" :" + last.gap))) + (last.body + Closing(ind))
  {
    var xs, x := Lines(inner, ls), LineText(inner, last);
    assert Lines(inner, ls + [last]) == xs + [x];
    JoinSnoc(xs, x);
    SixPieces(ind, OPEN_OBJECT, Join(xs), if ls == [] then "" else COMMA_LINE,
              inner + (Quote(last.key) + (" :" + last.gap)), last.body, Closing(ind));
  }

  lemma {:induction false} SixPieces(a: string, b: string, c: string, d: string, e: string, f: string, g: string)
    ensures a + (b + (c + d + (e + f)) + g) == a + b + c + d + e + (f + g)
    ensures c == "" && d == "" ==> c + d + (e + f) == e + f
  {
  }

  lemma {:induction false} FieldPieces(fs: seq<Field>, key: string, v: Value)
    ensures Print(Obj(fs + [Field(key, v)]))
         == [LBrace] + PrintFields(fs) + (if fs == [] then [] else [Comma]) + [Text(key), Colon] + (Print(v) + [RBrace])
  {
    PrintFieldsSnoc(fs, Field(key, v));
    TokenPieces(PrintFields(fs), if fs == [] then [] else [Comma], [Text(key), Colon], Print(v));
  }

  lemma {:induction false} TokenPieces(a: seq<Token>, b: seq<Token>, c: seq<Token>, d: seq<Token>)
    ensures [LBrace] + (a + b + (c + d)) + [RBrace] == [LBrace] + a + b + c + (d + [RBrace])
  {
  }

  lemma {:induction false} PrintFieldsSnoc(fs: seq<Field>, f: Field)
    ensures PrintFields(fs + [f]) == PrintFields(fs) + (if fs == [] then [] else [Comma]) + PrintField(f)
  {
    if fs == [] {
      assert fs + [f] == [f];
      assert [] + [] + PrintField(f) == PrintField(f);
    } else {
      PrintFieldsSnoc(fs[1..], f);
      assert (fs + [f])[1..] == fs[1..] + [f];
      var a, c := PrintField(fs[0]), [Comma];
      if |fs| == 1 {
        assert fs[1..] == [];
      } else {
        TokensRegroup(a + c, PrintFields(fs[1..]), c, PrintField(f));
      }
    }
  }

  lemma {:induction false} TokensRegroup(a: seq<Token>, b: seq<Token>, c: seq<Token>, d: seq<Token>)
    ensures a + (b + c + d) == a + b + c + d
  {
  }

  // ---------- Lists with a gap: an element that prints nothing ----------

  lemma {:induction false} JoinCat(a: seq<string>, b: seq<string>)
    requires a != [] && b != []
    ensures Join(a + b) == Join(a) + COMMA_LINE + Join(b)
    decreases |a|
  {
    assert (a + b)[1..] == a[1..] + b;
    if |a| == 1 {
      assert a[1..] + b == b;
    } else {
      JoinCat(a[1..], b);
      assert Join(a + b) == a[0] + COMMA_LINE + (Join(a[1..]) + COMMA_LINE + Join(b));
      assert Join(a) == a[0] + COMMA_LINE + Join(a[1..]);
      assert a[0] + COMMA_LINE + (Join(a[1..]) + COMMA_LINE + Join(b))
          == a[0] + COMMA_LINE + Join(a[1..]) + COMMA_LINE + Join(b);
    }
  }

  function CloseList(ind: string): string {
    "\n" + ind + "]"
  }

  /** What stands directly behind the gap: a comma, or the closing bracket. */
  function BehindGap(ind: string, post: seq<string>): string {
    if post == [] then CloseList(ind) else COMMA_LINE + (Join(post) + CloseList(ind))
  }

  lemma {:induction false} GapText(ind: string, pre: seq<string>, post: seq<string>)
    ensures ListText(ind, pre + [""] + post)
         == if pre == [] then ind + OPEN_ARRAY + BehindGap(ind, post)
            else ind + OPEN_ARRAY + Join(pre) + (COMMA_LINE + BehindGap(ind, post))
  {
    var xs := pre + [""] + post;
    var behind := if post == [] then "" else COMMA_LINE + Join(post);
    GapJoin(pre, post);
    GapPieces(ind, Join(pre), Join(post), CloseList(ind));
    assert ListText(ind, xs) == ind + (OPEN_ARRAY + Join(xs) + CloseList(ind));
  }

  lemma {:induction false} GapJoin(pre: seq<string>, post: seq<string>)
    ensures Join(pre + [""] + post)
         == (if pre == [] then "" else Join(pre) + COMMA_LINE) + (if post == [] then "" else COMMA_LINE + Join(post))
  {
    var gap := [""];
    assert Join(gap) == "";
    assert pre + gap + post == pre + (gap + post);
    if post == [] {
      assert gap + post == gap;
    } else {
      JoinCat(gap, post);
      assert "" + COMMA_LINE + Join(post) == COMMA_LINE + Join(post);
    }
    if pre == [] {
      assert pre + (gap + post) == gap + post;
    } else {
      JoinCat(pre, gap + post);
    }
  }

  lemma {:induction false} GapPieces(ind: string, a: string, b: string, close: string)
    ensures ind + (OPEN_ARRAY + (a + COMMA_LINE + (COMMA_LINE + b)) + close)
         == ind + OPEN_ARRAY + a + (COMMA_LINE + (COMMA_LINE + (b + close)))
    ensures ind + (OPEN_ARRAY + (a + COMMA_LINE + "") + close) == ind + OPEN_ARRAY + a + (COMMA_LINE + close)
    ensures ind + (OPEN_ARRAY + ("" + (COMMA_LINE + b)) + close) == ind + OPEN_ARRAY + (COMMA_LINE + (b + close))
    ensures ind + (OPEN_ARRAY + ("" + "") + close) == ind + OPEN_ARRAY + close
  {
  }

  lemma {:induction false} LexListEnds(ind: string)
    requires AllWs(ind)
    ensures Lex(ind + OPEN_ARRAY) == Toks([LBracket]) && Lex(CloseList(ind)) == Toks([RBracket])
  {
    LexMark(ind, '[', "\n");
    assert ind + ['['] + "\n" == ind + OPEN_ARRAY;
    LexMark("\n" + ind, ']', "");
    assert "\n" + ind + [']'] + "" == CloseList(ind);
  }

  /** One element that prints nothing makes an empty array. */
  lemma {:induction false} LoneGap(ind: string)
    requires AllWs(ind)
    ensures Sound(ListText(ind, [""]), Arr([]))
  {
    GapText(ind, [], []);
    assert [] + [""] + [] == [""];
    LexListEnds(ind);
    LexCat(ind + OPEN_ARRAY, [LBracket], CloseList(ind), [RBracket]);
    assert [LBracket] + [RBracket] == [LBracket] + [] + [RBracket];
  }

  lemma {:induction false} BadNeighbours(a: string, ta: Token, b: string, tb: Token)
    requires Lex(a) == Toks([ta]) && Lex(b) == Toks([tb]) && BadPair(ta, tb)
    ensures Closed(a + b) && Bad(a + b)
  {
    LexCat(a, [ta], b, [tb]);
    assert DefectAt([ta] + [tb], 0);
  }

  /** The gap's two neighbours, where at least one is a comma, and then any closed text. */
  lemma {:induction false} BehindRegroup(a: string, b: string, c: string)
    ensures a + b + c == a + (b + c)
  {
  }

  lemma {:induction false} GapNeighboursBad(ind: string, before: string, t: Token, post: seq<string>)
    requires AllWs(ind) && Lex(before) == Toks([t]) && t in {LBracket, Comma} && (t == LBracket ==> post != [])
    requires forall x :: x in post ==> Closed(x)
    ensures Closed(before + BehindGap(ind, post)) && Bad(before + BehindGap(ind, post))
  {
    LexListEnds(ind);
    LexCommaLine();
    if post == [] {
      BadNeighbours(before, t, CloseList(ind), RBracket);
    } else {
      BadNeighbours(before, t, COMMA_LINE, Comma);
      ClosedJoin(post);
      ClosedCat(Join(post), CloseList(ind));
      ClosedCat(before + COMMA_LINE, Join(post) + CloseList(ind));
      BehindRegroup(before, COMMA_LINE, Join(post) + CloseList(ind));
    }
  }

  /** A gap among other elements makes a list that can be part of no JSON text. */
  lemma {:induction false} GapBad(ind: string, pre: seq<string>, post: seq<string>)
    requires AllWs(ind) && (pre != [] || post != [])
    requires forall x :: x in pre + post ==> Closed(x)
    ensures Closed(ListText(ind, pre + [""] + post)) && Bad(ListText(ind, pre + [""] + post))
  {
    GapText(ind, pre, post);
    LexListEnds(ind);
    LexCommaLine();
    assert forall x :: x in pre ==> x in pre + post;
    assert forall x :: x in post ==> x in pre + post;
    if pre == [] {
      GapNeighboursBad(ind, ind + OPEN_ARRAY, LBracket, post);
    } else {
      GapNeighboursBad(ind, COMMA_LINE, Comma, post);
      ClosedJoin(pre);
      ClosedCat(ind + OPEN_ARRAY, Join(pre));
      ClosedCat(ind + OPEN_ARRAY + Join(pre), COMMA_LINE + BehindGap(ind, post));
    }
  }

  /** A token that is not the next one expected. */
  lemma {:induction false} OtherToken(s: string, t: Token, more: string, ts: seq<Token>)
    requires Lex(s) == Toks([t]) && ts != [] && ts[0] != t
    ensures Diverges(s + more, ts)
  {
    forall rest, tail
      ensures Lex(s + more + rest) != Toks(ts + tail)
    {
      assert s + more + rest == s + (more + rest);
      LexAppend(s, more + rest);
      assert (ts + tail)[0] == ts[0];
      if Lex(more + rest).Toks? {
        assert ([t] + Lex(more + rest).toks)[0] == t;
      }
    }
  }

  /** The tokens of the elements `q` of an array, behind others or not. */
  function ArrayEnd(q: seq<Value>): seq<Token> {
    PrintItems(q) + [RBracket]
  }

  lemma {:induction false} ArrayEndHead(q: seq<Value>)
    ensures ArrayEnd(q) != [] && ArrayEnd(q)[0] != Comma
    ensures q != [] ==> ArrayEnd(q)[0] != RBracket
  {
    if q != [] {
      PrintItemsHead(q);
      PrintItemsClean(q);
      assert PrintItems(q)[0] == Print(q[0])[0];
      PrintClean(q[0]);
    }
  }

  lemma {:induction false} GapTailDiverges(ind: string, post: seq<string>, q: seq<Value>)
    requires AllWs(ind)
    ensures Diverges(COMMA_LINE + BehindGap(ind, post), if q == [] then [RBracket] else [Comma] + ArrayEnd(q))
  {
    LexCommaLine();
    LexListEnds(ind);
    ArrayEndHead(q);
    if q == [] {
      OtherToken(COMMA_LINE, Comma, BehindGap(ind, post), [RBracket]);
    } else {
      if post == [] {
        OtherToken(CloseList(ind), RBracket, "", ArrayEnd(q));
        assert CloseList(ind) + "" == CloseList(ind);
      } else {
        OtherToken(COMMA_LINE, Comma, Join(post) + CloseList(ind), ArrayEnd(q));
      }
      DivergesSecond(COMMA_LINE, [Comma], BehindGap(ind, post), ArrayEnd(q));
    }
  }

  lemma {:induction false} ArrayPieces(p: seq<Value>, q: seq<Value>)
    requires p != []
    ensures Print(Arr(p + q)) == [LBracket] + PrintItems(p) + if q == [] then [RBracket] else [Comma] + ArrayEnd(q)
  {
    if q == [] {
      assert p + q == p;
    } else {
      PrintItemsCat(p, q);
      ArrayRegroup(PrintItems(p), PrintItems(q));
    }
  }

  lemma {:induction false} ArrayRegroup(a: seq<Token>, b: seq<Token>)
    ensures [LBracket] + (a + [Comma] + b) + [RBracket] == [LBracket] + a + ([Comma] + (b + [RBracket]))
  {
  }

  lemma {:induction false} PrintItemsCat(p: seq<Value>, q: seq<Value>)
    requires p != [] && q != []
    ensures PrintItems(p + q) == PrintItems(p) + [Comma] + PrintItems(q)
    decreases |p|
  {
    assert (p + q)[1..] == p[1..] + q;
    if |p| == 1 {
      assert p[1..] + q == q;
    } else {
      PrintItemsCat(p[1..], q);
      TokensRegroup(Print(p[0]) + [Comma], PrintItems(p[1..]), [Comma], PrintItems(q));
    }
  }

  /** A gap among other elements: the list differs from the array of the others in every context. */
  lemma {:induction false} GapDiverges(ind: string, pre: seq<string>, post: seq<string>, p: seq<Value>, oks: seq<bool>,
                                       q: seq<Value>)
    requires AllWs(ind) && (pre != [] || post != []) && LexesAll(pre, p, oks)
    ensures Diverges(ListText(ind, pre + [""] + post), Print(Arr(p + q)))
  {
    GapText(ind, pre, post);
    LexListEnds(ind);
    LexCommaLine();
    if pre == [] {
      ArrayEndHead(q);
      OtherToken(COMMA_LINE, Comma, Join(post) + CloseList(ind), ArrayEnd(q));
      DivergesSecond(ind + OPEN_ARRAY, [LBracket], BehindGap(ind, post), ArrayEnd(q));
      assert p + q == q;
      assert [LBracket] + ArrayEnd(q) == Print(Arr(q));
    } else {
      LexesJoin(pre, p, oks);
      GapTailDiverges(ind, post, q);
      LexesCat(ind + OPEN_ARRAY, [LBracket], true, Join(pre), PrintItems(p), All(oks));
      var tail := if q == [] then [RBracket] else [Comma] + ArrayEnd(q);
      LexesCat(ind + OPEN_ARRAY + Join(pre), [LBracket] + PrintItems(p), All(oks),
               COMMA_LINE + BehindGap(ind, post), tail, false);
      ArrayPieces(p, q);
    }
  }
}
