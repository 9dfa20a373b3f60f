/**
 The part of JSON (RFC 8259) that the api_dump layer and VIA print: objects, arrays and strings
 without escapes. `Decode` is a lexer followed by a recursive-descent parser; `Print` is the token
 sequence of a value. The main results say that the two are inverse, so a text decodes to `v` exactly
 when its tokens are those of `v`.
 */
module Json {

  import opened Options

  datatype Value = Str(text: string) | Arr(items: seq<Value>) | Obj(fields: seq<Field>)

  datatype Field = Field(key: string, value: Value)

  datatype Token = LBrace | RBrace | LBracket | RBracket | Colon | Comma | Text(text: string)

  // ---------- Lexer (RFC 8259 sections 2 and 7) ----------

  datatype Lexed =
    | Toks(toks: seq<Token>)
    | Unterminated           // the text stops inside a string
    | Illegal                // a character that can start no token of this subset
  {
    function Cons(t: Token): Lexed {
      if Toks? then Toks([t] + toks) else this
    }
    function Prepend(ts: seq<Token>): Lexed {
      if Toks? then Toks(ts + toks) else this
    }
  }

  predicate IsWs(c: char) {
    c == ' ' || c == '\t' || c == '\n' || c == '\r'
  }

  predicate AllWs(s: string) {
    forall i :: 0 <= i < |s| ==> IsWs(s[i])
  }

  /** A character that stands for itself inside a JSON string. */
  predicate IsPlainChar(c: char) {
    c >= ' ' && c != '\"' && c != '\\'
  }

  predicate Plain(s: string) {
    forall i :: 0 <= i < |s| ==> IsPlainChar(s[i])
  }

  function Structural(c: char): Option<Token> {
    match c
    case '{' => Some(LBrace)
    case '}' => Some(RBrace)
    case '[' => Some(LBracket)
    case ']' => Some(RBracket)
    case ':' => Some(Colon)
    case ',' => Some(Comma)
    case _ => None
  }

  /** The number of plain characters `s` starts with. */
  function PlainRun(s: string): (n: nat)
    ensures n <= |s| && Plain(s[..n])
    ensures n < |s| ==> !IsPlainChar(s[n])
  {
    if s == [] || !IsPlainChar(s[0]) then 0
    else
      var n := 1 + PlainRun(s[1..]);
      assert forall i :: 1 <= i < n ==> s[..n][i] == s[1..][..n - 1][i - 1];
      n
  }

  function Lex(s: string): Lexed
    decreases |s|
  {
    if s == [] then Toks([])
    else if IsWs(s[0]) then Lex(s[1..])
    else if Structural(s[0]).Some? then Lex(s[1..]).Cons(Structural(s[0]).value)
    else if s[0] == '\"' then
      var n := PlainRun(s[1..]);
      if n + 1 == |s| then Unterminated
      else if s[n + 1] != '\"' then Illegal
      else Lex(s[n + 2..]).Cons(Text(s[1..n + 1]))
    else Illegal
  }

  lemma {:induction false} PlainRunIs(s: string, n: nat)
    requires n <= |s| && Plain(s[..n])
    requires n < |s| ==> !IsPlainChar(s[n])
    ensures PlainRun(s) == n
  {
    if n > 0 {
      assert s[0] == s[..n][0];
      assert s[1..][..n - 1] == s[..n][1..];
      PlainRunIs(s[1..], n - 1);
    }
  }

  /** A string token is the same whatever follows its closing quote. */
  lemma {:induction false} QuoteAppend(a: string, b: string, n: nat)
    requires a != [] && n == PlainRun(a[1..]) && n + 1 < |a|
    ensures PlainRun((a + b)[1..]) == n && (a + b)[n + 1] == a[n + 1]
    ensures (a + b)[1..n + 1] == a[1..n + 1] && (a + b)[n + 2..] == a[n + 2..] + b
  {
    assert (a + b)[1..] == a[1..] + b;
    assert (a[1..] + b)[..n] == a[1..][..n];
    assert (a[1..] + b)[n] == a[n + 1];
    PlainRunIs(a[1..] + b, n);
  }

  /** Lexing is compositional at token boundaries, and an illegal character stays illegal. */
  lemma {:induction false} LexAppend(a: string, b: string)
    ensures Lex(a).Toks? ==> Lex(a + b) == Lex(b).Prepend(Lex(a).toks)
    ensures Lex(a).Illegal? ==> Lex(a + b).Illegal?
    decreases |a|, 1
  {
    if a == [] {
      assert a + b == b;
    } else if IsWs(a[0]) || Structural(a[0]).Some? {
      LexAppend(a[1..], b);
      LexAppendOne(a, b);
    } else if a[0] == '\"' {
      LexAppendQuote(a, b);
    }
  }

  lemma {:induction false} LexOfQuote(s: string, n: nat)
    requires s != [] && s[0] == '\"' && n == PlainRun(s[1..]) && n + 1 < |s|
    ensures Lex(s) == if s[n + 1] != '\"' then Illegal else Lex(s[n + 2..]).Cons(Text(s[1..n + 1]))
  {
  }

  lemma {:induction false} ConsPrepend(l: Lexed, t: Token, r: Lexed)
    requires l.Toks?
    ensures r.Prepend(l.toks).Cons(t) == r.Prepend(l.Cons(t).toks)
  {
    if r.Toks? {
      assert [t] + (l.toks + r.toks) == [t] + l.toks + r.toks;
    }
  }

  lemma {:induction false} LexOfOne(s: string)
    requires s != [] && (IsWs(s[0]) || Structural(s[0]).Some?)
    ensures Lex(s) == if IsWs(s[0]) then Lex(s[1..]) else Lex(s[1..]).Cons(Structural(s[0]).value)
  {
  }

  lemma {:induction false} LexAppendOne(a: string, b: string)
    requires a != [] && (IsWs(a[0]) || Structural(a[0]).Some?)
    requires Lex(a[1..]).Toks? ==> Lex(a[1..] + b) == Lex(b).Prepend(Lex(a[1..]).toks)
    requires Lex(a[1..]).Illegal? ==> Lex(a[1..] + b).Illegal?
    ensures Lex(a).Toks? ==> Lex(a + b) == Lex(b).Prepend(Lex(a).toks)
    ensures Lex(a).Illegal? ==> Lex(a + b).Illegal?
  {
    var rest := a[1..];
    assert (a + b)[0] == a[0] && (a + b)[1..] == rest + b;
    LexOfOne(a);
    LexOfOne(a + b);
    if !IsWs(a[0]) && Lex(rest).Toks? {
      ConsPrepend(Lex(rest), Structural(a[0]).value, Lex(b));
    }
  }

  lemma {:induction false} LexAppendQuote(a: string, b: string)
    requires a != [] && a[0] == '\"'
    ensures Lex(a).Toks? ==> Lex(a + b) == Lex(b).Prepend(Lex(a).toks)
    ensures Lex(a).Illegal? ==> Lex(a + b).Illegal?
    decreases |a|, 0
  {
    var n := PlainRun(a[1..]);
    if n + 1 < |a| {
      QuoteAppend(a, b, n);
      assert (a + b)[0] == a[0];
      LexOfQuote(a, n);
      LexOfQuote(a + b, n);
      if a[n + 1] == '\"' {
        var rest := a[n + 2..];
        LexAppend(rest, b);
        if Lex(rest).Toks? {
          ConsPrepend(Lex(rest), Text(a[1..n + 1]), Lex(b));
        }
      }
    }
  }

  /** Two texts that lex lex together. */
  lemma {:induction false} LexCat(a: string, ta: seq<Token>, b: string, tb: seq<Token>)
    requires Lex(a) == Toks(ta) && Lex(b) == Toks(tb)
    ensures Lex(a + b) == Toks(ta + tb)
  {
    LexAppend(a, b);
  }

  lemma {:induction false} LexWs(s: string)
    requires AllWs(s)
    ensures Lex(s) == Toks([])
  {
    if s != [] {
      LexWs(s[1..]);
    }
  }

  function Quote(s: string): string {
    "\"" + s + "\""
  }

  lemma {:induction false} LexQuote(s: string)
    requires Plain(s)
    ensures Lex(Quote(s)) == Toks([Text(s)])
  {
    var q := Quote(s);
    assert q[1..][..|s|] == s;
    assert q[1..][|s|] == '\"';
    PlainRunIs(q[1..], |s|);
    assert q[|s| + 2..] == [];
    assert q[1..|s| + 1] == s;
  }

  /** Writing a C string raw between quotes is right exactly for the strings that need no escaping. */
  lemma {:induction false} QuoteIffPlain(s: string)
    ensures Lex(Quote(s)) == Toks([Text(s)]) <==> Plain(s)
  {
    if Plain(s) {
      LexQuote(s);
    } else {
      var k :| 0 <= k < |s| && !IsPlainChar(s[k]);
      PlainRunStops(s + "\"", k);
      var q := Quote(s);
      assert q[1..] == s + "\"";
      var n := PlainRun(q[1..]);
      if Lex(q).Toks? {
        assert Lex(q).toks[0] == Text(q[1..n + 1]);
        assert |q[1..n + 1]| < |s|;
      }
    }
  }

  lemma {:induction false} PlainRunStops(s: string, k: nat)
    requires k < |s| && !IsPlainChar(s[k])
    ensures PlainRun(s) <= k
  {
    if k > 0 {
      PlainRunStops(s[1..], k - 1);
    }
  }

  // ---------- Token sequence of a value ----------

  function Print(v: Value): (ts: seq<Token>)
    ensures |ts| > 0
    decreases v, 1
  {
    match v
    case Str(s) => [Text(s)]
    case Arr(items) => [LBracket] + PrintItems(items) + [RBracket]
    case Obj(fields) => [LBrace] + PrintFields(fields) + [RBrace]
  }

  function PrintItems(items: seq<Value>): seq<Token>
    decreases items, 0
  {
    if items == [] then []
    else if |items| == 1 then Print(items[0])
    else Print(items[0]) + [Comma] + PrintItems(items[1..])
  }

  function PrintField(f: Field): seq<Token>
    decreases f, 2
  {
    [Text(f.key), Colon] + Print(f.value)
  }

  function PrintFields(fields: seq<Field>): seq<Token>
    decreases fields, 0
  {
    if fields == [] then []
    else if |fields| == 1 then PrintField(fields[0])
    else PrintField(fields[0]) + [Comma] + PrintFields(fields[1..])
  }

  // ---------- Parser (RFC 8259 sections 3, 4 and 5) ----------

  function ParseValue(ts: seq<Token>): (r: Option<(Value, seq<Token>)>)
    ensures r.Some? ==> |r.value.1| < |ts|
    decreases |ts|, 1
  {
    if ts == [] then None
    else match ts[0]
      case Text(s) => Some((Str(s), ts[1..]))
      case LBracket =>
        if |ts| > 1 && ts[1] == RBracket then Some((Arr([]), ts[2..]))
        else (match ParseItems(ts[1..])
              case None => None
              case Some(p) => Some((Arr(p.0), p.1)))
      case LBrace =>
        if |ts| > 1 && ts[1] == RBrace then Some((Obj([]), ts[2..]))
        else (match ParseFields(ts[1..])
              case None => None
              case Some(p) => Some((Obj(p.0), p.1)))
      case _ => None
  }

  /** One or more values, separated by commas and closed by a bracket. */
  function ParseItems(ts: seq<Token>): (r: Option<(seq<Value>, seq<Token>)>)
    ensures r.Some? ==> |r.value.1| < |ts| && |r.value.0| > 0
    decreases |ts|, 2
  {
    match ParseValue(ts)
    case None => None
    case Some((v, rest)) =>
      if rest == [] then None
      else if rest[0] == RBracket then Some(([v], rest[1..]))
      else if rest[0] == Comma then
        (match ParseItems(rest[1..])
         case None => None
         case Some((vs, rest')) => Some(([v] + vs, rest')))
      else None
  }

  /** One or more members, separated by commas and closed by a brace. */
  function ParseFields(ts: seq<Token>): (r: Option<(seq<Field>, seq<Token>)>)
    ensures r.Some? ==> |r.value.1| < |ts| && |r.value.0| > 0
    decreases |ts|, 2
  {
    if |ts| < 2 || !ts[0].Text? || ts[1] != Colon then None
    else match ParseValue(ts[2..])
      case None => None
      case Some((v, rest)) =>
        var f := Field(ts[0].text, v);
        if rest == [] then None
        else if rest[0] == RBrace then Some(([f], rest[1..]))
        else if rest[0] == Comma then
          (match ParseFields(rest[1..])
           case None => None
           case Some((fs, rest')) => Some(([f] + fs, rest')))
        else None
  }

  // ---------- Soundness: what parses was printed ----------

  lemma {:induction false} ParseValueSound(ts: seq<Token>)
    requires ParseValue(ts).Some?
    ensures ts == Print(ParseValue(ts).value.0) + ParseValue(ts).value.1
    decreases |ts|, 1
  {
    match ts[0]
    case Text(s) =>
    case LBracket =>
      if |ts| > 1 && ts[1] == RBracket {
      } else {
        ParseItemsSound(ts[1..]);
        assert ts == [LBracket] + ts[1..];
      }
    case LBrace =>
      if |ts| > 1 && ts[1] == RBrace {
      } else {
        ParseFieldsSound(ts[1..]);
        assert ts == [LBrace] + ts[1..];
      }
    case _ =>
  }

  lemma {:induction false} ParseItemsSound(ts: seq<Token>)
    requires ParseItems(ts).Some?
    ensures ts == PrintItems(ParseItems(ts).value.0) + [RBracket] + ParseItems(ts).value.1
    decreases |ts|, 2
  {
    ParseValueSound(ts);
    var (v, rest) := ParseValue(ts).value;
    if rest[0] == RBracket {
      assert rest == [RBracket] + rest[1..];
    } else {
      ParseItemsSound(rest[1..]);
      var (vs, rest') := ParseItems(rest[1..]).value;
      JoinItems(ts, v, rest, vs, rest');
    }
  }

  lemma {:induction false} JoinItems(ts: seq<Token>, v: Value, rest: seq<Token>, vs: seq<Value>, rest': seq<Token>)
    requires ts == Print(v) + rest && rest != [] && rest[0] == Comma && vs != []
    requires rest[1..] == PrintItems(vs) + [RBracket] + rest'
    ensures ts == PrintItems([v] + vs) + [RBracket] + rest'
  {
    assert ([v] + vs)[1..] == vs;
    assert rest == [Comma] + rest[1..];
    CommaRegroup(Print(v), PrintItems(vs), RBracket, rest');
  }

  lemma {:induction false} ParseFieldsSound(ts: seq<Token>)
    requires ParseFields(ts).Some?
    ensures ts == PrintFields(ParseFields(ts).value.0) + [RBrace] + ParseFields(ts).value.1
    decreases |ts|, 2
  {
    ParseValueSound(ts[2..]);
    var f, rest := ParseFieldsStep(ts);
    if rest[0] == RBrace {
      JoinLastField(ts, f, rest);
    } else {
      ParseFieldsSound(rest[1..]);
      var (fs, rest') := ParseFields(rest[1..]).value;
      JoinFields(ts, f, rest, fs, rest');
    }
  }

  lemma {:induction false} JoinLastField(ts: seq<Token>, f: Field, rest: seq<Token>)
    requires ts == PrintField(f) + rest && rest != [] && rest[0] == RBrace
    ensures ts == PrintFields([f]) + [RBrace] + rest[1..]
  {
    assert rest == [RBrace] + rest[1..];
  }

  lemma {:induction false} JoinFields(ts: seq<Token>, f: Field, rest: seq<Token>, fs: seq<Field>, rest': seq<Token>)
    requires ts == PrintField(f) + rest && rest != [] && rest[0] == Comma && fs != []
    requires rest[1..] == PrintFields(fs) + [RBrace] + rest'
    ensures ts == PrintFields([f] + fs) + [RBrace] + rest'
  {
    assert ([f] + fs)[1..] == fs;
    assert rest == [Comma] + rest[1..];
    CommaRegroup(PrintField(f), PrintFields(fs), RBrace, rest');
  }

  lemma {:induction false} CommaRegroup(x: seq<Token>, y: seq<Token>, close: Token, rest: seq<Token>)
    ensures x + ([Comma] + (y + [close] + rest)) == (x + [Comma] + y) + [close] + rest
  {
  }

  lemma {:induction false} RegroupTokens(x: seq<Token>, y: seq<Token>, z: seq<Token>)
    ensures x + y + z == x + (y + z)
  {
  }

  /** The first member of an object, and what parsing does with the tokens behind it. */
  lemma {:induction false} ParseFieldsStep(ts: seq<Token>) returns (f: Field, rest: seq<Token>)
    requires ParseFields(ts).Some?
    requires ts[2..] == Print(ParseValue(ts[2..]).value.0) + ParseValue(ts[2..]).value.1
    ensures ts == PrintField(f) + rest
    ensures 0 < |rest| < |ts| && (rest[0] == RBrace || rest[0] == Comma)
    ensures rest[0] == RBrace ==> ParseFields(ts) == Some(([f], rest[1..]))
    ensures rest[0] == Comma ==> ParseFields(rest[1..]).Some?
    ensures rest[0] == Comma ==>
              ParseFields(ts) == Some(([f] + ParseFields(rest[1..]).value.0, ParseFields(rest[1..]).value.1))
  {
    f := Field(ts[0].text, ParseValue(ts[2..]).value.0);
    rest := ParseValue(ts[2..]).value.1;
    assert ts == [Text(f.key), Colon] + ts[2..];
  }

  // ---------- Completeness: what is printed parses ----------

  lemma {:induction false} ParsePrint(v: Value, rest: seq<Token>)
    ensures ParseValue(Print(v) + rest) == Some((v, rest))
    decreases v, 1
  {
    var ts := Print(v) + rest;
    match v
    case Str(s) =>
      assert ts[1..] == rest;
    case Arr(items) => ParsePrintArr(items, rest);
    case Obj(fields) => ParsePrintObj(fields, rest);
  }

  lemma {:induction false} ParsePrintArr(items: seq<Value>, rest: seq<Token>)
    ensures ParseValue(Print(Arr(items)) + rest) == Some((Arr(items), rest))
    decreases items, 1
  {
    var ts := Print(Arr(items)) + rest;
    if items == [] {
      assert PrintItems(items) == [];
      assert ts == [LBracket, RBracket] + rest;
    } else {
      ParsePrintItems(items, rest);
      assert ts[1..] == PrintItems(items) + [RBracket] + rest;
      PrintItemsHead(items);
      assert ts[1] == PrintItems(items)[0];
    }
  }

  lemma {:induction false} ParsePrintObj(fields: seq<Field>, rest: seq<Token>)
    ensures ParseValue(Print(Obj(fields)) + rest) == Some((Obj(fields), rest))
    decreases fields, 1
  {
    var ts := Print(Obj(fields)) + rest;
    if fields == [] {
      assert PrintFields(fields) == [];
      assert ts == [LBrace, RBrace] + rest;
    } else {
      ParsePrintFields(fields, rest);
      assert ts[1..] == PrintFields(fields) + [RBrace] + rest;
      assert ts[1] == PrintFields(fields)[0] == Text(fields[0].key);
    }
  }

  lemma {:induction false} PrintItemsHead(items: seq<Value>)
    requires items != []
    ensures PrintItems(items) != [] && PrintItems(items)[0] != RBracket
  {
    assert PrintItems(items)[0] == Print(items[0])[0];
  }

  lemma {:induction false} ParseItemsLast(ts: seq<Token>, v: Value, rest: seq<Token>)
    requires ParseValue(ts) == Some((v, [RBracket] + rest))
    ensures ParseItems(ts) == Some(([v], rest))
  {
    assert ([RBracket] + rest)[1..] == rest;
  }

  lemma {:induction false} ParseItemsMore(ts: seq<Token>, v: Value, tail: seq<Token>, vs: seq<Value>, rest: seq<Token>)
    requires ParseValue(ts) == Some((v, [Comma] + tail)) && ParseItems(tail) == Some((vs, rest))
    ensures ParseItems(ts) == Some(([v] + vs, rest))
  {
    assert ([Comma] + tail)[1..] == tail;
  }

  lemma {:induction false} ParsePrintItems(items: seq<Value>, rest: seq<Token>)
    requires items != []
    ensures ParseItems(PrintItems(items) + [RBracket] + rest) == Some((items, rest))
    decreases items, 0
  {
    var v, ts := items[0], PrintItems(items) + [RBracket] + rest;
    if |items| == 1 {
      ParsePrint(v, [RBracket] + rest);
      RegroupTokens(Print(v), [RBracket], rest);
      ParseItemsLast(ts, v, rest);
      assert items == [v];
    } else {
      var tail := PrintItems(items[1..]) + [RBracket] + rest;
      ParsePrint(v, [Comma] + tail);
      CommaRegroup(Print(v), PrintItems(items[1..]), RBracket, rest);
      ParsePrintItems(items[1..], rest);
      ParseItemsMore(ts, v, tail, items[1..], rest);
      assert items == [v] + items[1..];
    }
  }

  lemma {:induction false} ParseFieldsLast(f: Field, after: seq<Token>, rest: seq<Token>)
    requires ParseValue(after) == Some((f.value, [RBrace] + rest))
    ensures ParseFields([Text(f.key), Colon] + after) == Some(([f], rest))
  {
    assert ([Text(f.key), Colon] + after)[2..] == after;
    assert ([RBrace] + rest)[1..] == rest;
  }

  lemma {:induction false} ParseFieldsMore(f: Field, after: seq<Token>, tail: seq<Token>, fs: seq<Field>,
                                           rest: seq<Token>)
    requires ParseValue(after) == Some((f.value, [Comma] + tail)) && ParseFields(tail) == Some((fs, rest))
    ensures ParseFields([Text(f.key), Colon] + after) == Some(([f] + fs, rest))
  {
    assert ([Text(f.key), Colon] + after)[2..] == after;
    assert ([Comma] + tail)[1..] == tail;
  }

  lemma {:induction false} ParsePrintFields(fields: seq<Field>, rest: seq<Token>)
    requires fields != []
    ensures ParseFields(PrintFields(fields) + [RBrace] + rest) == Some((fields, rest))
    decreases fields, 0
  {
    var f := fields[0];
    var head, value := [Text(f.key), Colon], Print(f.value);
    if |fields| == 1 {
      var after := value + ([RBrace] + rest);
      ParsePrint(f.value, [RBrace] + rest);
      RegroupTokens(head + value, [RBrace], rest);
      RegroupTokens(head, value, [RBrace] + rest);
      ParseFieldsLast(f, after, rest);
      assert fields == [f];
    } else {
      var tail := PrintFields(fields[1..]) + [RBrace] + rest;
      var after := value + ([Comma] + tail);
      ParsePrint(f.value, [Comma] + tail);
      CommaRegroup(head + value, PrintFields(fields[1..]), RBrace, rest);
      RegroupTokens(head, value, [Comma] + tail);
      ParsePrintFields(fields[1..], rest);
      ParseFieldsMore(f, after, tail, fields[1..], rest);
      assert fields == [f] + fields[1..];
    }
  }

  // ---------- Whole texts ----------

  /** A JSON text: one value and nothing after it. */
  function Decode(s: string): Option<Value> {
    match Lex(s)
    case Toks(ts) =>
      (match ParseValue(ts)
       case Some((v, rest)) => if rest == [] then Some(v) else None
       case None => None)
    case _ => None
  }

  lemma {:induction false} DecodeIff(s: string, v: Value)
    ensures Decode(s) == Some(v) <==> Lex(s) == Toks(Print(v))
  {
    match Lex(s)
    case Toks(ts) =>
      if ParseValue(ts).Some? {
        ParseValueSound(ts);
      }
      ParsePrint(v, []);
      assert Print(v) + [] == Print(v);
      if Decode(s) == Some(v) {
        assert ts == Print(v) + [];
      }
    case _ =>
  }

  // ---------- Marks of token sequences that print no value ----------

  /** Opening minus closing braces. */
  function Braces(ts: seq<Token>): int {
    if ts == [] then 0
    else (if ts[0] == LBrace then 1 else if ts[0] == RBrace then -1 else 0) + Braces(ts[1..])
  }

  lemma {:induction false} BracesCat(a: seq<Token>, b: seq<Token>)
    ensures Braces(a + b) == Braces(a) + Braces(b)
  {
    if a == [] {
      assert a + b == b;
    } else {
      BracesCat(a[1..], b);
      assert (a + b)[1..] == a[1..] + b;
    }
  }

  lemma {:induction false} PrintBraces(v: Value)
    ensures Braces(Print(v)) == 0
    decreases v, 1
  {
    match v
    case Str(s) =>
    case Arr(items) =>
      PrintItemsBraces(items);
      BracesCat([LBracket], PrintItems(items));
      BracesCat([LBracket] + PrintItems(items), [RBracket]);
    case Obj(fields) =>
      PrintFieldsBraces(fields);
      BracesCat([LBrace], PrintFields(fields));
      BracesCat([LBrace] + PrintFields(fields), [RBrace]);
  }

  lemma {:induction false} PrintItemsBraces(items: seq<Value>)
    ensures Braces(PrintItems(items)) == 0
    decreases items, 0
  {
    if items != [] {
      PrintBraces(items[0]);
      if |items| > 1 {
        PrintItemsBraces(items[1..]);
        BracesCat(Print(items[0]), [Comma]);
        BracesCat(Print(items[0]) + [Comma], PrintItems(items[1..]));
      }
    }
  }

  lemma {:induction false} PrintFieldsBraces(fields: seq<Field>)
    ensures Braces(PrintFields(fields)) == 0
    decreases fields, 0
  {
    if fields != [] {
      var f := fields[0];
      PrintBraces(f.value);
      BracesCat([Text(f.key), Colon], Print(f.value));
      if |fields| > 1 {
        PrintFieldsBraces(fields[1..]);
        BracesCat(PrintField(f), [Comma]);
        BracesCat(PrintField(f) + [Comma], PrintFields(fields[1..]));
      }
    }
  }

  /** Neighbours that no value has: a comma with nothing in front of it or behind it. */
  predicate BadPair(a: Token, b: Token) {
    (a == Comma && b in {RBrace, RBracket, Comma}) || (a == LBracket && b == Comma)
  }

  /** A comma without an element or member, or a member without a value, at position `i`. */
  predicate DefectAt(ts: seq<Token>, i: nat) {
    || (i + 1 < |ts| && BadPair(ts[i], ts[i + 1]))
    || (i + 2 < |ts| && ts[i] == Colon && ts[i + 1].Text? && ts[i + 2] == Colon)
  }

  ghost predicate Defective(ts: seq<Token>) {
    exists i: nat :: DefectAt(ts, i)
  }

  lemma {:induction false} DefectiveInside(a: seq<Token>, b: seq<Token>, c: seq<Token>)
    requires Defective(b)
    ensures Defective(a + b + c)
  {
    var i: nat :| DefectAt(b, i);
    assert forall j :: 0 <= j < |b| ==> (a + b + c)[|a| + j] == b[j];
    assert DefectAt(a + b + c, |a| + i);
  }

  /** Putting two clean sequences side by side makes a defect only across the seam. */
  lemma {:induction false} CleanCat(a: seq<Token>, b: seq<Token>)
    requires !Defective(a) && !Defective(b) && |a| > 0 && |b| > 0
    requires !BadPair(a[|a| - 1], b[0])
    requires a[|a| - 1] == Colon && b[0].Text? ==> |b| == 1 || b[1] != Colon
    requires b[0] == Colon ==> |a| == 1 || a[|a| - 2] != Colon
    ensures !Defective(a + b)
  {
    forall i: nat ensures !DefectAt(a + b, i) {
      assert !DefectAt(a, i);
      if i >= |a| {
        assert !DefectAt(b, i - |a|);
      }
    }
  }

  /** The tokens of a value contain no defect; the rest says how they can meet their neighbours. */
  lemma {:induction false} PrintClean(v: Value)
    ensures !Defective(Print(v))
    ensures var ts := Print(v); ts[0].LBrace? || ts[0].LBracket? || (ts[0].Text? && |ts| == 1)
    ensures var ts := Print(v); ts[|ts| - 1] != Comma && ts[|ts| - 1] != Colon
    decreases v, 1
  {
    match v
    case Str(s) =>
    case Arr(items) =>
      PrintItemsClean(items);
      if items != [] {
        CleanCat([LBracket], PrintItems(items));
        CleanCat([LBracket] + PrintItems(items), [RBracket]);
      } else {
        assert Print(v) == [LBracket, RBracket];
      }
    case Obj(fields) =>
      PrintFieldsClean(fields);
      if fields != [] {
        CleanCat([LBrace], PrintFields(fields));
        CleanCat([LBrace] + PrintFields(fields), [RBrace]);
      } else {
        assert Print(v) == [LBrace, RBrace];
      }
  }

  lemma {:induction false} PrintItemsClean(items: seq<Value>)
    ensures !Defective(PrintItems(items))
    ensures items != [] ==> var ts := PrintItems(items);
              |ts| > 0 && !ts[0].Colon? && (ts[0].Text? && |ts| > 1 ==> ts[1] == Comma)
              && ts[|ts| - 1] != Comma && ts[|ts| - 1] != Colon
    decreases items, 0
  {
    if items != [] {
      var first := Print(items[0]);
      PrintClean(items[0]);
      if |items| > 1 {
        var rest := PrintItems(items[1..]);
        PrintItemsClean(items[1..]);
        CleanCat(first, [Comma]);
        CleanCat(first + [Comma], rest);
      }
    }
  }

  lemma {:induction false} PrintFieldsClean(fields: seq<Field>)
    ensures !Defective(PrintFields(fields))
    ensures fields != [] ==> var ts := PrintFields(fields);
              |ts| > 2 && ts[0].Text? && ts[1] == Colon && ts[|ts| - 1] != Comma && ts[|ts| - 1] != Colon
    decreases fields, 0
  {
    if fields != [] {
      var f := fields[0];
      PrintClean(f.value);
      CleanCat([Text(f.key), Colon], Print(f.value));
      if |fields| > 1 {
        var rest := PrintFields(fields[1..]);
        PrintFieldsClean(fields[1..]);
        CleanCat(PrintField(f), [Comma]);
        CleanCat(PrintField(f) + [Comma], rest);
      }
    }
  }

  /** Illegal, defective or unbalanced texts are not JSON. */
  lemma {:induction false} NotJson(s: string)
    requires Lex(s).Illegal? || (Lex(s).Toks? && (Defective(Lex(s).toks) || Braces(Lex(s).toks) != 0))
    ensures Decode(s) == None
  {
    if Decode(s).Some? {
      var v := Decode(s).value;
      DecodeIff(s, v);
      PrintClean(v);
      PrintBraces(v);
    }
  }
}
