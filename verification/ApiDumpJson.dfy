/**
 What the text of a run is. `RunIsJson`: it is one JSON array with an object for every frame in range, holding
 that frame's calls in order, exactly when the run ends well and every dumped call is one the writers print as
 JSON; for every other run it is no JSON text at all.
 */
module ApiDumpJson {
  import opened Options
  import opened Json
  import opened JsonText
  import opened Numerals
  import opened ApiDumpValues
  import opened ApiDumpRun

  // ---------- The values ----------

  function HeadFields(st: Settings, c: Call): seq<Field> {
    [TextField(NAME, c.name)]
    + (if st.showThreadAndFrame then [TextField(THREAD, ThreadName(c))] else [])
    + (if st.showTimestamp then [TextField(TIME, TimeText(c))] else [])
    + [TextField(RETURN_TYPE, c.returnType)]
  }

  function ResultFields(c: Call): seq<Field> {
    if c.result.Some? then [TextField(RETURN_VALUE, c.result.value)] else []
  }

  function CallJs(st: Settings, c: Call): Json.Value {
    Obj(HeadFields(st, c) + ResultFields(c)
        + if st.showParams then [Field(ARGS, Arr(ItemsJs(st, c.args)))] else [])
  }

  function CallsJs(st: Settings, cs: seq<Call>): (vs: seq<Json.Value>)
    ensures |vs| == |cs|
  {
    seq(|cs|, i requires 0 <= i < |cs| => CallJs(st, cs[i]))
  }

  function FrameFields(st: Settings, k: nat): seq<Field> {
    if st.showThreadAndFrame then [TextField(FRAME_NUMBER, Decimal(k))] else []
  }

  function FrameJs(st: Settings, k: nat, cs: seq<Call>): Json.Value {
    Obj(FrameFields(st, k) + [Field(API_CALLS, Arr(CallsJs(st, cs)))])
  }

  /** The frames in range below `n`, in order. */
  function FramesJs(cfg: Config, h: seq<seq<Call>>, n: nat): seq<Json.Value>
    requires n <= |h|
  {
    if n == 0 then []
    else FramesJs(cfg, h, n - 1) + if cfg.inRange(n - 1) then [FrameJs(cfg.st, n - 1, h[n - 1])] else []
  }

  // ---------- The conditions ----------

  predicate PlainCall(c: Call) {
    && Plain(c.name) && Plain(c.returnType)
    && (c.result.Some? ==> Plain(c.result.value))
    && forall i :: 0 <= i < |c.args| ==> PlainItem(c.args[i])
  }

  predicate PlainHistory(h: seq<seq<Call>>) {
    forall k, i :: 0 <= k < |h| && 0 <= i < |h[k]| ==> PlainCall(h[k][i])
  }

  /** A call the writers print as JSON: known argument types, and something behind the return type. */
  predicate GoodCall(st: Settings, c: Call) {
    && (st.showParams ==> GoodItems(c.args))
    && (c.result.Some? || st.showParams)
  }

  predicate GoodCalls(st: Settings, cs: seq<Call>) {
    forall i :: 0 <= i < |cs| ==> GoodCall(st, cs[i])
  }

  predicate GoodFrames(cfg: Config, h: seq<seq<Call>>) {
    forall k :: 0 <= k < |h| && cfg.inRange(k) ==> GoodCalls(cfg.st, h[k])
  }

  /**
   The run ends in an in-range frame that dumped a call or is frame 0, or in an out-of-range frame after at
   least one present.
   */
  predicate EndsWell(cfg: Config, h: History) {
    if cfg.inRange(|h| - 1) then |h| == 1 || Last(h) != [] else |h| > 1
  }

  // ---------- Calls ----------

  lemma {:induction false} HeadSound(st: Settings, c: Call)
    requires PlainCall(c)
    ensures SoundLines(HeadLines(st, c), HeadFields(st, c))
  {
    KeysPlain();
    RunKeysPlain();
    DigitsPlain(Decimal(c.thread));
    DigitsPlain(Decimal(c.time));
    TextLineOk(NAME, c.name);
    TextLineOk(RETURN_TYPE, c.returnType);
    var ls, fs := [TextLine(NAME, c.name)], [TextField(NAME, c.name)];
    if st.showThreadAndFrame {
      SoundSnoc(ls, fs, THREAD, ThreadName(c));
      ls, fs := ls + [TextLine(THREAD, ThreadName(c))], fs + [TextField(THREAD, ThreadName(c))];
    }
    if st.showTimestamp {
      SoundSnoc(ls, fs, TIME, TimeText(c));
      ls, fs := ls + [TextLine(TIME, TimeText(c))], fs + [TextField(TIME, TimeText(c))];
    }
    SoundSnoc(ls, fs, RETURN_TYPE, c.returnType);
    assert ls + [TextLine(RETURN_TYPE, c.returnType)] == HeadLines(st, c);
    assert fs + [TextField(RETURN_TYPE, c.returnType)] == HeadFields(st, c);
  }

  function ResultLines(c: Call): seq<Line> {
    if c.result.Some? then [TextLine(RETURN_VALUE, c.result.value)] else []
  }

  /** Head and body together are one object, as long as the body has a line. */
  lemma {:induction false} ReturningCallIsObject(st: Settings, c: Call)
    requires c.result.Some?
    ensures CallText(st, c)
         == ObjectText(Indentation(st, 2), Indentation(st, 3),
              HeadLines(st, c) + ResultLines(c) + if st.showParams then [ArgsLine(st, c)] else [])
  {
    var i2, i3 := Indentation(st, 2), Indentation(st, 3);
    var hs, r := Lines(i3, HeadLines(st, c)), TextLine(RETURN_VALUE, c.result.value);
    if st.showParams {
      assert Lines(i3, HeadLines(st, c) + ResultLines(c) + [ArgsLine(st, c)])
          == hs + [LineText(i3, r)] + [LineText(i3, ArgsLine(st, c))];
      JoinSnoc(hs, LineText(i3, r));
      JoinSnoc(hs + [LineText(i3, r)], LineText(i3, ArgsLine(st, c)));
      Brackets2(i2, Join(hs), LineText(i3, r), LineText(i3, ArgsLine(st, c)));
    } else {
      assert Lines(i3, HeadLines(st, c) + ResultLines(c) + []) == hs + [LineText(i3, r)];
      JoinSnoc(hs, LineText(i3, r));
      Brackets1(i2, Join(hs), LineText(i3, r));
    }
  }

  lemma {:induction false} CallIsObject(st: Settings, c: Call)
    requires c.result.Some? || st.showParams
    ensures CallText(st, c)
         == ObjectText(Indentation(st, 2), Indentation(st, 3),
              HeadLines(st, c) + ResultLines(c) + if st.showParams then [ArgsLine(st, c)] else [])
  {
    var i2, i3 := Indentation(st, 2), Indentation(st, 3);
    var hs := Lines(i3, HeadLines(st, c));
    if c.result.Some? {
      ReturningCallIsObject(st, c);
    } else {
      assert Lines(i3, HeadLines(st, c) + ResultLines(c) + [ArgsLine(st, c)]) == hs + [LineText(i3, ArgsLine(st, c))];
      JoinSnoc(hs, LineText(i3, ArgsLine(st, c)));
      Brackets0(i2, Join(hs), LineText(i3, ArgsLine(st, c)));
    }
  }

  lemma {:induction false} Brackets2(ind: string, a: string, b: string, c: string)
    ensures ind + (OPEN_OBJECT + (a + COMMA_LINE)) + (b + COMMA_LINE + (c + "\n") + (ind + "}"))
         == ind + (OPEN_OBJECT + (a + COMMA_LINE + b + COMMA_LINE + c) + ("\n" + ind + "}"))
  {
  }

  lemma {:induction false} Brackets1(ind: string, a: string, b: string)
    ensures ind + (OPEN_OBJECT + (a + COMMA_LINE)) + (b + "\n" + "" + (ind + "}"))
         == ind + (OPEN_OBJECT + (a + COMMA_LINE + b) + ("\n" + ind + "}"))
  {
  }

  lemma {:induction false} Brackets0(ind: string, a: string, b: string)
    ensures ind + (OPEN_OBJECT + (a + COMMA_LINE)) + ("" + (b + "\n") + (ind + "}"))
         == ind + (OPEN_OBJECT + (a + COMMA_LINE + b) + ("\n" + ind + "}"))
  {
  }

  lemma {:induction false} CallRight(st: Settings, c: Call)
    requires PlainCall(c)
    ensures Right(CallText(st, c), GoodCall(st, c), CallJs(st, c))
  {
    HeadSound(st, c);
    RunKeysPlain();
    if c.result.Some? || st.showParams {
      var i2, i3 := Indentation(st, 2), Indentation(st, 3);
      var ls, fs := HeadLines(st, c) + ResultLines(c), HeadFields(st, c) + ResultFields(c);
      CallIsObject(st, c);
      if c.result.Some? {
        SoundSnoc(HeadLines(st, c), HeadFields(st, c), RETURN_VALUE, c.result.value);
      } else {
        assert ls == HeadLines(st, c) && fs == HeadFields(st, c);
      }
      if st.showParams {
        ArgsRight(st, c);
        RightObject(i2, i3, ls, fs, ArgsLine(st, c), GoodCall(st, c), Arr(ItemsJs(st, c.args)));
      } else {
        assert ls + [] == ls && fs + [] == fs;
        SoundObject(i2, i3, ls, fs);
      }
    } else {
      HeadOnlyBad(st, c);
    }
  }

  lemma {:induction false} ArgsRight(st: Settings, c: Call)
    requires PlainCall(c) && st.showParams
    ensures RightLine(Indentation(st, 3), ArgsLine(st, c), GoodCall(st, c), Arr(ItemsJs(st, c.args)))
  {
    RunKeysPlain();
    ItemListRight(st, c.args, 3, 4);
    RightBody(Indentation(st, 3), ArgsLine(st, c), GoodCall(st, c), Arr(ItemsJs(st, c.args)));
  }

  /** A void function with its parameters hidden: the comma behind the return type meets the closing brace. */
  lemma {:induction false} HeadOnlyBad(st: Settings, c: Call)
    requires PlainCall(c) && c.result.None? && !st.showParams
    ensures Closed(CallText(st, c)) && Bad(CallText(st, c))
  {
    HeadSound(st, c);
    var i2, i3 := Indentation(st, 2), Indentation(st, 3);
    LexJoinLines(i3, HeadLines(st, c), HeadFields(st, c));
    DanglingComma(i2, Join(Lines(i3, HeadLines(st, c))), PrintFields(HeadFields(st, c)));
  }

  lemma {:induction false} DanglingComma(ind: string, head: string, ts: seq<Token>)
    requires AllWs(ind) && Lex(head) == Toks(ts)
    ensures var text := ind + (OPEN_OBJECT + (head + COMMA_LINE)) + ("" + "" + (ind + "}")); Closed(text) && Bad(text)
  {
    LexMark(ind, '{', "\n");
    LexCommaLine();
    LexMark(ind, '}', "");
    var open, close := ind + ['{'] + "\n", ind + ['}'] + "";
    LexCat(open, [LBrace], head, ts);
    LexCat(open + head, [LBrace] + ts, COMMA_LINE, [Comma]);
    LexCat(open + head + COMMA_LINE, [LBrace] + ts + [Comma], close, [RBrace]);
    assert open == ind + OPEN_OBJECT && close == ind + "}";
    DanglingRegroup(ind, OPEN_OBJECT, head, COMMA_LINE, "}");
    assert DefectAt([LBrace] + ts + [Comma] + [RBrace], |ts| + 1);
  }

  lemma {:induction false} DanglingRegroup(ind: string, open: string, head: string, comma: string, close: string)
    ensures (ind + open) + head + comma + (ind + close) == ind + (open + (head + comma)) + ("" + "" + (ind + close))
  {
  }

  // ---------- Frames ----------

  lemma {:induction false} FrameRight(st: Settings, k: nat, cs: seq<Call>)
    requires forall i :: 0 <= i < |cs| ==> PlainCall(cs[i])
    ensures Right(FrameText(st, k, cs), GoodCalls(st, cs), FrameJs(st, k, cs))
  {
    var i1, vs := Indentation(st, 1), CallsJs(st, cs);
    var last := Line(API_CALLS, "\n", ListText(i1, CallTexts(st, cs)));
    CallsLineRight(st, cs);
    FrameLinesSound(st, k);
    RightObject("", i1, FrameLines(st, k), FrameFields(st, k), last, GoodCalls(st, cs), Arr(vs));
  }

  lemma {:induction false} CallsLineRight(st: Settings, cs: seq<Call>)
    requires forall i :: 0 <= i < |cs| ==> PlainCall(cs[i])
    ensures RightLine(Indentation(st, 1), Line(API_CALLS, "\n", ListText(Indentation(st, 1), CallTexts(st, cs))),
                      GoodCalls(st, cs), Arr(CallsJs(st, cs)))
  {
    CallsListRight(st, cs);
    RunKeysPlain();
    RightBody(Indentation(st, 1), Line(API_CALLS, "\n", ListText(Indentation(st, 1), CallTexts(st, cs))),
              GoodCalls(st, cs), Arr(CallsJs(st, cs)));
  }

  lemma {:induction false} CallsListRight(st: Settings, cs: seq<Call>)
    requires forall i :: 0 <= i < |cs| ==> PlainCall(cs[i])
    ensures Right(ListText(Indentation(st, 1), CallTexts(st, cs)), GoodCalls(st, cs), Arr(CallsJs(st, cs)))
  {
    forall i | 0 <= i < |cs|
      ensures Right(CallTexts(st, cs)[i], GoodCall(st, cs[i]), CallsJs(st, cs)[i])
    {
      CallRight(st, cs[i]);
    }
    RightList(Indentation(st, 1), CallTexts(st, cs), seq(|cs|, i requires 0 <= i < |cs| => GoodCall(st, cs[i])),
              CallsJs(st, cs), GoodCalls(st, cs));
  }

  lemma {:induction false} FrameLinesSound(st: Settings, k: nat)
    ensures SoundLines(FrameLines(st, k), FrameFields(st, k))
  {
    RunKeysPlain();
    DigitsPlain(Decimal(k));
    TextLineOk(FRAME_NUMBER, Decimal(k));
  }

  /** Frames that are all good. */
  lemma {:induction false} FramesSound(cfg: Config, h: seq<seq<Call>>, n: nat)
    requires n <= |h| && PlainHistory(h) && forall k :: 0 <= k < n && cfg.inRange(k) ==> GoodCalls(cfg.st, h[k])
    ensures SoundAll(FrameTexts(cfg, h, n), FramesJs(cfg, h, n))
    decreases n
  {
    if n > 0 {
      FramesSound(cfg, h, n - 1);
      FramesNext(cfg, h, n);
      if cfg.inRange(n - 1) {
        GoodFrameSound(cfg.st, n - 1, h[n - 1]);
        SoundAllSnoc(FrameTexts(cfg, h, n - 1), FramesJs(cfg, h, n - 1),
                     FrameText(cfg.st, n - 1, h[n - 1]), FrameJs(cfg.st, n - 1, h[n - 1]));
      }
    }
  }

  lemma {:induction false} FramesNext(cfg: Config, h: seq<seq<Call>>, n: nat)
    requires 0 < n <= |h|
    ensures FrameTexts(cfg, h, n)
         == if cfg.inRange(n - 1) then FrameTexts(cfg, h, n - 1) + [FrameText(cfg.st, n - 1, h[n - 1])]
            else FrameTexts(cfg, h, n - 1)
    ensures FramesJs(cfg, h, n)
         == if cfg.inRange(n - 1) then FramesJs(cfg, h, n - 1) + [FrameJs(cfg.st, n - 1, h[n - 1])]
            else FramesJs(cfg, h, n - 1)
  {
  }

  lemma {:induction false} GoodFrameSound(st: Settings, k: nat, cs: seq<Call>)
    requires GoodCalls(st, cs) && forall i :: 0 <= i < |cs| ==> PlainCall(cs[i])
    ensures Sound(FrameText(st, k, cs), FrameJs(st, k, cs))
  {
    FrameRight(st, k, cs);
  }

  lemma {:induction false} SoundAllSnoc(xs: seq<string>, vs: seq<Json.Value>, x: string, v: Json.Value)
    requires SoundAll(xs, vs) && Sound(x, v)
    ensures SoundAll(xs + [x], vs + [v])
  {
  }

  ghost predicate AllClosed(xs: seq<string>) {
    forall x :: x in xs ==> Closed(x) && Tally(x, 0)
  }

  lemma {:induction false} BothClosed(xs: seq<string>, ys: seq<string>)
    requires AllClosed(xs) && AllClosed(ys)
    ensures AllClosed(xs + ys)
  {
  }

  /** What one more frame adds to the list. */
  lemma {:induction false} LastFrameClosed(cfg: Config, h: seq<seq<Call>>, n: nat) returns (last: seq<string>)
    requires 0 < n <= |h| && PlainHistory(h)
    ensures AllClosed(last) && FrameTexts(cfg, h, n) == FrameTexts(cfg, h, n - 1) + last
  {
    last := [];
    if cfg.inRange(n - 1) {
      last := FrameAlone(cfg.st, n - 1, h[n - 1]);
    }
  }

  lemma {:induction false} FrameAlone(st: Settings, k: nat, cs: seq<Call>) returns (alone: seq<string>)
    requires forall i :: 0 <= i < |cs| ==> PlainCall(cs[i])
    ensures alone == [FrameText(st, k, cs)] && AllClosed(alone)
  {
    FrameTally(st, k, cs);
    alone := [FrameText(st, k, cs)];
  }

  /** Any frames: their texts are closed, and a frame that is not good shows. */
  lemma {:induction false} FramesClosed(cfg: Config, h: seq<seq<Call>>, n: nat)
    requires n <= |h| && PlainHistory(h)
    ensures AllClosed(FrameTexts(cfg, h, n))
    decreases n
  {
    if n > 0 {
      FramesClosed(cfg, h, n - 1);
      var last := LastFrameClosed(cfg, h, n);
      BothClosed(FrameTexts(cfg, h, n - 1), last);
    }
  }

  lemma {:induction false} FrameTally(st: Settings, k: nat, cs: seq<Call>)
    requires forall i :: 0 <= i < |cs| ==> PlainCall(cs[i])
    ensures Closed(FrameText(st, k, cs)) && Tally(FrameText(st, k, cs), 0)
  {
    FrameRight(st, k, cs);
    RightTally(FrameText(st, k, cs), GoodCalls(st, cs), FrameJs(st, k, cs));
  }

  lemma {:induction false} BadFrameShows(cfg: Config, h: seq<seq<Call>>, n: nat, k: nat)
    requires k < n <= |h| && PlainHistory(h) && cfg.inRange(k) && !GoodCalls(cfg.st, h[k])
    ensures exists x :: x in FrameTexts(cfg, h, n) && Bad(x)
    decreases n
  {
    if k == n - 1 {
      FrameRight(cfg.st, k, h[k]);
      assert FrameText(cfg.st, k, h[k]) in FrameTexts(cfg, h, n);
    } else {
      BadFrameShows(cfg, h, n - 1, k);
    }
  }

  // ---------- Counting braces ----------

  /** Bad, or a token sequence with `n` more opening than closing braces. */
  ghost predicate Tally(s: string, n: int) {
    Closed(s) && (Bad(s) || Braces(Lex(s).toks) == n)
  }

  lemma {:induction false} TallyCat(a: string, m: int, b: string, n: int)
    requires Tally(a, m) && Tally(b, n)
    ensures Tally(a + b, m + n)
  {
    ClosedCat(a, b);
    if !Bad(a) && !Bad(b) {
      LexCat(a, Lex(a).toks, b, Lex(b).toks);
      BracesCat(Lex(a).toks, Lex(b).toks);
    }
  }

  lemma {:induction false} TallyMark(before: string, c: char, after: string)
    requires AllWs(before) && AllWs(after) && Structural(c).Some?
    ensures Tally(before + [c] + after, if c == '{' then 1 else if c == '}' then -1 else 0)
  {
    LexMark(before, c, after);
  }

  lemma {:induction false} RightTally(s: string, good: bool, v: Json.Value)
    requires Right(s, good, v)
    ensures Tally(s, 0)
  {
    PrintBraces(v);
  }

  lemma {:induction false} TallyJoin(xs: seq<string>)
    requires forall x :: x in xs ==> Tally(x, 0)
    ensures Tally(Join(xs), 0)
  {
    if xs == [] {
      LexWs("");
    } else if |xs| > 1 {
      TallyJoin(xs[1..]);
      LexCommaLine();
      TallyCat(xs[0], 0, COMMA_LINE, 0);
      TallyCat(xs[0] + COMMA_LINE, 0, Join(xs[1..]), 0);
    }
  }

  /** An unbalanced text is no JSON, whatever else is in it. */
  lemma {:induction false} UnbalancedIsNotJson(s: string, n: int)
    requires Tally(s, n) && n != 0
    ensures Decode(s) == None
  {
    NotJson(s);
  }

  // ---------- Runs ----------

  /** A run that ends well has written the frames and nothing else. */
  lemma {:induction false} WellEndedText(cfg: Config, h: History)
    requires EndsWell(cfg, h)
    ensures RunText(cfg, h) == ListText("", FrameTexts(cfg, h, |h|)) + "\n"
  {
    var frames := Join(FrameTexts(cfg, h, |h|));
    FinishFrame(cfg, h);
    EndRegroup(frames);
    assert RunText(cfg, h) == OPEN_ARRAY + frames + "\n]\n" by {
      if !cfg.inRange(|h| - 1) {
        assert FirstCall(cfg, h);
      }
    }
  }

  lemma {:induction false} EndRegroup(frames: string)
    ensures OPEN_ARRAY + frames + "\n]\n" == "" + (OPEN_ARRAY + frames + ("\n" + "" + "]")) + "\n"
  {
    assert "\n]\n" == ("\n" + "" + "]") + "\n";
  }

  lemma {:induction false} GoodRun(cfg: Config, h: History)
    requires PlainHistory(h) && EndsWell(cfg, h) && GoodFrames(cfg, h)
    ensures Decode(RunText(cfg, h)) == Some(Arr(FramesJs(cfg, h, |h|)))
  {
    var texts, vs := FrameTexts(cfg, h, |h|), FramesJs(cfg, h, |h|);
    WellEndedText(cfg, h);
    FramesSound(cfg, h, |h|);
    SoundList("", texts, vs);
    LexSpaced("", ListText("", texts), Print(Arr(vs)), "\n");
    assert "" + ListText("", texts) + "\n" == RunText(cfg, h);
    DecodeIff(RunText(cfg, h), Arr(vs));
  }

  /** A dumped call that is not good spoils the run, however it ends. */
  lemma {:induction false} BadCallRun(cfg: Config, h: History)
    requires PlainHistory(h) && EndsWell(cfg, h) && !GoodFrames(cfg, h)
    ensures Decode(RunText(cfg, h)) == None
  {
    var texts := FrameTexts(cfg, h, |h|);
    var k :| 0 <= k < |h| && cfg.inRange(k) && !GoodCalls(cfg.st, h[k]);
    BadFrameShows(cfg, h, |h|, k);
    WellEndedText(cfg, h);
    FramesClosed(cfg, h, |h|);
    ClosedList("", texts);
    WsIsClosed("\n");
    ClosedCat(ListText("", texts), "\n");
    BadIsNotJson(RunText(cfg, h));
  }

  /** The destructor closes a frame that was never opened. */
  lemma {:induction false} UnopenedRun(cfg: Config, h: History)
    requires !EndsWell(cfg, h) && !cfg.inRange(|h| - 1)
    ensures Decode(RunText(cfg, h)) == None
  {
    var i1 := Indentation(cfg.st, 1);
    assert FrameTexts(cfg, h, 0) == [];
    TallyMark("", '[', "\n");
    TallyMark("\n" + i1, ']', "\n");
    TallyMark("", '}', "\n");
    TallyMark("", ']', "\n");
    var a, b, c, d := "" + ['['] + "\n", "\n" + i1 + [']'] + "\n", "" + ['}'] + "\n", "" + [']'] + "\n";
    TallyCat(a, 0, b, 0);
    TallyCat(a + b, 0, c, -1);
    TallyCat(a + b + c, -1, d, 0);
    UnopenedRegroup(i1);
    UnbalancedIsNotJson(a + b + c + d, -1);
  }

  lemma {:induction false} UnopenedRegroup(i1: string)
    ensures OPEN_ARRAY + "" + "" + ("\n" + i1 + "]\n}") + "\n]\n"
         == ("" + ['['] + "\n") + ("\n" + i1 + [']'] + "\n") + ("" + ['}'] + "\n") + ("" + [']'] + "\n")
  {
    assert "]\n}" == [']'] + "\n" + ['}'];
    assert "\n]\n" == "\n" + [']'] + "\n";
    assert OPEN_ARRAY + "" + "" == "" + ['['] + "\n";
  }

  /** The destructor leaves the last frame open. */
  lemma {:induction false} UnfinishedRun(cfg: Config, h: History)
    requires PlainHistory(h) && !EndsWell(cfg, h) && cfg.inRange(|h| - 1)
    ensures Decode(RunText(cfg, h)) == None
  {
    FramesClosed(cfg, h, |h| - 1);
    TallyJoin(FrameTexts(cfg, h, |h| - 1));
    OneBraceOpen(cfg, h);
  }

  lemma {:induction false} UnfinishedTally(done: string, sep: string, head: string)
    requires Tally(done, 0) && Tally(sep, 0) && Tally(head, 1)
    ensures Tally("" + ['['] + "\n" + done + sep + head + ("\n" + [']'] + "\n"), 1)
  {
    var a, z := "" + ['['] + "\n", "\n" + [']'] + "\n";
    TallyMark("", '[', "\n");
    TallyMark("\n", ']', "\n");
    TallyCat(a, 0, done, 0);
    TallyCat(a + done, 0, sep, 0);
    TallyCat(a + done + sep, 0, head, 1);
    TallyCat(a + done + sep + head, 1, z, 0);
  }

  lemma {:induction false} OneBraceOpen(cfg: Config, h: History)
    requires !EndsWell(cfg, h) && cfg.inRange(|h| - 1) && Tally(Join(FrameTexts(cfg, h, |h| - 1)), 0)
    ensures Decode(RunText(cfg, h)) == None
  {
    var done := FrameTexts(cfg, h, |h| - 1);
    var head := FrameHead(cfg.st, |h| - 1);
    FrameHeadTally(cfg.st, |h| - 1);
    LexCommaLine();
    LexWs("");
    UnfinishedTally(Join(done), Sep(done), head);
    assert CallTexts(cfg.st, Last(h)) == [] && Join([]) == "";
    UnfinishedRegroup(Join(done), Sep(done), head);
    UnbalancedIsNotJson(RunText(cfg, h), 1);
  }

  lemma {:induction false} UnfinishedRegroup(done: string, sep: string, head: string)
    ensures OPEN_ARRAY + done + (sep + (head + "")) + "" + "\n]\n"
         == ("" + ['['] + "\n") + done + sep + head + ("\n" + [']'] + "\n")
  {
    assert "\n]\n" == "\n" + [']'] + "\n";
    assert OPEN_ARRAY == "" + ['['] + "\n";
  }

  lemma {:induction false} FrameNumberTally(ind: string, k: nat)
    requires AllWs(ind)
    ensures Tally(LineText(ind, TextLine(FRAME_NUMBER, Decimal(k))) + COMMA_LINE, 0)
  {
    var l := TextLine(FRAME_NUMBER, Decimal(k));
    RunKeysPlain();
    DigitsPlain(Decimal(k));
    TextLineOk(FRAME_NUMBER, Decimal(k));
    LexLine(ind, l, Str(Decimal(k)));
    FieldBraces(FRAME_NUMBER, Decimal(k));
    LexCommaLine();
    TallyCat(LineText(ind, l), 0, COMMA_LINE, 0);
  }

  lemma {:induction false} ApiCallsTally(ind: string)
    requires AllWs(ind)
    ensures Tally(ind + (Quote(API_CALLS) + (" :" + "\n")), 0)
  {
    RunKeysPlain();
    LexKey(ind, Line(API_CALLS, "\n", ""));
    BracesCat([Text(API_CALLS)], [Colon]);
    assert [Text(API_CALLS)] + [Colon] == [Text(API_CALLS), Colon];
  }

  lemma {:induction false} FrameHeadTally(st: Settings, k: nat)
    ensures Tally(FrameHead(st, k), 1)
  {
    var i1 := Indentation(st, 1);
    var number := if st.showThreadAndFrame then LineText(i1, TextLine(FRAME_NUMBER, Decimal(k))) + COMMA_LINE else "";
    var key, open := i1 + (Quote(API_CALLS) + (" :" + "\n")), i1 + OPEN_ARRAY;
    LexWs("");
    FrameNumberTally(i1, k);
    ApiCallsTally(i1);
    TallyMark("", '{', "\n");
    assert "" + ['{'] + "\n" == OPEN_OBJECT;
    TallyMark(i1, '[', "\n");
    assert i1 + ['['] + "\n" == open;
    TallyCat(OPEN_OBJECT, 1, number, 0);
    TallyCat(OPEN_OBJECT + number, 1, key, 0);
    TallyCat(OPEN_OBJECT + number + key, 1, open, 0);
  }

  lemma {:induction false} FieldBraces(key: string, text: string)
    ensures Braces(PrintField(TextField(key, text))) == 0
  {
    BracesCat([Text(key), Colon], [Text(text)]);
    BracesCat([Text(key)], [Colon]);
    assert [Text(key)] + [Colon] == [Text(key), Colon];
    assert PrintField(TextField(key, text)) == [Text(key), Colon] + [Text(text)];
  }

  /**
   Every run with strings that need no escaping: its text is a JSON array of the frames in range exactly when
   the run ends well and all dumped calls are good; otherwise it is not JSON.
   */
  lemma {:induction false} RunIsJson(cfg: Config, events: seq<Event>)
    requires PlainHistory(FramesOf(events))
    ensures var h := FramesOf(events);
            Decode(RunText(cfg, h))
              == if EndsWell(cfg, h) && GoodFrames(cfg, h) then Some(Arr(FramesJs(cfg, h, |h|))) else None
  {
    var h := FramesOf(events);
    if EndsWell(cfg, h) {
      if GoodFrames(cfg, h) {
        GoodRun(cfg, h);
      } else {
        BadCallRun(cfg, h);
      }
    } else if cfg.inRange(|h| - 1) {
      UnfinishedRun(cfg, h);
    } else {
      UnopenedRun(cfg, h);
    }
  }
}
