/**
 A whole run of the api_dump layer with JSON output: the settings object, the frame counter with its cached
 dump flag, the generated heads and bodies of the entry points, and the destructor. The state that decides
 about brackets and commas is spread over four flags; `Inv` ties them and the text written so far to the history
 of the calls of every frame, and holds after every run. `ApiDumpJson.RunIsJson` and `ApiDumpExact.RunDecodesIff`
 then say for which runs the text is one JSON array of frames.
 */
module ApiDumpRun {
  import opened Options
  import opened Json
  import opened JsonText
  import opened Numerals
  import opened ApiDumpValues
  import opened ApiDumpWriter

  /** One dumped call; `result` is None for a void function. */
  datatype Call = Call(name: string, thread: nat, time: nat, returnType: string,
                       result: Option<string>, args: seq<Item>)

  datatype Event = Invoke(call: Call) | Present(call: Call)

  /** The calls of each frame, up to and including the current one. */
  type History = h: seq<seq<Call>> | |h| > 0 witness [[]]

  datatype Config = Config(st: Settings, inRange: nat -> bool)

  function Last(h: History): seq<Call> {
    h[|h| - 1]
  }

  function AddCall(h: History, c: Call): History {
    h[..|h| - 1] + [Last(h) + [c]]
  }

  /** A run's calls by frame: a present is the last call of its frame. */
  function FramesOf(events: seq<Event>): History {
    if events == [] then [[]]
    else
      var h := FramesOf(events[..|events| - 1]);
      match events[|events| - 1]
      case Invoke(c) => AddCall(h, c)
      case Present(c) => AddCall(h, c) + [[]]
  }

  // ---------- Texts ----------

  const THREAD := "thread"
  const TIME := "time"
  const RETURN_TYPE := "returnType"
  const RETURN_VALUE := "returnValue"
  const ARGS := "args"
  const FRAME_NUMBER := "frameNumber"
  const API_CALLS := "apiCalls"

  lemma {:induction false} RunKeysPlain()
    ensures Plain(THREAD) && Plain(TIME) && Plain(RETURN_TYPE) && Plain(RETURN_VALUE) && Plain(ARGS)
    ensures Plain(FRAME_NUMBER) && Plain(API_CALLS) && Plain("Thread ") && Plain(" us")
  {
  }

  function ThreadName(c: Call): string {
    "Thread " + Decimal(c.thread)
  }

  function TimeText(c: Call): string {
    Decimal(c.time) + " us"
  }

  /** The lines of the head: name, thread, time and return type. */
  function HeadLines(st: Settings, c: Call): seq<Line> {
    [TextLine(NAME, c.name)]
    + (if st.showThreadAndFrame then [TextLine(THREAD, ThreadName(c))] else [])
    + (if st.showTimestamp then [TextLine(TIME, TimeText(c))] else [])
    + [TextLine(RETURN_TYPE, c.returnType)]
  }

  function ArgsLine(st: Settings, c: Call): Line {
    Line(ARGS, "\n", ListText(Indentation(st, 3), ItemTexts(st, c.args, 4)))
  }

  function HeadText(st: Settings, c: Call): string {
    Indentation(st, 2) + (OPEN_OBJECT + (Join(Lines(Indentation(st, 3), HeadLines(st, c))) + COMMA_LINE))
  }

  function BodyText(st: Settings, c: Call): string {
    ResultText(st, c) + ArgsText(st, c) + (Indentation(st, 2) + "}")
  }

  function ResultText(st: Settings, c: Call): string {
    if c.result.None? then ""
    else
      LineText(Indentation(st, 3), TextLine(RETURN_VALUE, c.result.value))
      + if st.showParams then COMMA_LINE else "\n"
  }

  function ArgsText(st: Settings, c: Call): string {
    if st.showParams then LineText(Indentation(st, 3), ArgsLine(st, c)) + "\n" else ""
  }

  function CallText(st: Settings, c: Call): string {
    HeadText(st, c) + BodyText(st, c)
  }

  function CallTexts(st: Settings, cs: seq<Call>): (xs: seq<string>)
    ensures |xs| == |cs|
  {
    seq(|cs|, i requires 0 <= i < |cs| => CallText(st, cs[i]))
  }

  function FrameLines(st: Settings, k: nat): seq<Line> {
    if st.showThreadAndFrame then [TextLine(FRAME_NUMBER, Decimal(k))] else []
  }

  function FrameText(st: Settings, k: nat, cs: seq<Call>): string {
    ObjectText("", Indentation(st, 1),
      FrameLines(st, k) + [Line(API_CALLS, "\n", ListText(Indentation(st, 1), CallTexts(st, cs)))])
  }

  /** What setupInterFrameOutputFormatting writes to open frame `k`. */
  function FrameHead(st: Settings, k: nat): string {
    OPEN_OBJECT
    + (if st.showThreadAndFrame then LineText(Indentation(st, 1), TextLine(FRAME_NUMBER, Decimal(k))) + COMMA_LINE
       else "")
    + (Indentation(st, 1) + (Quote(API_CALLS) + (" :" + "\n")))
    + (Indentation(st, 1) + OPEN_ARRAY)
  }

  function CloseText(st: Settings): string {
    "\n" + Indentation(st, 1) + "]\n}"
  }

  /** The texts of the frames below `n` that are in range. */
  function FrameTexts(cfg: Config, h: seq<seq<Call>>, n: nat): seq<string>
    requires n <= |h|
  {
    if n == 0 then []
    else FrameTexts(cfg, h, n - 1) + if cfg.inRange(n - 1) then [FrameText(cfg.st, n - 1, h[n - 1])] else []
  }

  /** The comma a list needs before one more element. */
  function Sep(xs: seq<string>): string {
    if xs == [] then "" else COMMA_LINE
  }

  /** Everything written before the destructor runs. */
  function TextSoFar(cfg: Config, h: History): string {
    OPEN_ARRAY + Join(FrameTexts(cfg, h, |h| - 1)) + OpenFrame(cfg, h)
  }

  /** The separator in front of the current frame, and that frame without its closing brackets. */
  function OpenFrame(cfg: Config, h: History): string {
    if cfg.inRange(|h| - 1)
    then Sep(FrameTexts(cfg, h, |h| - 1)) + (FrameHead(cfg.st, |h| - 1) + Join(CallTexts(cfg.st, Last(h))))
    else ""
  }

  /** first_func_call_on_frame: set by a present, cleared by the first dumped head. */
  predicate FirstCall(cfg: Config, h: History) {
    |h| > 1 && (!cfg.inRange(|h| - 1) || Last(h) == [])
  }

  function RunText(cfg: Config, h: History): string {
    TextSoFar(cfg, h) + (if FirstCall(cfg, h) then "" else CloseText(cfg.st)) + "\n]\n"
  }

  // ---------- How the text grows ----------

  lemma {:induction false} FrameTextsPrefix(cfg: Config, h: seq<seq<Call>>, g: seq<seq<Call>>, n: nat)
    requires n <= |h| && n <= |g| && h[..n] == g[..n]
    ensures FrameTexts(cfg, h, n) == FrameTexts(cfg, g, n)
    decreases n
  {
    if n > 0 {
      assert h[..n - 1] == h[..n][..n - 1];
      assert g[..n - 1] == g[..n][..n - 1];
      FrameTextsPrefix(cfg, h, g, n - 1);
      assert h[n - 1] == h[..n][n - 1] == g[..n][n - 1] == g[n - 1];
    }
  }

  /** The brackets that close a frame. */
  lemma {:induction false} FrameCloses(st: Settings, k: nat, cs: seq<Call>)
    ensures FrameHead(st, k) + Join(CallTexts(st, cs)) + CloseText(st) == FrameText(st, k, cs)
  {
    var i1, calls := Indentation(st, 1), Join(CallTexts(st, cs));
    var body := ListText(i1, CallTexts(st, cs));
    var l := Line(API_CALLS, "\n", body);
    var ls := FrameLines(st, k);
    var xs := Lines(i1, ls + [l]);
    assert xs == Lines(i1, ls) + [LineText(i1, l)];
    JoinSnoc(Lines(i1, ls), LineText(i1, l));
    var key := i1 + (Quote(API_CALLS) + (" :" + "\n"));
    assert LineText(i1, l) == key + body;
    var number := LineText(i1, TextLine(FRAME_NUMBER, Decimal(k)));
    var front := if st.showThreadAndFrame then number + COMMA_LINE else "";
    assert Join(xs) == front + LineText(i1, l) by {
      if st.showThreadAndFrame {
        assert Lines(i1, ls) == [number];
      } else {
        assert Lines(i1, ls) == [];
      }
    }
    FrameBrackets(front, key, i1, calls);
  }

  lemma {:induction false} FrameBrackets(front: string, key: string, ind: string, calls: string)
    ensures OPEN_OBJECT + front + key + (ind + OPEN_ARRAY) + calls + ("\n" + ind + "]\n}")
         == "" + (OPEN_OBJECT + (front + (key + (ind + (OPEN_ARRAY + calls + ("\n" + ind + "]"))))) + ("\n" + "" + "}"))
  {
    assert "\n" + ind + "]\n}" == ("\n" + ind + "]") + ("\n" + "" + "}") by {
      assert "]\n}" == "]" + "\n}";
      assert "\n" + "" + "}" == "\n}";
    }
  }

  lemma {:induction false} JoinNext(front: string, xs: seq<string>, x: string)
    ensures front + Join(xs) + Sep(xs) + x == front + Join(xs + [x])
  {
    JoinSnoc(xs, x);
    if xs == [] {
      assert front + "" + "" + x == front + x;
    }
  }

  /** Closing the current frame turns it into one of the finished ones. */
  lemma {:induction false} CloseCurrent(cfg: Config, h: History)
    requires cfg.inRange(|h| - 1)
    ensures TextSoFar(cfg, h) + CloseText(cfg.st) == OPEN_ARRAY + Join(FrameTexts(cfg, h, |h|))
  {
    var n := |h| - 1;
    var done, open := FrameTexts(cfg, h, n), FrameHead(cfg.st, n) + Join(CallTexts(cfg.st, Last(h)));
    assert FrameTexts(cfg, h, |h|) == done + [FrameText(cfg.st, n, Last(h))];
    assert open + CloseText(cfg.st) == FrameText(cfg.st, n, Last(h)) by {
      FrameCloses(cfg.st, n, Last(h));
    }
    CloseRegroup(OPEN_ARRAY, done, open, CloseText(cfg.st));
  }

  lemma {:induction false} CloseRegroup(front: string, done: seq<string>, open: string, close: string)
    ensures front + Join(done) + (Sep(done) + open) + close == front + Join(done + [open + close])
  {
    JoinNext(front, done, open + close);
    assert front + Join(done) + (Sep(done) + open) + close == front + Join(done) + Sep(done) + (open + close);
  }

  /** One more dumped call in the current frame. */
  lemma {:induction false} GrowCall(cfg: Config, h: History, c: Call)
    ensures TextSoFar(cfg, AddCall(h, c))
         == TextSoFar(cfg, h)
            + if cfg.inRange(|h| - 1) then Sep(CallTexts(cfg.st, Last(h))) + CallText(cfg.st, c) else ""
  {
    var g, n := AddCall(h, c), |h| - 1;
    FrameTextsPrefix(cfg, h, g, n) by {
      assert g[..n] == h[..n];
    }
    var front, done := OPEN_ARRAY + Join(FrameTexts(cfg, h, n)), FrameTexts(cfg, h, n);
    if cfg.inRange(n) {
      var xs := CallTexts(cfg.st, Last(h));
      assert CallTexts(cfg.st, Last(g)) == xs + [CallText(cfg.st, c)];
      CallRegroup(front, Sep(done), FrameHead(cfg.st, n), xs, CallText(cfg.st, c));
      assert OpenFrame(cfg, g) == Sep(done) + (FrameHead(cfg.st, n) + Join(xs + [CallText(cfg.st, c)]));
    }
  }

  lemma {:induction false} CallRegroup(front: string, sep: string, head: string, xs: seq<string>, x: string)
    ensures front + (sep + (head + Join(xs + [x]))) == front + (sep + (head + Join(xs))) + (Sep(xs) + x)
  {
    JoinNext(front + sep + head, xs, x);
    assert front + (sep + (head + Join(xs + [x]))) == front + sep + head + Join(xs + [x]);
    assert front + (sep + (head + Join(xs))) + (Sep(xs) + x) == front + sep + head + Join(xs) + Sep(xs) + x;
  }

  /** The next frame opens behind the finished ones. */
  lemma {:induction false} GrowFrame(cfg: Config, h: History)
    ensures TextSoFar(cfg, h + [[]])
         == TextSoFar(cfg, h)
            + (if cfg.inRange(|h| - 1) then CloseText(cfg.st) else "")
            + if cfg.inRange(|h|) then Sep(FrameTexts(cfg, h, |h|)) + FrameHead(cfg.st, |h|) else ""
  {
    var g := h + [[]];
    assert g[..|h|] == h[..|h|];
    FrameTextsPrefix(cfg, h, g, |h|);
    FinishFrame(cfg, h);
    assert FrameHead(cfg.st, |h|) + Join(CallTexts(cfg.st, [])) == FrameHead(cfg.st, |h|) by {
      assert Join(CallTexts(cfg.st, [])) == "";
    }
  }

  lemma {:induction false} FinishFrame(cfg: Config, h: History)
    ensures TextSoFar(cfg, h) + (if cfg.inRange(|h| - 1) then CloseText(cfg.st) else "")
         == OPEN_ARRAY + Join(FrameTexts(cfg, h, |h|))
  {
    if cfg.inRange(|h| - 1) {
      CloseCurrent(cfg, h);
    } else {
      var done := FrameTexts(cfg, h, |h| - 1);
      assert FrameTexts(cfg, h, |h|) == done + [] == done;
      assert OPEN_ARRAY + Join(done) + "" + "" == OPEN_ARRAY + Join(done);
    }
  }

  // ---------- The layer ----------

  function CloseBefore(cfg: Config, frame: nat): string {
    if frame > 0 && cfg.inRange(frame - 1) then CloseText(cfg.st) else ""
  }

  /** What setupInterFrameOutputFormatting writes between two frames. */
  function FrameSwitch(cfg: Config, frame: nat, printed: bool): string {
    CloseBefore(cfg, frame)
    + if cfg.inRange(frame) then (if printed then COMMA_LINE else "") + FrameHead(cfg.st, frame) else ""
  }

  lemma {:induction false} Regroup(o: string, a: string, b: string, c: string, d: string)
    ensures o + a + b + c + d == o + (a + b + c + d)
  {
  }

  lemma {:induction false} Regroup4(o: string, a: string, b: string, c: string)
    ensures o + a + b + c == o + (a + b + c)
  {
  }

  lemma {:induction false} Regroup3(o: string, a: string, b: string, c: string)
    ensures o + a + b + c == o + (a + (b + c))
  {
  }

  lemma {:induction false} Empties(o: string, x: string, e: string)
    requires e == ""
    ensures o + e + (e + (x + e)) == o + (e + (e + x))
    ensures o + e + e == o + (e + e)
  {
  }

  lemma {:induction false} OpeningText(cfg: Config)
    ensures TextSoFar(cfg, [[]]) == OPEN_ARRAY + FrameSwitch(cfg, 0, false)
    ensures FrameTexts(cfg, [[]], 1) != [] <==> cfg.inRange(0)
  {
    var h: History := [[]];
    var none: seq<string> := [];
    assert FrameTexts(cfg, h, 0) == none && CallTexts(cfg.st, Last(h)) == none && Join(none) == "";
    var head := FrameHead(cfg.st, 0);
    Empties(OPEN_ARRAY, head, "");
    if cfg.inRange(0) {
      assert FrameTexts(cfg, h, 1) == none + [FrameText(cfg.st, 0, [])];
      assert OpenFrame(cfg, h) == "" + (head + "");
    } else {
      assert FrameTexts(cfg, h, 1) == none + [];
    }
  }

  // ---------- One step of the layer, as a function of its state ----------

  datatype State = State(
    created: bool,          // dump_settings != NULL
    frame: nat,             // frame_count
    initialized: bool,      // conditional_initialized
    dump: bool,             // should_dump_output
    first: bool,            // first_func_call_on_frame
    printed: bool,          // hasPrintedAFrame
    comma: bool,            // needFuncComma
    out: string)

  const START := State(false, 0, false, true, false, false, false, "")

  function AfterSetup(cfg: Config, s: State, frame: nat): State {
    s.(out := s.out + FrameSwitch(cfg, frame, s.printed), printed := s.printed || cfg.inRange(frame))
  }

  function AfterSettings(cfg: Config, s: State): State {
    if s.created then s
    else
      var s1 := s.(created := true, out := s.out + OPEN_ARRAY);
      if cfg.inRange(0) then AfterSetup(cfg, s1, 0) else s1
  }

  function AfterShouldDump(cfg: Config, s: State): State {
    if s.initialized then s
    else AfterSettings(cfg, s).(dump := cfg.inRange(s.frame), initialized := true)
  }

  function AfterHead(cfg: Config, s: State, c: Call): State {
    var s1 := AfterShouldDump(cfg, s);
    if !s1.dump then s1
    else
      var comma := !s1.first && s1.comma;
      s1.(first := false, comma := comma, out := s1.out + (if comma then COMMA_LINE else "") + HeadText(cfg.st, c))
  }

  function AfterBody(cfg: Config, s: State, c: Call): State {
    var s1 := AfterShouldDump(cfg, s);
    if !s1.dump then s1 else s1.(comma := true, out := s1.out + BodyText(cfg.st, c))
  }

  /** The counter and the cached flag of the next frame. */
  function Advanced(cfg: Config, s: State): State {
    var s1 := AfterSettings(cfg, s.(frame := s.frame + 1));
    s1.(dump := cfg.inRange(s1.frame))
  }

  function AfterNextFrame(cfg: Config, s: State): State {
    var s1 := Advanced(cfg, s);
    AfterSetup(cfg, s1, s1.frame).(first := true)
  }

  function TextAtEnd(cfg: Config, s: State): string {
    var s1 := if s.first then s else AfterSettings(cfg, s);
    s1.out + (if s.first then "" else CloseText(cfg.st)) + if s1.created then "\n]\n" else ""
  }

  function Step(cfg: Config, s: State, e: Event): State {
    match e
    case Invoke(c) => AfterBody(cfg, AfterHead(cfg, s, c), c)
    case Present(c) => AfterNextFrame(cfg, AfterBody(cfg, AfterHead(cfg, s, c), c))
  }

  function Steps(cfg: Config, events: seq<Event>): State {
    if events == [] then START
    else Step(cfg, Steps(cfg, events[..|events| - 1]), events[|events| - 1])
  }

  // ---------- The invariant ----------

  /** The flags and the text, in terms of the calls so far. The cached dump flag is the range test. */
  ghost predicate Inv(cfg: Config, h: History, s: State) {
    && s.frame == |h| - 1
    && (s.initialized ==> s.created && s.dump == cfg.inRange(s.frame))
    && s.first == FirstCall(cfg, h)
    && (!s.first ==> s.comma == (cfg.inRange(s.frame) && Last(h) != []))
    && (s.created ==> s.out == TextSoFar(cfg, h) && s.printed == (FrameTexts(cfg, h, |h|) != []))
    && (!s.created ==> s == START && h == [[]])
  }

  lemma {:induction false} InvSettings(cfg: Config, h: History, s: State)
    requires Inv(cfg, h, s)
    ensures Inv(cfg, h, AfterSettings(cfg, s)) && AfterSettings(cfg, s).created
  {
    if !s.created {
      OpeningText(cfg);
      assert "" + OPEN_ARRAY == OPEN_ARRAY;
      if !cfg.inRange(0) {
        assert OPEN_ARRAY + ("" + "") == OPEN_ARRAY;
      }
    }
  }

  lemma {:induction false} InvShouldDump(cfg: Config, h: History, s: State)
    requires Inv(cfg, h, s)
    ensures var s' := AfterShouldDump(cfg, s); Inv(cfg, h, s') && s'.created && s'.initialized
  {
    InvSettings(cfg, h, s);
  }

  /** What a present does to the finished and the open frames. */
  lemma {:induction false} PresentGrows(cfg: Config, h: History)
    ensures TextSoFar(cfg, h + [[]]) == TextSoFar(cfg, h) + FrameSwitch(cfg, |h|, FrameTexts(cfg, h, |h|) != [])
    ensures FrameTexts(cfg, h + [[]], |h| + 1) != [] <==> FrameTexts(cfg, h, |h|) != [] || cfg.inRange(|h|)
  {
    GrowFrame(cfg, h);
    var g := h + [[]];
    FrameTextsPrefix(cfg, h, g, |h|) by {
      assert g[..|h|] == h[..|h|];
    }
    assert FrameTexts(cfg, g, |h| + 1)
        == FrameTexts(cfg, h, |h|) + if cfg.inRange(|h|) then [FrameText(cfg.st, |h|, g[|h|])] else [];
    Regroup2(TextSoFar(cfg, h), CloseBefore(cfg, |h|),
             if cfg.inRange(|h|) then Sep(FrameTexts(cfg, h, |h|)) + FrameHead(cfg.st, |h|) else "");
  }

  lemma {:induction false} Regroup2(o: string, a: string, b: string)
    ensures o + a + b == o + (a + b)
  {
  }

  lemma {:induction false} CallKeepsFrames(cfg: Config, h: History, c: Call)
    ensures |AddCall(h, c)| == |h| && Last(AddCall(h, c)) != []
    ensures FrameTexts(cfg, AddCall(h, c), |h|) != [] <==> FrameTexts(cfg, h, |h|) != []
  {
    var g, n := AddCall(h, c), |h| - 1;
    FrameTextsPrefix(cfg, h, g, n) by {
      assert g[..n] == h[..n];
    }
  }

  /** What a call does to the text, the number of finished frames and the first-call flag. */
  lemma {:induction false} CallGrows(cfg: Config, h: History, c: Call)
    ensures TextSoFar(cfg, AddCall(h, c))
         == if cfg.inRange(|h| - 1)
            then TextSoFar(cfg, h) + Sep(CallTexts(cfg.st, Last(h))) + HeadText(cfg.st, c) + BodyText(cfg.st, c)
            else TextSoFar(cfg, h)
    ensures FrameTexts(cfg, AddCall(h, c), |h|) != [] <==> FrameTexts(cfg, h, |h|) != []
    ensures |AddCall(h, c)| == |h| && Last(AddCall(h, c)) != []
    ensures FirstCall(cfg, AddCall(h, c)) == (FirstCall(cfg, h) && !cfg.inRange(|h| - 1))
  {
    GrowCall(cfg, h, c);
    CallKeepsFrames(cfg, h, c);
    if cfg.inRange(|h| - 1) {
      Regroup3(TextSoFar(cfg, h), Sep(CallTexts(cfg.st, Last(h))), HeadText(cfg.st, c), BodyText(cfg.st, c));
    } else {
      assert TextSoFar(cfg, h) + "" == TextSoFar(cfg, h);
    }
  }

  lemma {:induction false} InvCall(cfg: Config, h: History, s: State, c: Call)
    requires Inv(cfg, h, s)
    ensures var s' := AfterBody(cfg, AfterHead(cfg, s, c), c); Inv(cfg, AddCall(h, c), s') && s'.created
  {
    InvShouldDump(cfg, h, s);
    CallGrows(cfg, h, c);
    var s1 := AfterShouldDump(cfg, s);
    assert s1.dump ==> (if !s1.first && s1.comma then COMMA_LINE else "") == Sep(CallTexts(cfg.st, Last(h)));
  }

  lemma {:induction false} InvNextFrame(cfg: Config, h: History, s: State)
    requires Inv(cfg, h, s) && s.created
    ensures Inv(cfg, h + [[]], AfterNextFrame(cfg, s))
  {
    PresentGrows(cfg, h);
  }

  /** The invariant holds after every run. */
  lemma {:induction false} InvSteps(cfg: Config, events: seq<Event>)
    ensures Inv(cfg, FramesOf(events), Steps(cfg, events))
  {
    if events != [] {
      var before, e := events[..|events| - 1], events[|events| - 1];
      InvSteps(cfg, before);
      InvCall(cfg, FramesOf(before), Steps(cfg, before), e.call);
      if e.Present? {
        InvNextFrame(cfg, AddCall(FramesOf(before), e.call),
                     AfterBody(cfg, AfterHead(cfg, Steps(cfg, before), e.call), e.call));
      }
    }
  }

  lemma {:induction false} DestroyText(cfg: Config, h: History, s: State)
    requires Inv(cfg, h, s)
    ensures TextAtEnd(cfg, s) == RunText(cfg, h)
  {
    InvSettings(cfg, h, s);
  }

  // ---------- The layer ----------

  /** ApiDumpInstance with its settings object and the static flags of the JSON back end. */
  class ApiDump {
    const cfg: Config
    const stream: JsonStream
    var created: bool
    var frameCount: nat
    var conditionalInitialized: bool
    var shouldDumpOutput: bool
    var firstFuncCallOnFrame: bool
    var hasPrintedAFrame: bool
    var needFuncComma: bool

    ghost function Abs(): State
      reads this, stream
    {
      State(created, frameCount, conditionalInitialized, shouldDumpOutput, firstFuncCallOnFrame, hasPrintedAFrame,
            needFuncComma, stream.out)
    }

    constructor (cfg: Config)
      ensures Abs() == START && fresh(stream) && this.cfg == cfg && stream.st == cfg.st
    {
      this.cfg := cfg;
      stream := new JsonStream(cfg.st);
      created, frameCount := false, 0;
      conditionalInitialized, shouldDumpOutput, firstFuncCallOnFrame := false, true, false;
      hasPrintedAFrame, needFuncComma := false, false;
    }

    /** setupInterFrameOutputFormatting, for the JSON format. */
    method SetupFrame(frame: nat)
      requires stream.st == cfg.st
      modifies stream, `hasPrintedAFrame
      ensures Abs() == AfterSetup(cfg, old(Abs()), frame)
    {
      ghost var o := stream.out;
      if frame > 0 {
        if cfg.inRange(frame - 1) {
          stream.Write("\n" + Indentation(cfg.st, 1) + "]\n}");
        }
      }
      ghost var o1 := stream.out;
      assert o1 == o + CloseBefore(cfg, frame);
      if cfg.inRange(frame) {
        if !hasPrintedAFrame {
          hasPrintedAFrame := true;
        } else {
          stream.Write(COMMA_LINE);
        }
        ghost var sep := if old(hasPrintedAFrame) then COMMA_LINE else "";
        assert stream.out == o1 + sep;
        WriteFrameHead(frame);
        Regroup3(o, CloseBefore(cfg, frame), sep, FrameHead(cfg.st, frame));
      }
    }

    method WriteFrameHead(frame: nat)
      requires stream.st == cfg.st
      modifies stream
      ensures stream.out == old(stream.out) + FrameHead(cfg.st, frame)
    {
      ghost var o := stream.out;
      var i1 := Indentation(cfg.st, 1);
      stream.Write(OPEN_OBJECT);
      if cfg.st.showThreadAndFrame {
        stream.Write(LineText(i1, TextLine(FRAME_NUMBER, Decimal(frame))) + COMMA_LINE);
      }
      ghost var number := if cfg.st.showThreadAndFrame
                          then LineText(i1, TextLine(FRAME_NUMBER, Decimal(frame))) + COMMA_LINE else "";
      assert stream.out == o + OPEN_OBJECT + number;
      stream.Write(i1 + (Quote(API_CALLS) + (" :" + "\n")));
      stream.Write(i1 + OPEN_ARRAY);
      Regroup(o, OPEN_OBJECT, number, i1 + (Quote(API_CALLS) + (" :" + "\n")), i1 + OPEN_ARRAY);
    }

    /** settings(): creates the settings object on first use. */
    method Settings()
      requires stream.st == cfg.st
      modifies this, stream
      ensures Abs() == AfterSettings(cfg, old(Abs()))
    {
      if !created {
        created := true;
        stream.Write(OPEN_ARRAY);
        if cfg.inRange(0) {
          SetupFrame(0);
        }
      }
    }

    /** shouldDumpOutput() */
    method ShouldDump() returns (dump: bool)
      requires stream.st == cfg.st
      modifies this, stream
      ensures Abs() == AfterShouldDump(cfg, old(Abs())) && dump == shouldDumpOutput
    {
      if !conditionalInitialized {
        Settings();
        ghost var s1 := Abs();
        shouldDumpOutput := cfg.inRange(frameCount);
        conditionalInitialized := true;
        assert Abs() == s1.(dump := cfg.inRange(s1.frame), initialized := true);
      }
      return shouldDumpOutput;
    }

    /** firstFunctionCallOnFrame() */
    method FirstFunctionCallOnFrame() returns (first: bool)
      modifies `firstFuncCallOnFrame
      ensures first == old(firstFuncCallOnFrame) && !firstFuncCallOnFrame
    {
      first := firstFuncCallOnFrame;
      if firstFuncCallOnFrame {
        firstFuncCallOnFrame := false;
      }
    }

    /** nextFrame() */
    method NextFrame()
      requires stream.st == cfg.st
      modifies this, stream
      ensures Abs() == AfterNextFrame(cfg, old(Abs()))
    {
      Advance();
      ghost var s := Abs();
      SetupFrame(frameCount);
      assert Abs() == AfterSetup(cfg, s, s.frame);
      firstFuncCallOnFrame := true;
    }

    method Advance()
      requires stream.st == cfg.st
      modifies this, stream
      ensures Abs() == Advanced(cfg, old(Abs()))
    {
      ghost var s := Abs();
      frameCount := frameCount + 1;
      assert Abs() == s.(frame := s.frame + 1);
      Settings();
      ghost var s1 := Abs();
      shouldDumpOutput := cfg.inRange(frameCount);
      assert Abs() == s1.(dump := cfg.inRange(s1.frame));
    }

    /** dump_json_head_*, behind the dump test. */
    method DumpHead(c: Call)
      requires stream.st == cfg.st
      modifies this, stream
      ensures Abs() == AfterHead(cfg, old(Abs()), c)
    {
      var dump := ShouldDump();
      if !dump {
        return;
      }
      ghost var s1 := Abs();
      var first := FirstFunctionCallOnFrame();
      if first {
        needFuncComma := false;
      }
      if needFuncComma {
        stream.Write(COMMA_LINE);
      }
      assert stream.out == s1.out + if !s1.first && s1.comma then COMMA_LINE else "";
      WriteHead(c);
    }

    method WriteHead(c: Call)
      requires stream.st == cfg.st
      modifies stream
      ensures stream.out == old(stream.out) + HeadText(cfg.st, c)
    {
      ghost var o := stream.out;
      var i2, i3 := Indentation(cfg.st, 2), Indentation(cfg.st, 3);
      stream.OpenObject(i2, i3);
      stream.TextMember(o, i2, i3, [], true, NAME, c.name);
      ghost var ls := [] + [TextLine(NAME, c.name)];
      if cfg.st.showThreadAndFrame {
        stream.TextMember(o, i2, i3, ls, false, THREAD, ThreadName(c));
        ls := ls + [TextLine(THREAD, ThreadName(c))];
      }
      if cfg.st.showTimestamp {
        stream.TextMember(o, i2, i3, ls, false, TIME, TimeText(c));
        ls := ls + [TextLine(TIME, TimeText(c))];
      }
      stream.TextMember(o, i2, i3, ls, false, RETURN_TYPE, c.returnType);
      ls := ls + [TextLine(RETURN_TYPE, c.returnType)];
      assert ls == HeadLines(cfg.st, c);
      stream.Write(COMMA_LINE);
    }

    /** dump_json_body_*, behind the dump test. */
    method DumpBody(c: Call)
      requires stream.st == cfg.st
      modifies this, stream
      ensures Abs() == AfterBody(cfg, old(Abs()), c)
    {
      var dump := ShouldDump();
      if !dump {
        return;
      }
      WriteBody(c);
      needFuncComma := true;
    }

    method WriteBody(c: Call)
      requires stream.st == cfg.st
      modifies stream
      ensures stream.out == old(stream.out) + BodyText(cfg.st, c)
    {
      ghost var o := stream.out;
      var i2, i3 := Indentation(cfg.st, 2), Indentation(cfg.st, 3);
      if c.result.Some? {
        stream.Write(LineText(i3, TextLine(RETURN_VALUE, c.result.value)));
        stream.BreakLine(cfg.st.showParams);
      }
      assert stream.out == o + ResultText(cfg.st, c);
      if cfg.st.showParams {
        WriteArgs(c);
      }
      assert stream.out == o + ResultText(cfg.st, c) + ArgsText(cfg.st, c);
      stream.Write(i2 + "}");
      Regroup4(o, ResultText(cfg.st, c), ArgsText(cfg.st, c), i2 + "}");
    }

    method WriteArgs(c: Call)
      requires stream.st == cfg.st
      modifies stream
      ensures stream.out == old(stream.out) + (LineText(Indentation(cfg.st, 3), ArgsLine(cfg.st, c)) + "\n")
    {
      stream.Write(Indentation(cfg.st, 3) + (Quote(ARGS) + (" :" + "\n")));
      stream.DumpMembers(c.args, 3, 4);
      stream.Write("\n");
    }

    /** A generated entry point, or vkQueuePresentKHR. */
    method EntryPoint(e: Event)
      requires stream.st == cfg.st
      modifies this, stream
      ensures Abs() == Step(cfg, old(Abs()), e)
    {
      DumpHead(e.call);
      DumpBody(e.call);
      if e.Present? {
        NextFrame();
      }
    }

    /** ~ApiDumpInstance, which also destroys the settings object. */
    method Destroy()
      requires stream.st == cfg.st
      modifies this, stream
      ensures stream.out == TextAtEnd(cfg, old(Abs()))
    {
      if !firstFuncCallOnFrame {
        Settings();
        stream.Write("\n" + Indentation(cfg.st, 1) + "]\n}");
      }
      if created {
        stream.Write("\n]\n");
      }
    }
  }

  /** A run: the instance lives from the first event to the end of the process. */
  method Run(cfg: Config, events: seq<Event>) returns (out: string)
    ensures out == RunText(cfg, FramesOf(events))
  {
    var dump := new ApiDump(cfg);
    for i := 0 to |events|
      invariant fresh(dump) && fresh(dump.stream) && dump.cfg == cfg && dump.stream.st == cfg.st
      invariant dump.Abs() == Steps(cfg, events[..i])
    {
      assert events[..i + 1][..i] == events[..i];
      dump.EntryPoint(events[i]);
    }
    assert events[..|events|] == events;
    InvSteps(cfg, events);
    DestroyText(cfg, FramesOf(events), Steps(cfg, events));
    dump.Destroy();
    out := dump.stream.out;
  }
}
