/**
 The text of many threads. Each call has a script: the pieces in which its head and its body are written. The log of an
 interleaving is replayed on the flags and the stream of the api_dump layer. The main results: if all frames are dumped
 or none is, the output of any interleaving is the text of a run that makes the same calls one after another, in the
 order of their heads; so it decodes to its frames exactly when that run's text does.
 */
module ThreadedText {
  import opened Options
  import opened JsonText
  import opened ApiDumpValues
  import opened ApiDumpRun
  import opened Lock = OutputLock
  import Json
  import ApiDumpJson
  import ApiDumpExact

  // ---------- Scripts ----------

  datatype Script = Script(call: ApiDumpRun.Call, head: seq<string>, body: seq<string>)

  /** The script of each call, by its thread and its number. */
  type Scripts = (Tid, nat) -> Script

  function Concat(xs: seq<string>): string {
    if xs == [] then "" else xs[0] + Concat(xs[1..])
  }

  function Parts(sc: Script): seq<string> {
    sc.head + sc.body
  }

  /** The pieces are the text of the call, cut anywhere. */
  predicate Fits(st: Settings, sc: Script) {
    && sc.head != [] && sc.body != []
    && Concat(sc.head) == HeadText(st, sc.call) && Concat(sc.body) == BodyText(st, sc.call)
  }

  ghost predicate AllFit(st: Settings, scripts: Scripts) {
    forall t, id :: Fits(st, scripts(t, id))
  }

  lemma {:induction false} ConcatCat(xs: seq<string>, ys: seq<string>)
    ensures Concat(xs + ys) == Concat(xs) + Concat(ys)
    decreases |xs|
  {
    if xs == [] {
      assert xs + ys == ys;
    } else {
      assert (xs + ys)[1..] == xs[1..] + ys;
      ConcatCat(xs[1..], ys);
    }
  }

  // ---------- The replay of a log ----------

  /** What the head does in front of its first piece. */
  function OpenCall(s: State): State {
    var comma := !s.first && s.comma;
    s.(first := false, comma := comma, out := s.out + if comma then COMMA_LINE else "")
  }

  /** A piece is written, the first one behind the comma it needs; the last one sets needFuncComma. */
  function WritePiece(s: State, parts: seq<string>, k: nat): State
    requires k < |parts|
  {
    var s1 := if k == 0 then OpenCall(s) else s;
    s1.(out := s1.out + parts[k], comma := s1.comma || k + 1 == |parts|)
  }

  function Effect(cfg: Config, scripts: Scripts, s: State, e: Lock.Event): State {
    match e
    case Piece(t, id, k) =>
      var parts := Parts(scripts(t, id));
      if k < |parts| then WritePiece(s, parts, k) else s
    case Switch(_) => AfterNextFrame(cfg, s)
  }

  /** The layer after a log; the settings exist and the dump flag is initialised before the first piece. */
  function Replay(cfg: Config, scripts: Scripts, log: seq<Lock.Event>): State {
    if log == [] then AfterShouldDump(cfg, ApiDumpRun.START)
    else Effect(cfg, scripts, Replay(cfg, scripts, log[..|log| - 1]), log[|log| - 1])
  }

  /** The calls of each frame, in the order of their first pieces. */
  function HistoryOf(scripts: Scripts, log: seq<Lock.Event>): History {
    if log == [] then [[]] else HistoryNext(scripts, HistoryOf(scripts, log[..|log| - 1]), log[|log| - 1])
  }

  function HistoryNext(scripts: Scripts, h: History, e: Lock.Event): History {
    match e
    case Piece(t, id, k) => if k == 0 then AddCall(h, scripts(t, id).call) else h
    case Switch(_) => h + [[]]
  }

  /** The pieces that the call behind the last event has still to write. */
  function Pending(scripts: Scripts, log: seq<Lock.Event>): seq<string> {
    if log == [] || log[|log| - 1].Switch? then []
    else
      var e := log[|log| - 1];
      var parts := Parts(scripts(e.t, e.id));
      if e.k + 1 < |parts| then parts[e.k + 1..] else []
  }

  /** Where the next event may come: a call starts or the frame changes only when no call is open. */
  predicate Follows(inRange: nat -> bool, scripts: Scripts, log: seq<Lock.Event>, e: Lock.Event) {
    match e
    case Switch(_) => Pending(scripts, log) == []
    case Piece(t, id, k) =>
      && k < |Parts(scripts(t, id))|
      && if k == 0 then Pending(scripts, log) == [] && inRange(|HistoryOf(scripts, log)| - 1)
         else log != [] && log[|log| - 1] == Piece(t, id, k - 1)
  }

  predicate Orderly(inRange: nat -> bool, scripts: Scripts, log: seq<Lock.Event>) {
    log != [] ==>
      var init, e := log[..|log| - 1], log[|log| - 1];
      Orderly(inRange, scripts, init) && Follows(inRange, scripts, init, e)
  }

  /** The state once the open call is written to its end. */
  function Completed(scripts: Scripts, log: seq<Lock.Event>, s: State): State {
    var rest := Pending(scripts, log);
    if rest == [] then s else s.(out := s.out + Concat(rest), comma := true)
  }

  lemma {:induction false} Assoc(a: string, b: string, c: string)
    ensures a + b + c == a + (b + c)
  {
  }

  lemma {:induction false} FirstPiece(cfg: Config, h: History, s: State, sc: Script)
    requires Fits(cfg.st, sc) && ApiDumpRun.Inv(cfg, h, s) && s.created && s.initialized && s.dump
    ensures |Parts(sc)| > 1
    ensures var s' := WritePiece(s, Parts(sc), 0);
            && s'.created && s'.initialized
            && ApiDumpRun.Inv(cfg, AddCall(h, sc.call), s'.(out := s'.out + Concat(Parts(sc)[1..]), comma := true))
  {
    var s', parts, o := WritePiece(s, Parts(sc), 0), Parts(sc), OpenCall(s).out;
    InvCall(cfg, h, s, sc.call);
    ConcatCat(sc.head, sc.body);
    Assoc(o, parts[0], Concat(parts[1..]));
    Assoc(o, HeadText(cfg.st, sc.call), BodyText(cfg.st, sc.call));
    assert s'.(out := s'.out + Concat(parts[1..]), comma := true)
        == ApiDumpRun.AfterBody(cfg, AfterHead(cfg, s, sc.call), sc.call);
  }

  lemma {:induction false} LaterPiece(s: State, parts: seq<string>, k: nat)
    requires 0 < k < |parts|
    ensures var s', rest := WritePiece(s, parts, k), parts[k + 1..];
            (if rest == [] then s' else s'.(out := s'.out + Concat(rest), comma := true))
            == s.(out := s.out + Concat(parts[k..]), comma := true)
  {
    assert parts[k..][1..] == parts[k + 1..];
    Assoc(s.out, parts[k], Concat(parts[k + 1..]));
    assert k + 1 == |parts| ==> parts[k] + "" == parts[k];
  }

  lemma {:induction false} PendingSnoc(scripts: Scripts, log: seq<Lock.Event>, t: Tid, id: nat, k: nat)
    requires k < |Parts(scripts(t, id))|
    ensures Pending(scripts, log + [Piece(t, id, k)]) == Parts(scripts(t, id))[k + 1..]
  {
  }

  /** The layer is in the state that belongs to the history, up to the rest of the open call. */
  ghost predicate InStep(cfg: Config, scripts: Scripts, log: seq<Lock.Event>, h: History, s: State) {
    s.created && s.initialized && ApiDumpRun.Inv(cfg, h, Completed(scripts, log, s))
  }

  lemma {:induction false} ReplaySwitch(cfg: Config, scripts: Scripts, log: seq<Lock.Event>, h: History, s: State,
                                        log': seq<Lock.Event>, h': History, s': State)
    requires InStep(cfg, scripts, log, h, s) && Pending(scripts, log) == [] && Pending(scripts, log') == []
    requires h' == h + [[]] && s' == AfterNextFrame(cfg, s)
    ensures InStep(cfg, scripts, log', h', s')
  {
    InvNextFrame(cfg, h, s);
  }

  lemma {:induction false} ReplayFirst(cfg: Config, scripts: Scripts, log: seq<Lock.Event>, t: Tid, id: nat, h: History,
                                       s: State)
    requires InStep(cfg, scripts, log, h, s) && Fits(cfg.st, scripts(t, id))
    requires Pending(scripts, log) == [] && cfg.inRange(|h| - 1)
    ensures var sc := scripts(t, id);
            && |Parts(sc)| > 0
            && InStep(cfg, scripts, log + [Piece(t, id, 0)], AddCall(h, sc.call), WritePiece(s, Parts(sc), 0))
  {
    FirstPiece(cfg, h, s, scripts(t, id));
    PendingSnoc(scripts, log, t, id, 0);
  }

  lemma {:induction false} ReplayLater(cfg: Config, scripts: Scripts, log: seq<Lock.Event>, t: Tid, id: nat, k: nat,
                                       h: History, s: State)
    requires InStep(cfg, scripts, log, h, s) && 0 < k < |Parts(scripts(t, id))|
    requires log != [] && log[|log| - 1] == Piece(t, id, k - 1)
    ensures InStep(cfg, scripts, log + [Piece(t, id, k)], h, WritePiece(s, Parts(scripts(t, id)), k))
  {
    PendingSnoc(scripts, log, t, id, k);
    LaterPiece(s, Parts(scripts(t, id)), k);
  }

  /** A piece that may follow the log takes the history and the state to these. */
  predicate PieceTo(cfg: Config, scripts: Scripts, log: seq<Lock.Event>, e: Lock.Event, h: History, s: State,
                    h': History, s': State)
    requires e.Piece?
  {
    var sc := scripts(e.t, e.id);
    && e.k < |Parts(sc)|
    && (if e.k == 0 then Pending(scripts, log) == [] && cfg.inRange(|h| - 1)
        else log != [] && log[|log| - 1] == Piece(e.t, e.id, e.k - 1))
    && h' == (if e.k == 0 then AddCall(h, sc.call) else h) && s' == WritePiece(s, Parts(sc), e.k)
  }

  lemma {:induction false} ReplayPiece(cfg: Config, scripts: Scripts, log: seq<Lock.Event>, e: Lock.Event, h: History,
                                       s: State, log': seq<Lock.Event>, h': History, s': State)
    requires InStep(cfg, scripts, log, h, s) && e.Piece? && Fits(cfg.st, scripts(e.t, e.id))
    requires log' == log + [e] && PieceTo(cfg, scripts, log, e, h, s, h', s')
    ensures InStep(cfg, scripts, log', h', s')
  {
    if e.k == 0 {
      ReplayFirst(cfg, scripts, log, e.t, e.id, h, s);
    } else {
      ReplayLater(cfg, scripts, log, e.t, e.id, e.k, h, s);
    }
  }

  /** The replay of an orderly log keeps the invariant of the layer, up to the rest of the open call. */
  lemma {:induction false} ReplayInv(cfg: Config, scripts: Scripts, log: seq<Lock.Event>)
    requires AllFit(cfg.st, scripts) && Orderly(cfg.inRange, scripts, log)
    ensures InStep(cfg, scripts, log, HistoryOf(scripts, log), Replay(cfg, scripts, log))
    decreases |log|
  {
    if log == [] {
      ReplayStart(cfg, scripts);
    } else {
      ReplayInv(cfg, scripts, log[..|log| - 1]);
      ReplayLast(cfg, scripts, log);
    }
  }

  lemma {:induction false} ReplayStart(cfg: Config, scripts: Scripts)
    ensures InStep(cfg, scripts, [], HistoryOf(scripts, []), Replay(cfg, scripts, []))
  {
    InvShouldDump(cfg, [[]], ApiDumpRun.START);
  }

  lemma {:induction false} ReplayLast(cfg: Config, scripts: Scripts, log: seq<Lock.Event>)
    requires AllFit(cfg.st, scripts) && Orderly(cfg.inRange, scripts, log) && log != []
    requires var init := log[..|log| - 1];
             InStep(cfg, scripts, init, HistoryOf(scripts, init), Replay(cfg, scripts, init))
    ensures InStep(cfg, scripts, log, HistoryOf(scripts, log), Replay(cfg, scripts, log))
  {
    if log[|log| - 1].Switch? {
      LastSwitch(cfg, scripts, log);
    } else {
      LastPiece(cfg, scripts, log);
    }
  }

  lemma {:induction false} LastSwitch(cfg: Config, scripts: Scripts, log: seq<Lock.Event>)
    requires Orderly(cfg.inRange, scripts, log) && log != [] && log[|log| - 1].Switch?
    requires var init := log[..|log| - 1];
             InStep(cfg, scripts, init, HistoryOf(scripts, init), Replay(cfg, scripts, init))
    ensures InStep(cfg, scripts, log, HistoryOf(scripts, log), Replay(cfg, scripts, log))
  {
    var init := log[..|log| - 1];
    EffectOfSwitch(cfg, scripts, log);
    ReplaySwitch(cfg, scripts, init, HistoryOf(scripts, init), Replay(cfg, scripts, init),
                 log, HistoryOf(scripts, log), Replay(cfg, scripts, log));
  }

  lemma {:induction false} EffectOfSwitch(cfg: Config, scripts: Scripts, log: seq<Lock.Event>)
    requires Orderly(cfg.inRange, scripts, log) && log != [] && log[|log| - 1].Switch?
    ensures var init := log[..|log| - 1];
            && Pending(scripts, init) == [] && Pending(scripts, log) == []
            && HistoryOf(scripts, log) == HistoryOf(scripts, init) + [[]]
            && Replay(cfg, scripts, log) == AfterNextFrame(cfg, Replay(cfg, scripts, init))
  {
  }

  lemma {:induction false} LastPiece(cfg: Config, scripts: Scripts, log: seq<Lock.Event>)
    requires AllFit(cfg.st, scripts) && Orderly(cfg.inRange, scripts, log) && log != [] && log[|log| - 1].Piece?
    requires var init := log[..|log| - 1];
             InStep(cfg, scripts, init, HistoryOf(scripts, init), Replay(cfg, scripts, init))
    ensures InStep(cfg, scripts, log, HistoryOf(scripts, log), Replay(cfg, scripts, log))
  {
    var init, e := log[..|log| - 1], log[|log| - 1];
    assert Fits(cfg.st, scripts(e.t, e.id));
    EffectOfPiece(cfg, scripts, log);
    ReplayPiece(cfg, scripts, init, e, HistoryOf(scripts, init), Replay(cfg, scripts, init),
                log, HistoryOf(scripts, log), Replay(cfg, scripts, log));
  }

  lemma {:induction false} EffectOfPiece(cfg: Config, scripts: Scripts, log: seq<Lock.Event>)
    requires Orderly(cfg.inRange, scripts, log) && log != [] && log[|log| - 1].Piece?
    ensures var init, e := log[..|log| - 1], log[|log| - 1];
            && log == init + [e]
            && PieceTo(cfg, scripts, init, e, HistoryOf(scripts, init), Replay(cfg, scripts, init),
                       HistoryOf(scripts, log), Replay(cfg, scripts, log))
  {
  }

  /** An orderly log without an open call has the text of the run that makes its calls one after another. */
  lemma {:induction false} OrderlyText(cfg: Config, scripts: Scripts, log: seq<Lock.Event>)
    requires AllFit(cfg.st, scripts) && Orderly(cfg.inRange, scripts, log) && Pending(scripts, log) == []
    ensures TextAtEnd(cfg, Replay(cfg, scripts, log)) == RunText(cfg, HistoryOf(scripts, log))
  {
    ReplayInv(cfg, scripts, log);
    DestroyText(cfg, HistoryOf(scripts, log), Replay(cfg, scripts, log));
  }

  // ---------- Threads that follow their scripts ----------

  /** Another piece follows as long as the script has one. */
  predicate ByScript(scripts: Scripts, s: Sys, a: Action) {
    a.Step? && Get(s, a.t).Running? ==>
      var th := Get(s, a.t);
      var sc := scripts(a.t, th.id);
      && (th.phase == HeadWrite ==> (a.more <==> th.next + 1 < |sc.head|))
      && (th.phase == BodyWrite ==> (a.more <==> th.next + 1 < |Parts(sc)|))
  }

  predicate Scripted(dump: nat -> bool, scripts: Scripts, s: Sys, actions: seq<Action>)
    requires Lock.Run(dump, s, actions).Some?
    decreases |actions|
  {
    actions != [] ==>
      ByScript(scripts, s, actions[0]) && Scripted(dump, scripts, Next(dump, s, actions[0]).value, actions[1..])
  }

  /** How far a thread is in its script. */
  predicate InScript(scripts: Scripts, t: Tid, th: Thread) {
    th.Running? ==>
      var sc := scripts(t, th.id);
      && (th.phase == HeadWrite ==> th.next < |sc.head|)
      && (th.phase in {Driver, BodyCheck} && th.dumped ==> th.next == |sc.head|)
      && (th.phase == BodyWrite ==> |sc.head| <= th.next < |Parts(sc)|)
  }

  /** The thread is inside the text of its call, with `k` as its last piece. */
  predicate Inside(th: Thread, id: nat, k: nat) {
    th.Running? && th.id == id && th.dumped && th.next == k + 1 && th.phase in {HeadWrite, Driver, BodyCheck, BodyWrite}
  }

  /** If a call is open, its thread is inside it. */
  predicate OpenIsInside(scripts: Scripts, s: Sys) {
    Pending(scripts, s.log) != [] ==>
      var e := s.log[|s.log| - 1];
      Inside(Get(s, e.t), e.id, e.k)
  }

  ghost predicate ScriptInv(dump: nat -> bool, scripts: Scripts, s: Sys) {
    && Lock.Inv(dump, s) && ExactInv(dump, s)
    && (forall t :: InScript(scripts, t, Get(s, t)))
    && OpenIsInside(scripts, s)
    && Orderly(dump, scripts, s.log) && s.frame == |HistoryOf(scripts, s.log)| - 1
  }

  lemma {:induction false} InScriptNext(dump: nat -> bool, scripts: Scripts, s: Sys, a: Action)
    requires Constant(dump) && ThreadInv(dump, s, a.t) && Exact(dump, s, a.t) && InScript(scripts, a.t, Get(s, a.t))
    requires Next(dump, s, a).Some? && ByScript(scripts, s, a)
    requires forall t, id :: scripts(t, id).head != [] && scripts(t, id).body != []
    ensures InScript(scripts, a.t, Get(Next(dump, s, a).value, a.t))
  {
    var th := Get(s, a.t);
    if th.Running? {
      assert scripts(a.t, th.id).head != [] && scripts(a.t, th.id).body != [];
      match th.phase
      case HeadWrite =>
      case BodyCheck =>
      case BodyWrite =>
      case _ =>
    }
  }

  /** While a call is open, a step of another thread writes nothing. */
  lemma {:induction false} OpenBlocks(dump: nat -> bool, scripts: Scripts, s: Sys, a: Action)
    requires ScriptInv(dump, scripts, s) && Next(dump, s, a).Some? && !Stray(dump, s, a)
    requires Pending(scripts, s.log) != [] && s.log[|s.log| - 1].t != a.t
    ensures var s' := Next(dump, s, a).value;
            s'.log == s.log && OpenIsInside(scripts, s')
  {
    var u := s.log[|s.log| - 1].t;
    assert ThreadInv(dump, s, u) && ThreadInv(dump, s, a.t);
    OthersBlocked(dump, s, a, u);
  }

  /** Whoever writes while a call is open is inside it. */
  lemma {:induction false} WriterIsInside(dump: nat -> bool, scripts: Scripts, s: Sys, a: Action)
    requires ScriptInv(dump, scripts, s) && Next(dump, s, a).Some? && !Stray(dump, s, a)
    requires Logged(s, a) != [] && Pending(scripts, s.log) != []
    ensures s.log[|s.log| - 1].t == a.t
  {
    LogIs(dump, s, a);
    assert |s.log + Logged(s, a)| == |s.log| + 1;
    if s.log[|s.log| - 1].t != a.t {
      OpenBlocks(dump, scripts, s, a);
    }
  }

  /** What a thread may write next is what its script has next. */
  lemma {:induction false} LoggedFollows(dump: nat -> bool, scripts: Scripts, s: Sys, a: Action)
    requires ScriptInv(dump, scripts, s) && Next(dump, s, a).Some? && !Stray(dump, s, a) && Logged(s, a) != []
    ensures Follows(dump, scripts, s.log, Logged(s, a)[0])
  {
    assert ThreadInv(dump, s, a.t) && Exact(dump, s, a.t) && InScript(scripts, a.t, Get(s, a.t));
    if Pending(scripts, s.log) != [] {
      WriterIsInside(dump, scripts, s, a);
    }
    NextPiece(dump, scripts, s, a);
  }

  lemma {:induction false} NextPiece(dump: nat -> bool, scripts: Scripts, s: Sys, a: Action)
    requires ThreadInv(dump, s, a.t) && Exact(dump, s, a.t) && InScript(scripts, a.t, Get(s, a.t))
    requires Next(dump, s, a).Some? && Logged(s, a) != [] && s.frame == |HistoryOf(scripts, s.log)| - 1
    requires OpenIsInside(scripts, s)
    requires Pending(scripts, s.log) != [] ==> s.log[|s.log| - 1].t == a.t
    ensures Follows(dump, scripts, s.log, Logged(s, a)[0])
  {
    var th := Get(s, a.t);
    if th.phase != Advance && th.next > 0 {
      assert s.log[|s.log| - 1] == Piece(a.t, th.id, th.next - 1);
    }
  }

  lemma {:induction false} OwnOpen(dump: nat -> bool, scripts: Scripts, s: Sys, a: Action)
    requires ThreadInv(dump, s, a.t) && Exact(dump, s, a.t) && InScript(scripts, a.t, Get(s, a.t))
    requires OpenIsInside(scripts, s) && Next(dump, s, a).Some? && ByScript(scripts, s, a)
    requires Pending(scripts, s.log) != [] ==> s.log[|s.log| - 1].t == a.t
    ensures OpenIsInside(scripts, Next(dump, s, a).value)
  {
    LogIs(dump, s, a);
    var s', es, th := Next(dump, s, a).value, Logged(s, a), Get(s, a.t);
    if es == [] {
      assert s'.log == s.log;
    } else {
      assert s'.log[|s'.log| - 1] == es[0];
    }
  }

  lemma {:induction false} HistorySnoc(scripts: Scripts, log: seq<Lock.Event>, e: Lock.Event)
    ensures HistoryOf(scripts, log + [e]) == HistoryNext(scripts, HistoryOf(scripts, log), e)
  {
    assert (log + [e])[..|log|] == log;
  }

  lemma {:induction false} OrderlySnoc(dump: nat -> bool, scripts: Scripts, log: seq<Lock.Event>, e: Lock.Event)
    requires Orderly(dump, scripts, log) && Follows(dump, scripts, log, e)
    ensures Orderly(dump, scripts, log + [e])
  {
    assert (log + [e])[..|log|] == log;
  }

  lemma {:induction false} HistorySize(scripts: Scripts, h: History, e: Lock.Event)
    ensures |HistoryNext(scripts, h, e)| == |h| + if e.Switch? then 1 else 0
  {
  }

  lemma {:induction false} FrameStep(dump: nat -> bool, s: Sys, a: Action)
    requires Next(dump, s, a).Some?
    ensures var s', es := Next(dump, s, a).value, Logged(s, a);
            s'.frame == s.frame + if es != [] && es[0].Switch? then 1 else 0
  {
    LogIs(dump, s, a);
  }

  /** The log stays orderly and the history counts the frames. */
  lemma {:induction false} LogNext(dump: nat -> bool, scripts: Scripts, s: Sys, a: Action)
    requires ScriptInv(dump, scripts, s) && Next(dump, s, a).Some? && !Stray(dump, s, a)
    ensures var s' := Next(dump, s, a).value;
            Orderly(dump, scripts, s'.log) && s'.frame == |HistoryOf(scripts, s'.log)| - 1
  {
    LogIs(dump, s, a);
    FrameStep(dump, s, a);
    if Logged(s, a) == [] {
      assert s.log + [] == s.log;
    } else {
      LoggedFollows(dump, scripts, s, a);
      LogGrows(dump, scripts, s.log, Logged(s, a)[0]);
      assert Logged(s, a) == [Logged(s, a)[0]];
    }
  }

  lemma {:induction false} LogGrows(dump: nat -> bool, scripts: Scripts, log: seq<Lock.Event>, e: Lock.Event)
    requires Orderly(dump, scripts, log) && Follows(dump, scripts, log, e)
    ensures Orderly(dump, scripts, log + [e])
    ensures |HistoryOf(scripts, log + [e])| == |HistoryOf(scripts, log)| + if e.Switch? then 1 else 0
  {
    OrderlySnoc(dump, scripts, log, e);
    HistorySnoc(scripts, log, e);
    HistorySize(scripts, HistoryOf(scripts, log), e);
  }

  lemma {:induction false} OpenNext(dump: nat -> bool, scripts: Scripts, s: Sys, a: Action)
    requires ScriptInv(dump, scripts, s) && Next(dump, s, a).Some? && ByScript(scripts, s, a) && !Stray(dump, s, a)
    ensures OpenIsInside(scripts, Next(dump, s, a).value)
  {
    if Pending(scripts, s.log) != [] && s.log[|s.log| - 1].t != a.t {
      OpenBlocks(dump, scripts, s, a);
    } else {
      assert ThreadInv(dump, s, a.t) && Exact(dump, s, a.t) && InScript(scripts, a.t, Get(s, a.t));
      OwnOpen(dump, scripts, s, a);
    }
  }

  lemma {:induction false} ScriptsNext(dump: nat -> bool, scripts: Scripts, s: Sys, a: Action)
    requires Constant(dump) && ScriptInv(dump, scripts, s) && Next(dump, s, a).Some? && ByScript(scripts, s, a)
    requires forall t, id :: scripts(t, id).head != [] && scripts(t, id).body != []
    ensures forall t :: InScript(scripts, t, Get(Next(dump, s, a).value, t))
  {
    var s' := Next(dump, s, a).value;
    assert ThreadInv(dump, s, a.t) && Exact(dump, s, a.t) && InScript(scripts, a.t, Get(s, a.t));
    InScriptNext(dump, scripts, s, a);
    forall t ensures InScript(scripts, t, Get(s', t)) {
      assert t != a.t ==> Get(s', t) == Get(s, t);
    }
  }

  lemma {:induction false} ScriptNext(dump: nat -> bool, scripts: Scripts, s: Sys, a: Action)
    requires Constant(dump) && ScriptInv(dump, scripts, s) && Next(dump, s, a).Some? && ByScript(scripts, s, a)
    requires forall t, id :: scripts(t, id).head != [] && scripts(t, id).body != []
    ensures ScriptInv(dump, scripts, Next(dump, s, a).value)
  {
    ExactNext(dump, s, a);
    InvNext(dump, s, a);
    LogNext(dump, scripts, s, a);
    ScriptsNext(dump, scripts, s, a);
    OpenNext(dump, scripts, s, a);
  }

  lemma {:induction false} ScriptRun(dump: nat -> bool, scripts: Scripts, s: Sys, actions: seq<Action>)
    requires Constant(dump) && ScriptInv(dump, scripts, s)
    requires Lock.Run(dump, s, actions).Some? && Scripted(dump, scripts, s, actions)
    requires forall t, id :: scripts(t, id).head != [] && scripts(t, id).body != []
    ensures ScriptInv(dump, scripts, Lock.Run(dump, s, actions).value)
    decreases |actions|
  {
    if actions != [] {
      ScriptNext(dump, scripts, s, actions[0]);
      ScriptRun(dump, scripts, Next(dump, s, actions[0]).value, actions[1..]);
    }
  }

  // ---------- Every call is in the history ----------

  /** How often the actions begin the call. */
  function Begun(actions: seq<Action>, t: Tid, id: nat): nat {
    if actions == [] then 0 else Begins(actions[0], t, id) + Begun(actions[1..], t, id)
  }

  function Begins(a: Action, t: Tid, id: nat): nat {
    if a.Begin? && a.t == t && a.id == id then 1 else 0
  }

  /** How often its text starts in the log, and so how often the history has it. */
  function Starts(log: seq<Lock.Event>, t: Tid, id: nat): nat {
    if log == [] then 0
    else Starts(log[..|log| - 1], t, id) + if log[|log| - 1] == Piece(t, id, 0) then 1 else 0
  }

  /** The call is under way and has written nothing. */
  function Waits(th: Thread, id: nat): nat {
    if th.Running? && th.id == id && th.next == 0 then 1 else 0
  }

  /** Behind its head a thread has written. */
  predicate HasWritten(th: Thread) {
    th.Running? && th.phase !in {Enter, HeadCheck, HeadAcquire, HeadWrite} ==> th.next > 0
  }

  lemma {:induction false} HasWrittenNext(dump: nat -> bool, s: Sys, a: Action)
    requires ThreadInv(dump, s, a.t) && Exact(dump, s, a.t) && dump(s.frame) && HasWritten(Get(s, a.t))
    requires Next(dump, s, a).Some?
    ensures HasWritten(Get(Next(dump, s, a).value, a.t))
  {
  }

  lemma {:induction false} StartsSnoc(log: seq<Lock.Event>, es: seq<Lock.Event>, t: Tid, id: nat)
    requires |es| <= 1
    ensures Starts(log + es, t, id) == Starts(log, t, id) + if es == [Piece(t, id, 0)] then 1 else 0
  {
    if es == [] {
      assert log + es == log;
    } else {
      assert (log + es)[..|log|] == log;
    }
  }

  lemma {:induction false} StartsNext(dump: nat -> bool, s: Sys, a: Action, t: Tid, id: nat)
    requires Next(dump, s, a).Some? && HasWritten(Get(s, a.t))
    ensures var s' := Next(dump, s, a).value;
            Starts(s'.log, t, id) + Waits(Get(s', t), id)
            == Starts(s.log, t, id) + Waits(Get(s, t), id) + Begins(a, t, id)
  {
    LogIs(dump, s, a);
    StartsSnoc(s.log, Logged(s, a), t, id);
    if a.t == t {
      OwnStart(dump, s, a, id);
    } else {
      assert Get(Next(dump, s, a).value, t) == Get(s, t);
    }
  }

  lemma {:induction false} OwnStart(dump: nat -> bool, s: Sys, a: Action, id: nat)
    requires Next(dump, s, a).Some? && HasWritten(Get(s, a.t))
    ensures Waits(Get(Next(dump, s, a).value, a.t), id) + (if Logged(s, a) == [Piece(a.t, id, 0)] then 1 else 0)
         == Waits(Get(s, a.t), id) + Begins(a, a.t, id)
  {
  }

  lemma {:induction false} StartsRun(dump: nat -> bool, s: Sys, actions: seq<Action>, t: Tid, id: nat)
    requires Constant(dump) && dump(0) && Lock.Inv(dump, s) && ExactInv(dump, s) && forall u :: HasWritten(Get(s, u))
    requires Lock.Run(dump, s, actions).Some?
    ensures var s' := Lock.Run(dump, s, actions).value;
            Starts(s'.log, t, id) + Waits(Get(s', t), id)
            == Starts(s.log, t, id) + Waits(Get(s, t), id) + Begun(actions, t, id)
    decreases |actions|
  {
    if actions != [] {
      StartsNext(dump, s, actions[0], t, id);
      ExactNext(dump, s, actions[0]);
      InvNext(dump, s, actions[0]);
      AllWrittenNext(dump, s, actions[0]);
      StartsRun(dump, Next(dump, s, actions[0]).value, actions[1..], t, id);
    }
  }

  lemma {:induction false} AllWrittenNext(dump: nat -> bool, s: Sys, a: Action)
    requires Constant(dump) && dump(0) && Lock.Inv(dump, s) && ExactInv(dump, s) && forall u :: HasWritten(Get(s, u))
    requires Next(dump, s, a).Some?
    ensures forall u :: HasWritten(Get(Next(dump, s, a).value, u))
  {
    var s1 := Next(dump, s, a).value;
    assert ThreadInv(dump, s, a.t) && Exact(dump, s, a.t) && dump(s.frame) == dump(0);
    HasWrittenNext(dump, s, a);
    forall u ensures HasWritten(Get(s1, u)) {
      assert u != a.t ==> Get(s1, u) == Get(s, u);
    }
  }

  /** If all frames are dumped, the history has every call exactly as often as it was made. */
  lemma {:induction false} EveryCallOnce(dump: nat -> bool, actions: seq<Action>, t: Tid, id: nat)
    requires Constant(dump) && dump(0) && Lock.Run(dump, Lock.START, actions).Some?
    requires AllIdle(Lock.Run(dump, Lock.START, actions).value)
    ensures Starts(Lock.Run(dump, Lock.START, actions).value.log, t, id) == Begun(actions, t, id)
  {
    StartInv(dump);
    StartsRun(dump, Lock.START, actions, t, id);
    assert Get(Lock.Run(dump, Lock.START, actions).value, t).Idle?;
  }

  // ---------- The main results ----------

  /** What is in the file when the process ends after `actions`. */
  function Output(cfg: Config, scripts: Scripts, actions: seq<Action>): string
    requires Lock.Run(cfg.inRange, Lock.START, actions).Some?
  {
    TextAtEnd(cfg, Replay(cfg, scripts, Lock.Run(cfg.inRange, Lock.START, actions).value.log))
  }

  function Calls(cfg: Config, scripts: Scripts, actions: seq<Action>): History
    requires Lock.Run(cfg.inRange, Lock.START, actions).Some?
  {
    HistoryOf(scripts, Lock.Run(cfg.inRange, Lock.START, actions).value.log)
  }

  /** An interleaving of whole calls, each written by its script. */
  ghost predicate Finished(cfg: Config, scripts: Scripts, actions: seq<Action>) {
    && Lock.Run(cfg.inRange, Lock.START, actions).Some?
    && Scripted(cfg.inRange, scripts, Lock.START, actions)
    && AllIdle(Lock.Run(cfg.inRange, Lock.START, actions).value)
  }

  /** If all frames are dumped or none is, the text of any interleaving is that of its calls one after another. */
  lemma {:induction false} ThreadedIsRun(cfg: Config, scripts: Scripts, actions: seq<Action>)
    requires Constant(cfg.inRange) && AllFit(cfg.st, scripts) && Finished(cfg, scripts, actions)
    ensures Output(cfg, scripts, actions) == RunText(cfg, Calls(cfg, scripts, actions))
  {
    var s := Lock.Run(cfg.inRange, Lock.START, actions).value;
    StartInv(cfg.inRange);
    forall t, id ensures scripts(t, id).head != [] && scripts(t, id).body != [] {
      assert Fits(cfg.st, scripts(t, id));
    }
    ScriptRun(cfg.inRange, scripts, Lock.START, actions);
    assert OpenIsInside(scripts, s);
    OrderlyText(cfg, scripts, s.log);
  }

  /** So it decodes to the frames of its calls exactly if they are printed as JSON and the run ends well. */
  lemma {:induction false} ThreadedDecodesIff(cfg: Config, scripts: Scripts, actions: seq<Action>)
    requires Constant(cfg.inRange) && AllFit(cfg.st, scripts) && Finished(cfg, scripts, actions)
    ensures var h := Calls(cfg, scripts, actions);
            Json.Decode(Output(cfg, scripts, actions)) == Some(Json.Arr(ApiDumpJson.FramesJs(cfg, h, |h|)))
            <==> ApiDumpJson.EndsWell(cfg, h) && ApiDumpExact.FramesOk(cfg, h, |h|)
  {
    ThreadedIsRun(cfg, scripts, actions);
    ApiDumpExact.RunDecodesIff(cfg, Calls(cfg, scripts, actions));
  }
}
