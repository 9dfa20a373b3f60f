/**
 When the interleavings of threads amount to calls one after another. A run is sequential if each call begins only when
 no other is under way. The main result: the log of every interleaving is the log of some sequential run exactly if all
 frames are dumped or none is.
 */
module SequentialLog {
  import opened Options
  import opened OutputLock

  /** Every call begins when all threads are between calls. */
  predicate OneAtATime(dump: nat -> bool, s: Sys, actions: seq<Action>)
    requires Run(dump, s, actions).Some?
    decreases |actions|
  {
    actions != [] ==>
      && (actions[0].Begin? ==> NoneRunning(s))
      && OneAtATime(dump, Next(dump, s, actions[0]).value, actions[1..])
  }

  predicate NoneRunning(s: Sys) {
    forall t :: t in s.threads ==> s.threads[t].Idle?
  }

  ghost predicate SeqReaches(dump: nat -> bool, s: Sys, s': Sys) {
    exists actions :: Run(dump, s, actions) == Some(s') && OneAtATime(dump, s, actions)
  }

  lemma {:induction false} TailOfCat(a: seq<Action>, b: seq<Action>)
    requires a != []
    ensures (a + b)[1..] == a[1..] + b && (a + b)[0] == a[0]
  {
  }

  lemma {:induction false} OneAtATimeCat(dump: nat -> bool, s: Sys, a: seq<Action>, b: seq<Action>)
    requires Run(dump, s, a).Some? && OneAtATime(dump, s, a)
    requires Run(dump, Run(dump, s, a).value, b).Some? && OneAtATime(dump, Run(dump, s, a).value, b)
    ensures Run(dump, s, a + b) == Run(dump, Run(dump, s, a).value, b) && OneAtATime(dump, s, a + b)
    decreases |a|
  {
    if a == [] {
      assert a + b == b;
    } else {
      TailOfCat(a, b);
      OneAtATimeCat(dump, Next(dump, s, a[0]).value, a[1..], b);
    }
  }

  lemma {:induction false} SeqSelf(dump: nat -> bool, s: Sys)
    ensures SeqReaches(dump, s, s)
  {
    assert Run(dump, s, []) == Some(s) && OneAtATime(dump, s, []);
  }

  lemma {:induction false} SeqTrans(dump: nat -> bool, s: Sys, s1: Sys, s2: Sys)
    requires SeqReaches(dump, s, s1) && SeqReaches(dump, s1, s2)
    ensures SeqReaches(dump, s, s2)
  {
    var a :| Run(dump, s, a) == Some(s1) && OneAtATime(dump, s, a);
    var b :| Run(dump, s1, b) == Some(s2) && OneAtATime(dump, s1, b);
    OneAtATimeCat(dump, s, a, b);
  }

  /** One more step of a sequential run. */
  lemma {:induction false} SeqGo(dump: nat -> bool, q0: Sys, q: Sys, a: Action) returns (q': Sys)
    requires SeqReaches(dump, q0, q) && Next(dump, q, a).Some? && (a.Begin? ==> NoneRunning(q))
    ensures q' == Next(dump, q, a).value && SeqReaches(dump, q0, q')
  {
    q' := Next(dump, q, a).value;
    assert [a][1..] == [];
    assert Run(dump, q', []) == Some(q') && OneAtATime(dump, q', []);
    assert Run(dump, q, [a]) == Some(q') && OneAtATime(dump, q, [a]);
    SeqTrans(dump, q0, q, q');
  }

  // ---------- With a constant dump flag every log is that of a sequential run ----------

  /** The thread has written a piece of its call, or its present is about to change or has changed the frame. */
  predicate Active(th: Thread) {
    th.Running? && (th.next > 0 || th.phase in {Advance, FinalRelease})
  }

  /** `q` is between calls, or inside the one call of `s` that is active. */
  ghost predicate Sim(s: Sys, q: Sys) {
    && q.log == s.log && q.frame == s.frame && !q.fault
    && (forall t: Tid :: Get(q, t) == if Active(Get(s, t)) then Get(s, t) else Idle)
    && (forall t: Tid :: Get(q, t).Running? ==> q.owner == Some(t) && q.count == Level(Get(q, t)))
    && (q.owner.Some? ==> Get(q, q.owner.value).Running?) && (q.owner.None? ==> q.count == 0)
  }

  /** An active thread holds the lock. */
  lemma {:induction false} ActiveOwns(dump: nat -> bool, s: Sys, t: Tid)
    requires ThreadInv(dump, s, t) && Exact(dump, s, t) && Active(Get(s, t)) && Constant(dump)
    ensures s.owner == Some(t) && Level(Get(s, t)) > 0
  {
  }

  lemma {:induction false} QuietWhenNoneActive(s: Sys, q: Sys)
    requires Sim(s, q) && forall t :: !Active(Get(s, t))
    ensures NoneRunning(q) && q.owner.None? && q.count == 0
  {
    forall t | t in q.threads
      ensures q.threads[t].Idle?
    {
      assert Get(q, t) == Idle;
    }
  }

  /** A step of the active thread is a step of the sequential run. */
  lemma {:induction false} ActiveStep(dump: nat -> bool, q0: Sys, s: Sys, q: Sys, a: Action) returns (q': Sys)
    requires Constant(dump) && ThreadInv(dump, s, a.t) && Exact(dump, s, a.t)
    requires Sim(s, q) && SeqReaches(dump, q0, q) && Next(dump, s, a).Some? && Active(Get(s, a.t))
    requires forall u :: u != a.t ==> !Active(Get(s, u))
    ensures SeqReaches(dump, q0, q') && Sim(Next(dump, s, a).value, q')
  {
    var th := Get(s, a.t);
    ActiveOwns(dump, s, a.t);
    assert Get(q, a.t) == th && a.Step?;
    q' := SeqGo(dump, q0, q, a);
    ActiveNext(dump, s, q, a);
    OthersKept(dump, s, a);
    OthersKept(dump, q, a);
    ActiveSim(Next(dump, s, a).value, q', a.t);
  }

  lemma {:induction false} OthersKept(dump: nat -> bool, s: Sys, a: Action)
    requires Next(dump, s, a).Some?
    ensures forall u :: u != a.t ==> Get(Next(dump, s, a).value, u) == Get(s, u)
  {
  }

  lemma {:induction false} ActiveSim(s': Sys, q': Sys, t: Tid)
    requires Get(q', t) == Get(s', t) && (Active(Get(s', t)) || Get(s', t) == Idle)
    requires q'.log == s'.log && q'.frame == s'.frame && !q'.fault
    requires if Get(s', t).Running? then q'.owner == Some(t) && q'.count == Level(Get(s', t))
             else q'.owner.None? && q'.count == 0
    requires forall u :: u != t ==> !Active(Get(s', u)) && Get(q', u) == Idle
    ensures Sim(s', q')
  {
  }

  lemma {:induction false} ActiveNext(dump: nat -> bool, s: Sys, q: Sys, a: Action)
    requires Constant(dump) && ThreadInv(dump, s, a.t) && Exact(dump, s, a.t)
    requires a.Step? && Active(Get(s, a.t)) && Get(q, a.t) == Get(s, a.t)
             && q.log == s.log && q.frame == s.frame && !q.fault
    requires q.owner == Some(a.t) && q.count == Level(Get(q, a.t)) && s.owner == Some(a.t) && Level(Get(s, a.t)) > 0
    ensures Next(dump, s, a).Some? && Next(dump, q, a).Some?
    ensures var s', q' := Next(dump, s, a).value, Next(dump, q, a).value;
            var th' := Get(s', a.t);
            && Get(q', a.t) == th' && (Active(th') || th' == Idle)
            && q'.log == s'.log && q'.frame == s'.frame && !q'.fault
            && (if th'.Running? then q'.owner == Some(a.t) && q'.count == Level(th')
                else q'.owner.None? && q'.count == 0)
  {
    var th := Get(s, a.t);
    match th.phase
    case HeadWrite =>
    case Driver =>
    case BodyCheck =>
    case BodyWrite =>
    case BodyRelease =>
    case Advance =>
    case FinalRelease =>
    case _ =>
  }

  /** Whether a step makes its thread active. */
  predicate Wakes(dump: nat -> bool, s: Sys, a: Action)
    requires Next(dump, s, a).Some?
  {
    !Active(Get(s, a.t)) && Active(Get(Next(dump, s, a).value, a.t))
  }

  /** A call begins, and takes the outer lock if it has one. */
  lemma {:induction false} SeqEnter(dump: nat -> bool, q0: Sys, q: Sys, t: Tid, kind: Kind, id: nat) returns (q': Sys)
    requires SeqReaches(dump, q0, q) && NoneRunning(q) && q.owner.None? && q.count == 0 && !q.fault
    ensures SeqReaches(dump, q0, q') && q'.log == q.log && q'.frame == q.frame && !q'.fault
    ensures Get(q', t) == Running(kind, id, HeadCheck, false, 0) && forall u :: u != t ==> Get(q', u) == Get(q, u)
    ensures q'.count == (if kind == Generic then 0 else 1)
            && q'.owner == if kind == Generic then None else Some(t)
  {
    assert Get(q, t).Idle?;
    q' := SeqGo(dump, q0, q, Begin(t, kind, id));
    q' := SeqGo(dump, q0, q', Step(t, false));
  }

  /** From between calls, the sequential run makes a thread catch up to its first piece. */
  lemma {:induction false} CatchUp(dump: nat -> bool, q0: Sys, q: Sys, t: Tid, kind: Kind, id: nat) returns (q': Sys)
    requires SeqReaches(dump, q0, q) && NoneRunning(q) && q.owner.None? && q.count == 0 && !q.fault && dump(q.frame)
    ensures SeqReaches(dump, q0, q') && q'.log == q.log && q'.frame == q.frame && !q'.fault
    ensures Get(q', t) == Running(kind, id, HeadWrite, true, 0) && forall u :: u != t ==> Get(q', u) == Get(q, u)
    ensures q'.owner == Some(t) && q'.count == Level(Get(q', t))
  {
    assert Get(q, t).Idle?;
    q' := SeqEnter(dump, q0, q, t, kind, id);
    q' := SeqGo(dump, q0, q', Step(t, false));
    if kind != Named {
      q' := SeqGo(dump, q0, q', Step(t, false));
    }
  }

  /** The same for a present in an undumped frame, up to its change of the frame. */
  lemma {:induction false} CatchUpPresent(dump: nat -> bool, q0: Sys, q: Sys, t: Tid, id: nat) returns (q': Sys)
    requires SeqReaches(dump, q0, q) && NoneRunning(q) && q.owner.None? && q.count == 0 && !q.fault && !dump(q.frame)
    ensures SeqReaches(dump, q0, q') && q'.log == q.log && q'.frame == q.frame && !q'.fault
    ensures Get(q', t) == Running(Present, id, Advance, false, 0) && forall u :: u != t ==> Get(q', u) == Get(q, u)
    ensures q'.owner == Some(t) && q'.count == 1
  {
    assert Get(q, t).Idle?;
    q' := SeqEnter(dump, q0, q, t, Present, id);
    q' := SeqGo(dump, q0, q', Step(t, false));
    q' := SeqGo(dump, q0, q', Step(t, false));
    q' := SeqGo(dump, q0, q', Step(t, false));
  }

  lemma {:induction false} WakeStep(dump: nat -> bool, q0: Sys, s: Sys, q: Sys, a: Action) returns (q': Sys)
    requires Constant(dump) && ThreadInv(dump, s, a.t) && Exact(dump, s, a.t)
    requires Sim(s, q) && SeqReaches(dump, q0, q) && Next(dump, s, a).Some? && Wakes(dump, s, a)
    requires forall u :: !Active(Get(s, u))
    ensures SeqReaches(dump, q0, q') && Sim(Next(dump, s, a).value, q')
  {
    var th, s' := Get(s, a.t), Next(dump, s, a).value;
    QuietWhenNoneActive(s, q);
    assert a.Step? && th.Running? && th.phase in {HeadWrite, BodyCheck, BodyWrite};
    if th.phase == HeadWrite {
      assert dump(q.frame);
      q' := CatchUp(dump, q0, q, a.t, th.kind, th.id);
      q' := SeqGo(dump, q0, q', a);
    } else {
      assert th.phase == BodyCheck && th.kind == Present && !th.dumped && !dump(q.frame);
      q' := CatchUpPresent(dump, q0, q, a.t, th.id);
    }
    forall u
      ensures Get(q', u) == if Active(Get(s', u)) then Get(s', u) else Idle
      ensures Get(q', u).Running? ==> q'.owner == Some(u) && q'.count == Level(Get(q', u))
    {
      if u != a.t {
        assert Get(q, u) == Idle && Get(s', u) == Get(s, u);
      }
    }
  }

  /** A step that neither was active nor becomes so writes nothing. */
  lemma {:induction false} QuietStep(dump: nat -> bool, s: Sys, q: Sys, a: Action)
    requires Constant(dump) && ThreadInv(dump, s, a.t) && Exact(dump, s, a.t)
    requires Sim(s, q) && Next(dump, s, a).Some? && !Active(Get(s, a.t)) && !Wakes(dump, s, a)
    ensures Sim(Next(dump, s, a).value, q)
  {
    var th, s' := Get(s, a.t), Next(dump, s, a).value;
    assert s'.log == s.log && s'.frame == s.frame;
    forall u
      ensures Get(q, u) == if Active(Get(s', u)) then Get(s', u) else Idle
    {
      if u != a.t {
        assert Get(s', u) == Get(s, u);
      }
    }
  }

  lemma {:induction false} SimStep(dump: nat -> bool, q0: Sys, s: Sys, q: Sys, a: Action) returns (q': Sys)
    requires Constant(dump) && Inv(dump, s) && ExactInv(dump, s)
    requires Sim(s, q) && SeqReaches(dump, q0, q) && Next(dump, s, a).Some?
    ensures SeqReaches(dump, q0, q') && Sim(Next(dump, s, a).value, q')
  {
    assert ThreadInv(dump, s, a.t) && Exact(dump, s, a.t);
    if Active(Get(s, a.t)) {
      OnlyActive(dump, s, a.t);
      q' := ActiveStep(dump, q0, s, q, a);
    } else if Wakes(dump, s, a) {
      WakerOwns(dump, s, a);
      NoOtherActive(dump, s, a.t);
      q' := WakeStep(dump, q0, s, q, a);
    } else {
      QuietStep(dump, s, q, a);
      q' := q;
    }
  }

  lemma {:induction false} OnlyActive(dump: nat -> bool, s: Sys, t: Tid)
    requires Constant(dump) && Inv(dump, s) && ExactInv(dump, s) && Active(Get(s, t))
    ensures forall u :: u != t ==> !Active(Get(s, u))
  {
    assert ThreadInv(dump, s, t) && Exact(dump, s, t);
    ActiveOwns(dump, s, t);
    NoOtherActive(dump, s, t);
  }

  lemma {:induction false} NoOtherActive(dump: nat -> bool, s: Sys, t: Tid)
    requires Constant(dump) && Inv(dump, s) && ExactInv(dump, s) && s.owner == Some(t)
    ensures forall u :: u != t ==> !Active(Get(s, u))
  {
    forall u | u != t
      ensures !Active(Get(s, u))
    {
      assert ThreadInv(dump, s, u) && Exact(dump, s, u);
      if Active(Get(s, u)) {
        ActiveOwns(dump, s, u);
      }
    }
  }

  lemma {:induction false} WakerOwns(dump: nat -> bool, s: Sys, a: Action)
    requires Constant(dump) && ThreadInv(dump, s, a.t) && Exact(dump, s, a.t)
             && Next(dump, s, a).Some? && Wakes(dump, s, a)
    ensures s.owner == Some(a.t)
  {
    var th := Get(s, a.t);
    assert a.Step? && th.Running?;
    assert th.phase in {HeadWrite, BodyCheck, BodyWrite};
  }

  lemma {:induction false} SimRun(dump: nat -> bool, q0: Sys, s: Sys, q: Sys, actions: seq<Action>) returns (q': Sys)
    requires Constant(dump) && Inv(dump, s) && ExactInv(dump, s)
    requires Sim(s, q) && SeqReaches(dump, q0, q) && Run(dump, s, actions).Some?
    ensures SeqReaches(dump, q0, q') && Sim(Run(dump, s, actions).value, q')
    decreases |actions|
  {
    if actions == [] {
      q' := q;
    } else {
      var q1 := SimStep(dump, q0, s, q, actions[0]);
      ExactNext(dump, s, actions[0]);
      InvNext(dump, s, actions[0]);
      q' := SimRun(dump, q0, Next(dump, s, actions[0]).value, q1, actions[1..]);
    }
  }

  // ---------- What every sequential run keeps ----------

  function Switches(log: seq<Event>): nat {
    if log == [] then 0 else Switches(log[..|log| - 1]) + if log[|log| - 1].Switch? then 1 else 0
  }

  /** Every piece was written in a dumped frame. */
  ghost predicate InDumped(dump: nat -> bool, log: seq<Event>) {
    forall i :: 0 <= i < |log| && log[i].Piece? ==> dump(Switches(log[..i]))
  }

  /** At most one call is under way, and its flags fit its frame. */
  ghost predicate SeqInv(dump: nat -> bool, s: Sys) {
    && Inv(dump, s) && InDumped(dump, s.log) && s.frame == Switches(s.log)
    && (forall t, u :: Get(s, t).Running? && Get(s, u).Running? ==> t == u)
    && (forall t :: FitsFrame(dump, s.frame, Get(s, t)))
  }

  predicate FitsFrame(dump: nat -> bool, frame: nat, th: Thread) {
    th.Running? ==>
      && (th.phase in {HeadAcquire, HeadWrite, BodyWrite} ==> dump(frame))
      && (th.phase in {Driver, BodyCheck} ==> th.dumped == dump(frame))
  }

  lemma {:induction false} InDumpedSnoc(dump: nat -> bool, log: seq<Event>, es: seq<Event>)
    requires InDumped(dump, log) && |es| <= 1 && (es != [] && es[0].Piece? ==> dump(Switches(log)))
    ensures InDumped(dump, log + es)
  {
    var all := log + es;
    if es == [] {
      assert all == log;
    } else {
      assert all[..|all| - 1] == log;
      forall i | 0 <= i < |all| && all[i].Piece?
        ensures dump(Switches(all[..i]))
      {
        assert i < |log| ==> all[i] == log[i] && all[..i] == log[..i];
        assert i == |log| ==> all[..i] == log && all[i] == es[0];
      }
    }
  }

  lemma {:induction false} SeqLogStep(dump: nat -> bool, s: Sys, a: Action)
    requires SeqInv(dump, s) && Next(dump, s, a).Some?
    ensures var s' := Next(dump, s, a).value; InDumped(dump, s'.log) && s'.frame == Switches(s'.log)
  {
    assert FitsFrame(dump, s.frame, Get(s, a.t));
    LogIs(dump, s, a);
    LoggedFits(dump, s, a);
    InDumpedSnoc(dump, s.log, Logged(s, a));
    SwitchesSnoc(s.log, Logged(s, a));
  }

  lemma {:induction false} LoggedFits(dump: nat -> bool, s: Sys, a: Action)
    requires FitsFrame(dump, s.frame, Get(s, a.t)) && Next(dump, s, a).Some?
    ensures |Logged(s, a)| <= 1 && (Logged(s, a) != [] && Logged(s, a)[0].Piece? ==> dump(s.frame))
  {
  }

  lemma {:induction false} FitsNext(dump: nat -> bool, s: Sys, a: Action)
    requires ThreadInv(dump, s, a.t) && FitsFrame(dump, s.frame, Get(s, a.t)) && Next(dump, s, a).Some?
    ensures !Stray(dump, s, a)
    ensures var s' := Next(dump, s, a).value; FitsFrame(dump, s'.frame, Get(s', a.t))
    ensures var s' := Next(dump, s, a).value; forall u :: u != a.t ==> Get(s', u) == Get(s, u)
  {
    var th := Get(s, a.t);
    if th.Running? {
      match th.phase
      case Advance =>
      case _ =>
    }
  }

  lemma {:induction false} SeqStep(dump: nat -> bool, s: Sys, a: Action)
    requires SeqInv(dump, s) && Next(dump, s, a).Some? && (a.Begin? ==> NoneRunning(s))
    ensures SeqInv(dump, Next(dump, s, a).value)
  {
    var s' := Next(dump, s, a).value;
    assert ThreadInv(dump, s, a.t) && FitsFrame(dump, s.frame, Get(s, a.t));
    FitsNext(dump, s, a);
    InvNext(dump, s, a);
    SeqLogStep(dump, s, a);
    OthersIdle(dump, s, a);
    forall u
      ensures FitsFrame(dump, s'.frame, Get(s', u))
      ensures u != a.t ==> Get(s', u).Idle?
    {
      if u != a.t {
        assert Get(s', u) == Get(s, u);
      }
    }
  }

  lemma {:induction false} OthersIdle(dump: nat -> bool, s: Sys, a: Action)
    requires SeqInv(dump, s) && Next(dump, s, a).Some? && (a.Begin? ==> NoneRunning(s))
    ensures forall u :: u != a.t ==> Get(s, u).Idle?
  {
    if a.Step? {
      assert Get(s, a.t).Running?;
    }
  }

  lemma {:induction false} SeqRun(dump: nat -> bool, s: Sys, actions: seq<Action>)
    requires SeqInv(dump, s) && Run(dump, s, actions).Some? && OneAtATime(dump, s, actions)
    ensures SeqInv(dump, Run(dump, s, actions).value)
    decreases |actions|
  {
    if actions != [] {
      SeqStep(dump, s, actions[0]);
      SeqRun(dump, Next(dump, s, actions[0]).value, actions[1..]);
    }
  }

  lemma {:induction false} SeqKeeps(dump: nat -> bool, q: Sys)
    requires SeqReaches(dump, START, q)
    ensures Contiguous(q.log) && InDumped(dump, q.log)
  {
    StartInv(dump);
    var actions :| Run(dump, START, actions) == Some(q) && OneAtATime(dump, START, actions);
    SeqRun(dump, START, actions);
  }

  // ---------- The main result ----------

  ghost predicate HasSequentialLog(dump: nat -> bool, s: Sys) {
    exists q :: SeqReaches(dump, START, q) && q.log == s.log
  }

  /** Thread 0 tests a dumped frame, thread 1 presents up to an undumped one, and thread 0 writes there. */
  lemma {:induction false} LatePiece(dump: nat -> bool, f: nat, g: nat) returns (s: Sys)
    requires f < g && dump(f) && !dump(g)
    ensures Reaches(dump, START, s) && !InDumped(dump, s.log)
  {
    s := TestThenPresent(dump, f, g);
    SwitchesAre(dump, s);
    var log := s.log;
    s := Go(dump, START, s, Step(0, false));
    s := Go(dump, START, s, Step(0, false));
    assert s.log == log + [Piece(0, 0, 0)] && s.log[..|log|] == log;
    assert !dump(Switches(s.log[..|log|]));
  }

  lemma {:induction false} SwitchesAre(dump: nat -> bool, s: Sys)
    requires Reaches(dump, START, s)
    ensures s.frame == Switches(s.log)
  {
    var actions :| Run(dump, START, actions) == Some(s);
    SwitchesRun(dump, START, actions);
  }

  lemma {:induction false} SwitchesSnoc(log: seq<Event>, es: seq<Event>)
    requires |es| <= 1
    ensures Switches(log + es) == Switches(log) + if es != [] && es[0].Switch? then 1 else 0
  {
    if es == [] {
      assert log + es == log;
    } else {
      assert (log + es)[..|log|] == log;
    }
  }

  lemma {:induction false} SwitchesRun(dump: nat -> bool, s: Sys, actions: seq<Action>)
    requires s.frame == Switches(s.log) && Run(dump, s, actions).Some?
    ensures var s' := Run(dump, s, actions).value; s'.frame == Switches(s'.log)
    decreases |actions|
  {
    if actions != [] {
      LogIs(dump, s, actions[0]);
      SwitchesSnoc(s.log, Logged(s, actions[0]));
      SwitchesRun(dump, Next(dump, s, actions[0]).value, actions[1..]);
    }
  }

  /** The log of every interleaving is the log of some sequential run exactly if all frames are dumped or none is. */
  lemma {:induction false} SequentialIff(dump: nat -> bool)
    ensures (forall s :: Reaches(dump, START, s) ==> HasSequentialLog(dump, s)) <==> Constant(dump)
  {
    if Constant(dump) {
      forall s | Reaches(dump, START, s)
        ensures HasSequentialLog(dump, s)
      {
        var actions :| Run(dump, START, actions) == Some(s);
        StartInv(dump);
        SeqSelf(dump, START);
        var q := SimRun(dump, START, START, START, actions);
      }
    } else {
      var f: nat, g: nat :| dump(f) != dump(g);
      var s := UnsequentialRun(dump, if f < g then f else g, if f < g then g else f);
    }
  }

  lemma {:induction false} UnsequentialRun(dump: nat -> bool, lo: nat, hi: nat) returns (s: Sys)
    requires lo < hi && dump(lo) != dump(hi)
    ensures Reaches(dump, START, s) && !HasSequentialLog(dump, s)
  {
    if dump(lo) {
      s := LatePiece(dump, lo, hi);
    } else {
      s := SplitText(dump, lo, hi);
    }
    if q :| SeqReaches(dump, START, q) && q.log == s.log {
      SeqKeeps(dump, q);
    }
  }
}
