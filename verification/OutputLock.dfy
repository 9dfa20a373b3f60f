/**
 The re-entrant output lock of the api_dump layer, held from the head of a call to its body. A state machine over
 the steps of the generated entry points: any number of threads, interleaved at every test of the dump flag, every
 acquire and release, every piece of text and every frame change. `dump` says which frames are dumped.
 */
module OutputLock {
  import opened Options

  type Tid = nat

  /** The generic entry points, vkQueuePresentKHR, and the two functions that name objects. */
  datatype Kind = Generic | Present | Named

  datatype Phase =
    | Enter           // before the first statement
    | HeadCheck       // head: shouldDumpOutput()
    | HeadAcquire     // head: outputMutex()->lock()
    | HeadWrite
    | Driver          // the call down the chain
    | BodyCheck       // body: shouldDumpOutput()
    | BodyWrite
    | BodyRelease     // body: outputMutex()->unlock()
    | Advance         // present: nextFrame()
    | FinalRelease    // present: the outer unlock()

  /** `dumped` records whether the head was written, `next` counts the pieces of text written so far. */
  datatype Thread = Idle | Running(kind: Kind, id: nat, phase: Phase, dumped: bool, next: nat)

  datatype Event = Piece(t: Tid, id: nat, k: nat) | Switch(t: Tid)

  datatype Sys = Sys(owner: Option<Tid>, count: nat, frame: nat,
                     threads: map<Tid, Thread>, log: seq<Event>, fault: bool)

  const START := Sys(None, 0, 0, map[], [], false)

  function Get(s: Sys, t: Tid): Thread {
    if t in s.threads then s.threads[t] else Idle
  }

  function Put(s: Sys, t: Tid, th: Thread): Sys {
    s.(threads := s.threads[t := th])
  }

  /** lock() of a recursive mutex; None while another thread holds it. */
  function Acquire(s: Sys, t: Tid): Option<Sys> {
    if s.owner.None? || s.owner == Some(t) then Some(s.(owner := Some(t), count := s.count + 1)) else None
  }

  /** unlock(); without owning the mutex it is a fault. */
  function Release(s: Sys, t: Tid): Sys {
    if s.owner != Some(t) || s.count == 0 then s.(fault := true)
    else s.(count := s.count - 1, owner := if s.count == 1 then None else s.owner)
  }

  function Write(s: Sys, t: Tid, th: Thread): Sys
    requires th.Running?
  {
    s.(log := s.log + [Piece(t, th.id, th.next)])
  }

  function AfterBody(th: Thread): Thread
    requires th.Running?
  {
    match th.kind
    case Generic => Idle
    case Present => th.(phase := Advance)
    case Named => th.(phase := BodyRelease)
  }

  function AfterRelease(th: Thread): Thread
    requires th.Running?
  {
    if th.kind == Present then th.(phase := Advance) else Idle
  }

  datatype Action = Begin(t: Tid, kind: Kind, id: nat) | Step(t: Tid, more: bool)

  /** One step of one thread; None if it cannot be taken. `more` says whether another piece of text follows. */
  function Next(dump: nat -> bool, s: Sys, a: Action): Option<Sys> {
    match a
    case Begin(t, kind, id) =>
      if Get(s, t).Idle? then Some(Put(s, t, Running(kind, id, Enter, false, 0))) else None
    case Step(t, more) =>
      var th := Get(s, t);
      if th.Idle? then None
      else match th.phase
        case Enter =>
          if th.kind == Generic then Some(Put(s, t, th.(phase := HeadCheck)))
          else (match Acquire(s, t)
                case None => None
                case Some(s1) => Some(Put(s1, t, th.(phase := HeadCheck))))
        case HeadCheck =>
          Some(Put(s, t,
            if !dump(s.frame) then th.(phase := Driver)
            else if th.kind == Named then th.(phase := HeadWrite, dumped := true)
            else th.(phase := HeadAcquire)))
        case HeadAcquire =>
          (match Acquire(s, t)
           case None => None
           case Some(s1) => Some(Put(s1, t, th.(phase := HeadWrite, dumped := true))))
        case HeadWrite =>
          Some(Put(Write(s, t, th), t, th.(phase := if more then HeadWrite else Driver, next := th.next + 1)))
        case Driver => Some(Put(s, t, th.(phase := BodyCheck)))
        case BodyCheck => Some(Put(s, t, if dump(s.frame) then th.(phase := BodyWrite) else AfterBody(th)))
        case BodyWrite =>
          Some(Put(Write(s, t, th), t, th.(phase := if more then BodyWrite else BodyRelease, next := th.next + 1)))
        case BodyRelease => Some(Put(Release(s, t), t, AfterRelease(th)))
        case Advance =>
          Some(Put(s.(frame := s.frame + 1, log := s.log + [Switch(t)]), t, th.(phase := FinalRelease)))
        case FinalRelease => Some(Put(Release(s, t), t, Idle))
  }

  /** The state after a list of actions, or None if one of them cannot be taken. */
  function Run(dump: nat -> bool, s: Sys, actions: seq<Action>): Option<Sys>
    decreases |actions|
  {
    if actions == [] then Some(s)
    else match Next(dump, s, actions[0])
      case None => None
      case Some(s1) => Run(dump, s1, actions[1..])
  }

  /** The case the protocol does not handle: the head found its frame undumped and the body finds a dumped one. */
  predicate Stray(dump: nat -> bool, s: Sys, a: Action) {
    a.Step? && var th := Get(s, a.t);
    th.Running? && th.kind == Generic && th.phase == BodyCheck && !th.dumped && dump(s.frame)
  }

  // ---------- Mutual exclusion ----------

  /** How often a thread must hold the lock at least. */
  function Level(th: Thread): nat {
    if th.Idle? || th.phase == Enter then 0
    else
      (if th.kind == Generic then 0 else 1)
      + if th.kind != Named
           && (th.phase == HeadWrite || (th.phase in {Driver, BodyCheck} && th.dumped)
               || th.phase in {BodyWrite, BodyRelease})
        then 1 else 0
  }

  /** Between the first piece of a call's text and the release in its body. */
  predicate Dumping(th: Thread) {
    th.Running? && th.dumped && th.phase in {HeadWrite, Driver, BodyCheck, BodyWrite, BodyRelease}
  }

  ghost predicate ThreadInv(dump: nat -> bool, s: Sys, t: Tid) {
    var th := Get(s, t);
    && (Level(th) > 0 ==> s.owner == Some(t) && s.count >= Level(th))
    && (th.Running? && th.phase in {Advance, FinalRelease} ==> th.kind == Present)
    && (th.Running? && th.phase == HeadAcquire ==> th.kind != Named)
    && (th.Running? && th.phase in {HeadWrite, BodyWrite} ==> th.dumped)
    && (th.Running? && th.phase in {Enter, HeadCheck, HeadAcquire} ==> !th.dumped)
    && (th.Running? && th.phase == BodyRelease && th.kind != Named ==> th.dumped)
    && (th.Running? && !th.dumped ==> th.next == 0)
    && (th.Running? && th.dumped && th.phase in {Driver, BodyCheck, BodyWrite, BodyRelease} ==> th.next > 0)
    && (th.Running? && th.kind != Generic && th.phase in {HeadAcquire, HeadWrite} ==> dump(s.frame))
    && (th.Running? && th.kind != Generic && th.phase in {Driver, BodyCheck} ==> th.dumped == dump(s.frame))
    && (Dumping(th) && th.next > 0 && th.phase != BodyRelease ==>
          s.log != [] && s.log[|s.log| - 1] == Piece(t, th.id, th.next - 1))
  }

  /** Every piece of a call's text but the first comes right behind the one before it. */
  ghost predicate Contiguous(log: seq<Event>) {
    forall i :: 0 <= i < |log| && log[i].Piece? && log[i].k > 0 ==>
      i > 0 && log[i - 1] == Piece(log[i].t, log[i].id, log[i].k - 1)
  }

  ghost predicate Inv(dump: nat -> bool, s: Sys) {
    && !s.fault
    && (s.owner.None? <==> s.count == 0)
    && (forall t :: ThreadInv(dump, s, t))
    && Contiguous(s.log)
  }

  /** While some other thread has to hold the lock, a step writes nothing and changes neither lock nor frame. */
  lemma {:induction false} OthersBlocked(dump: nat -> bool, s: Sys, a: Action, u: Tid)
    requires ThreadInv(dump, s, u) && ThreadInv(dump, s, a.t) && Level(Get(s, u)) > 0 && a.t != u
    requires Next(dump, s, a).Some? && !Stray(dump, s, a)
    ensures var s' := Next(dump, s, a).value;
            s' == s.(threads := s'.threads) && Get(s', u) == Get(s, u)
  {
    var th := Get(s, a.t);
    assert s.owner == Some(u);
    assert Level(th) == 0;
    if th.Running? {
      match th.phase
      case BodyWrite => assert false;
      case HeadWrite => assert false;
      case BodyRelease => assert false;
      case _ =>
    }
  }

  lemma {:induction false} OtherThreads(dump: nat -> bool, s: Sys, a: Action, u: Tid)
    requires ThreadInv(dump, s, u) && ThreadInv(dump, s, a.t) && a.t != u
    requires Next(dump, s, a).Some? && !Stray(dump, s, a)
    ensures ThreadInv(dump, Next(dump, s, a).value, u)
  {
    if Level(Get(s, u)) > 0 {
      OthersBlocked(dump, s, a, u);
    } else {
      assert Get(Next(dump, s, a).value, u) == Get(s, u);
    }
  }

  lemma {:induction false} OwnThreadInHead(dump: nat -> bool, s: Sys, a: Action)
    requires Get(s, a.t).Running? ==> Get(s, a.t).phase in {Enter, HeadCheck, HeadAcquire, HeadWrite}
    requires ThreadInv(dump, s, a.t) && !s.fault && (s.owner.None? <==> s.count == 0)
    requires Next(dump, s, a).Some? && !Stray(dump, s, a)
    ensures var s' := Next(dump, s, a).value;
            ThreadInv(dump, s', a.t) && !s'.fault && (s'.owner.None? <==> s'.count == 0)
  {
    var th := Get(s, a.t);
    if th.Running? {
      match th.phase
      case Enter =>
      case HeadCheck =>
      case HeadAcquire =>
      case HeadWrite =>
      case _ =>
    }
  }

  lemma {:induction false} OwnThreadBehindHead(dump: nat -> bool, s: Sys, a: Action)
    requires Get(s, a.t).Running? && Get(s, a.t).phase !in {Enter, HeadCheck, HeadAcquire, HeadWrite}
    requires ThreadInv(dump, s, a.t) && !s.fault && (s.owner.None? <==> s.count == 0)
    requires Next(dump, s, a).Some? && !Stray(dump, s, a)
    ensures var s' := Next(dump, s, a).value;
            ThreadInv(dump, s', a.t) && !s'.fault && (s'.owner.None? <==> s'.count == 0)
  {
    if Get(s, a.t).phase in {BodyRelease, FinalRelease} {
      OwnThreadReleases(dump, s, a);
    }
  }

  lemma {:induction false} OwnThreadReleases(dump: nat -> bool, s: Sys, a: Action)
    requires Get(s, a.t).Running? && Get(s, a.t).phase in {BodyRelease, FinalRelease}
    requires ThreadInv(dump, s, a.t) && !s.fault && (s.owner.None? <==> s.count == 0) && Next(dump, s, a).Some?
    ensures var s' := Next(dump, s, a).value;
            ThreadInv(dump, s', a.t) && !s'.fault && (s'.owner.None? <==> s'.count == 0)
  {
  }

  lemma {:induction false} OwnThread(dump: nat -> bool, s: Sys, a: Action)
    requires ThreadInv(dump, s, a.t) && !s.fault && (s.owner.None? <==> s.count == 0)
    requires Next(dump, s, a).Some? && !Stray(dump, s, a)
    ensures var s' := Next(dump, s, a).value;
            ThreadInv(dump, s', a.t) && !s'.fault && (s'.owner.None? <==> s'.count == 0)
  {
    var th := Get(s, a.t);
    if th.Running? && th.phase !in {Enter, HeadCheck, HeadAcquire, HeadWrite} {
      OwnThreadBehindHead(dump, s, a);
    } else {
      OwnThreadInHead(dump, s, a);
    }
  }

  /** What a step adds to the log. */
  function Logged(s: Sys, a: Action): (es: seq<Event>)
    ensures |es| <= 1
  {
    if a.Begin? || Get(s, a.t).Idle? then []
    else
      var th := Get(s, a.t);
      if th.phase in {HeadWrite, BodyWrite} then [Piece(a.t, th.id, th.next)]
      else if th.phase == Advance then [Switch(a.t)]
      else []
  }

  lemma {:induction false} LogIs(dump: nat -> bool, s: Sys, a: Action)
    requires Next(dump, s, a).Some?
    ensures var s' := Next(dump, s, a).value;
            && s'.log == s.log + Logged(s, a)
            && s'.frame == s.frame + if a.Step? && Get(s, a.t).Running? && Get(s, a.t).phase == Advance then 1 else 0
  {
    assert s.log + [] == s.log;
  }

  lemma {:induction false} ContiguousSnoc(log: seq<Event>, es: seq<Event>)
    requires Contiguous(log) && |es| <= 1
    requires es != [] && es[0].Piece? && es[0].k > 0 ==>
               log != [] && log[|log| - 1] == Piece(es[0].t, es[0].id, es[0].k - 1)
    ensures Contiguous(log + es)
  {
  }

  lemma {:induction false} LogStep(dump: nat -> bool, s: Sys, a: Action)
    requires ThreadInv(dump, s, a.t) && Contiguous(s.log) && Next(dump, s, a).Some? && !Stray(dump, s, a)
    ensures Contiguous(Next(dump, s, a).value.log)
  {
    LogIs(dump, s, a);
    PieceFollows(dump, s, a);
    ContiguousSnoc(s.log, Logged(s, a));
  }

  lemma {:induction false} PieceFollows(dump: nat -> bool, s: Sys, a: Action)
    requires ThreadInv(dump, s, a.t) && Next(dump, s, a).Some? && !Stray(dump, s, a)
    ensures var es := Logged(s, a);
            es != [] && es[0].Piece? && es[0].k > 0 ==>
              s.log != [] && s.log[|s.log| - 1] == Piece(es[0].t, es[0].id, es[0].k - 1)
  {
  }

  lemma {:induction false} InvNext(dump: nat -> bool, s: Sys, a: Action)
    requires Inv(dump, s) && Next(dump, s, a).Some? && !Stray(dump, s, a)
    ensures Inv(dump, Next(dump, s, a).value)
  {
    assert ThreadInv(dump, s, a.t);
    OwnThread(dump, s, a);
    LogStep(dump, s, a);
    forall t
      ensures ThreadInv(dump, Next(dump, s, a).value, t)
    {
      assert ThreadInv(dump, s, t);
      if t != a.t {
        OtherThreads(dump, s, a, t);
      }
    }
  }

  /** A dumping thread keeps the others from writing and from changing the frame. */
  lemma {:induction false} OthersWait(dump: nat -> bool, s: Sys, a: Action, u: Tid)
    requires Inv(dump, s) && Dumping(Get(s, u)) && a.t != u && Next(dump, s, a).Some? && !Stray(dump, s, a)
    ensures var s' := Next(dump, s, a).value;
            s'.log == s.log && s'.frame == s.frame && s'.owner == s.owner && s'.count == s.count
            && Get(s', u) == Get(s, u)
  {
    assert ThreadInv(dump, s, u);
    assert ThreadInv(dump, s, a.t);
    OthersBlocked(dump, s, a, u);
  }

  lemma {:induction false} StartInv(dump: nat -> bool)
    ensures Inv(dump, START)
  {
  }

  // ---------- Which output ranges keep the discipline ----------

  ghost predicate Reaches(dump: nat -> bool, s: Sys, s': Sys) {
    exists actions :: Run(dump, s, actions) == Some(s')
  }

  lemma {:induction false} RunCat(dump: nat -> bool, s: Sys, a: seq<Action>, b: seq<Action>)
    requires Run(dump, s, a).Some?
    ensures Run(dump, s, a + b) == Run(dump, Run(dump, s, a).value, b)
    decreases |a|
  {
    if a == [] {
      assert a + b == b;
    } else {
      RunCat(dump, Next(dump, s, a[0]).value, a[1..], b);
      assert (a + b)[1..] == a[1..] + b;
    }
  }

  lemma {:induction false} ReachTrans(dump: nat -> bool, s: Sys, s1: Sys, s2: Sys)
    requires Reaches(dump, s, s1) && Reaches(dump, s1, s2)
    ensures Reaches(dump, s, s2)
  {
    var a :| Run(dump, s, a) == Some(s1);
    var b :| Run(dump, s1, b) == Some(s2);
    RunCat(dump, s, a, b);
    assert Run(dump, s, a + b) == Some(s2);
  }

  lemma {:induction false} ReachSelf(dump: nat -> bool, s: Sys)
    ensures Reaches(dump, s, s)
  {
    assert Run(dump, s, []) == Some(s);
  }

  lemma {:induction false} Go(dump: nat -> bool, s0: Sys, s: Sys, a: Action) returns (s': Sys)
    requires Reaches(dump, s0, s) && Next(dump, s, a).Some?
    ensures s' == Next(dump, s, a).value && Reaches(dump, s0, s')
  {
    s' := Next(dump, s, a).value;
    assert [a][1..] == [];
    assert Run(dump, s', []) == Some(s');
    assert Run(dump, s, [a]) == Some(s');
    ReachTrans(dump, s0, s, s');
  }

  /** The lock is free and the thread is between two calls. */
  predicate Free(s: Sys, t: Tid) {
    s.owner.None? && s.count == 0 && Get(s, t).Idle?
  }

  /** Thread `t` has run alone since `s0` and has not changed the frame; it is at `th` and holds the lock `n` times. */
  ghost predicate Solo(dump: nat -> bool, s0: Sys, s: Sys, t: Tid, th: Thread, n: nat) {
    && Reaches(dump, s0, s) && Get(s, t) == th
    && s.owner == (if n > 0 then Some(t) else None) && s.count == n
    && s.frame == s0.frame && s.fault == s0.fault && forall u :: u != t ==> Get(s, u) == Get(s0, u)
  }

  /** The next place and the next count of a thread that runs alone and writes one piece at a time. */
  function SoloNext(dump: nat -> bool, frame: nat, th: Thread, n: nat): (Thread, nat)
    requires th.Running?
  {
    match th.phase
    case Enter => (th.(phase := HeadCheck), if th.kind == Generic then n else n + 1)
    case HeadCheck =>
      (if !dump(frame) then th.(phase := Driver)
       else if th.kind == Named then th.(phase := HeadWrite, dumped := true)
       else th.(phase := HeadAcquire), n)
    case HeadAcquire => (th.(phase := HeadWrite, dumped := true), n + 1)
    case HeadWrite => (th.(phase := Driver, next := th.next + 1), n)
    case Driver => (th.(phase := BodyCheck), n)
    case BodyCheck => (if dump(frame) then th.(phase := BodyWrite) else AfterBody(th), n)
    case BodyWrite => (th.(phase := BodyRelease, next := th.next + 1), n)
    case BodyRelease => (AfterRelease(th), if n > 0 then n - 1 else 0)
    case _ => (Idle, if n > 0 then n - 1 else 0)
  }

  lemma {:induction false} SoloStep(dump: nat -> bool, s0: Sys, s: Sys, t: Tid, th: Thread, n: nat) returns (s': Sys)
    requires Solo(dump, s0, s, t, th, n) && th.Running? && th.phase != Advance
    requires th.phase in {BodyRelease, FinalRelease} ==> n > 0
    ensures Solo(dump, s0, s', t, SoloNext(dump, s0.frame, th, n).0, SoloNext(dump, s0.frame, th, n).1)
  {
    s' := Go(dump, s0, s, Step(t, false));
  }

  lemma {:induction false} SoloBegin(dump: nat -> bool, s: Sys, t: Tid, kind: Kind) returns (s': Sys)
    requires Free(s, t)
    ensures Solo(dump, s, s', t, Running(kind, 0, Enter, false, 0), 0)
  {
    ReachSelf(dump, s);
    s' := Go(dump, s, s, Begin(t, kind, 0));
  }

  /** The head of a present: the outer lock, the test and, in a dumped frame, the inner lock and the text. */
  lemma {:induction false} PresentHead(dump: nat -> bool, s: Sys, t: Tid) returns (s': Sys)
    requires Free(s, t)
    ensures var d := dump(s.frame);
            Solo(dump, s, s', t, Running(Present, 0, Driver, d, if d then 1 else 0), if d then 2 else 1)
  {
    var th := Running(Present, 0, Enter, false, 0);
    s' := SoloBegin(dump, s, t, Present);
    s' := SoloStep(dump, s, s', t, th, 0);
    s' := SoloStep(dump, s, s', t, th.(phase := HeadCheck), 1);
    if dump(s.frame) {
      s' := SoloStep(dump, s, s', t, th.(phase := HeadAcquire), 1);
      s' := SoloStep(dump, s, s', t, th.(phase := HeadWrite, dumped := true), 2);
    }
  }

  /** A present that nobody interrupts moves to the next frame and leaves everything else as it was. */
  lemma {:induction false} PresentOnce(dump: nat -> bool, s: Sys, t: Tid) returns (s': Sys)
    requires Free(s, t)
    ensures Reaches(dump, s, s') && Free(s', t) && s'.frame == s.frame + 1 && s'.fault == s.fault
    ensures forall u :: u != t ==> Get(s', u) == Get(s, u)
  {
    s' := PresentHead(dump, s, t);
    var d := dump(s.frame);
    var th, n := Running(Present, 0, Driver, d, if d then 1 else 0), if d then 2 else 1;
    s' := SoloStep(dump, s, s', t, th, n);
    s' := SoloStep(dump, s, s', t, th.(phase := BodyCheck), n);
    if d {
      s' := SoloStep(dump, s, s', t, th.(phase := BodyWrite), n);
      s' := SoloStep(dump, s, s', t, th.(phase := BodyRelease, next := 2), n);
      th := th.(next := 2);
    }
    s' := AdvanceOnce(dump, s, s', t, th.(phase := Advance));
  }

  lemma {:induction false} AdvanceOnce(dump: nat -> bool, s0: Sys, s: Sys, t: Tid, th: Thread) returns (s': Sys)
    requires Solo(dump, s0, s, t, th, 1) && th.Running? && th.phase == Advance
    ensures Reaches(dump, s0, s') && Free(s', t) && s'.frame == s0.frame + 1 && s'.fault == s0.fault
    ensures forall u :: u != t ==> Get(s', u) == Get(s0, u)
  {
    s' := Go(dump, s0, s, Step(t, false));
    s' := Go(dump, s0, s', Step(t, false));
  }

  /** Presents until frame `f`. */
  lemma {:induction false} PresentUntil(dump: nat -> bool, s: Sys, t: Tid, f: nat) returns (s': Sys)
    requires Free(s, t) && s.frame <= f
    ensures Reaches(dump, s, s') && Free(s', t) && s'.frame == f && s'.fault == s.fault
    ensures forall u :: u != t ==> Get(s', u) == Get(s, u)
    decreases f - s.frame
  {
    if s.frame == f {
      ReachSelf(dump, s);
      s' := s;
    } else {
      var s1 := PresentOnce(dump, s, t);
      s' := PresentUntil(dump, s1, t, f);
      ReachTrans(dump, s, s1, s');
    }
  }

  /** No frame is dumped behind one that is not. */
  ghost predicate StopsForGood(dump: nat -> bool) {
    forall f: nat, g: nat :: f < g && dump(g) ==> dump(f)
  }

  ghost predicate NoFault(dump: nat -> bool) {
    forall s :: Reaches(dump, START, s) ==> !s.fault
  }

  /** Thread 0 tests the flag in frame `f`, then thread 1 presents up to frame `g`. */
  lemma {:induction false} TestThenPresent(dump: nat -> bool, f: nat, g: nat) returns (s: Sys)
    requires f <= g
    ensures Reaches(dump, START, s) && Free(s, 1) && s.frame == g && !s.fault
    ensures Get(s, 0) == Running(Generic, 0, if dump(f) then HeadAcquire else Driver, false, 0)
    ensures forall u :: u > 1 ==> Get(s, u).Idle?
  {
    var s1 := PresentUntil(dump, START, 1, f);
    var th := Running(Generic, 0, Enter, false, 0);
    var s2 := SoloBegin(dump, s1, 0, Generic);
    s2 := SoloStep(dump, s1, s2, 0, th, 0);
    s2 := SoloStep(dump, s1, s2, 0, th.(phase := HeadCheck), 0);
    s := PresentUntil(dump, s2, 1, g);
    ReachTrans(dump, START, s1, s2);
    ReachTrans(dump, START, s2, s);
  }

  /** Thread 0 tests an undumped frame, thread 1 presents up to a dumped one, and thread 0 writes without the lock. */
  lemma {:induction false} StrayFaults(dump: nat -> bool, f: nat, g: nat)
    requires f < g && !dump(f) && dump(g)
    ensures !NoFault(dump)
  {
    var s := TestThenPresent(dump, f, g);
    s := Go(dump, START, s, Step(0, false));
    s := Go(dump, START, s, Step(0, false));
    s := Go(dump, START, s, Step(0, false));
    s := Go(dump, START, s, Step(0, false));
    assert s.fault;
  }

  /** A head that found its frame undumped stays in undumped frames. */
  ghost predicate UndumpedInv(dump: nat -> bool, s: Sys) {
    forall t :: var th := Get(s, t);
      th.Running? && th.kind == Generic && th.phase in {Driver, BodyCheck} && !th.dumped ==> !dump(s.frame)
  }

  lemma {:induction false} UndumpedRun(dump: nat -> bool, s: Sys, actions: seq<Action>)
    requires StopsForGood(dump) && Inv(dump, s) && UndumpedInv(dump, s) && Run(dump, s, actions).Some?
    ensures Inv(dump, Run(dump, s, actions).value) && UndumpedInv(dump, Run(dump, s, actions).value)
    decreases |actions|
  {
    if actions != [] {
      assert !Stray(dump, s, actions[0]);
      InvNext(dump, s, actions[0]);
      UndumpedNext(dump, s, actions[0]);
      UndumpedRun(dump, Next(dump, s, actions[0]).value, actions[1..]);
    }
  }

  lemma {:induction false} UndumpedNext(dump: nat -> bool, s: Sys, a: Action)
    requires StopsForGood(dump) && Inv(dump, s) && UndumpedInv(dump, s) && Next(dump, s, a).Some?
    ensures UndumpedInv(dump, Next(dump, s, a).value)
  {
    var s' := Next(dump, s, a).value;
    assert ThreadInv(dump, s, a.t);
    assert s'.frame == s.frame || s'.frame == s.frame + 1;
    assert dump(s'.frame) ==> dump(s.frame);
    forall t
      ensures var th := Get(s', t);
              th.Running? && th.kind == Generic && th.phase in {Driver, BodyCheck} && !th.dumped ==> !dump(s'.frame)
    {
      assert t != a.t ==> Get(s', t) == Get(s, t);
    }
  }

  /**
   The lock is released only by its owner in every interleaving exactly when the dumped frames are not resumed
   after a pause.
   */
  lemma {:induction false} NoFaultIff(dump: nat -> bool)
    ensures NoFault(dump) <==> StopsForGood(dump)
  {
    if StopsForGood(dump) {
      forall s | Reaches(dump, START, s)
        ensures !s.fault
      {
        DisciplinedReach(dump, s);
      }
    } else {
      var f: nat, g: nat :| f < g && dump(g) && !dump(f);
      StrayFaults(dump, f, g);
    }
  }

  /** The text of every call is contiguous, in every interleaving. */
  ghost predicate NeverSplit(dump: nat -> bool) {
    forall s :: Reaches(dump, START, s) ==> Contiguous(s.log)
  }

  /** While a call dumps, no step of another thread writes, changes the frame or touches the lock. */
  ghost predicate Exclusive(dump: nat -> bool) {
    forall s: Sys, a: Action, u: Tid ::
      Reaches(dump, START, s) && Dumping(Get(s, u)) && a.t != u && Next(dump, s, a).Some? ==>
      var s' := Next(dump, s, a).value;
      s'.log == s.log && s'.frame == s.frame && s'.owner == s.owner && s'.count == s.count
  }

  /** Thread 2 dumps a call in frame `g`, and thread 0, whose head found frame `f` undumped, is about to write. */
  lemma {:induction false} TwoWriters(dump: nat -> bool, f: nat, g: nat) returns (s: Sys)
    requires f < g && !dump(f) && dump(g)
    ensures Reaches(dump, START, s) && s.frame == g && s.log != [] && s.log[|s.log| - 1] == Piece(2, 0, 0)
    ensures Get(s, 0) == Running(Generic, 0, BodyWrite, false, 0) && Get(s, 2) == Running(Generic, 0, Driver, true, 1)
  {
    var s1 := TestThenPresent(dump, f, g);
    var th := Running(Generic, 0, Enter, false, 0);
    s := SoloBegin(dump, s1, 2, Generic);
    s := SoloStep(dump, s1, s, 2, th, 0);
    s := SoloStep(dump, s1, s, 2, th.(phase := HeadCheck), 0);
    s := SoloStep(dump, s1, s, 2, th.(phase := HeadAcquire), 0);
    ReachTrans(dump, START, s1, s);
    s := WriteThenTest(dump, s);
  }

  /** Thread 2 writes the head of its call, and thread 0 comes back from the driver and tests the flag. */
  lemma {:induction false} WriteThenTest(dump: nat -> bool, s: Sys) returns (s': Sys)
    requires Reaches(dump, START, s) && dump(s.frame) && Get(s, 0) == Running(Generic, 0, Driver, false, 0)
    requires Get(s, 2) == Running(Generic, 0, HeadWrite, true, 0)
    ensures Reaches(dump, START, s') && s'.frame == s.frame && s'.log == s.log + [Piece(2, 0, 0)]
    ensures Get(s', 0) == Running(Generic, 0, BodyWrite, false, 0) && Get(s', 2) == Running(Generic, 0, Driver, true, 1)
  {
    s' := Go(dump, START, s, Step(2, false));
    s' := Go(dump, START, s', Step(0, false));
    s' := Go(dump, START, s', Step(0, false));
  }

  /** A run whose text is split: thread 0 writes between the head and the body of thread 2. */
  lemma {:induction false} SplitText(dump: nat -> bool, f: nat, g: nat) returns (s: Sys)
    requires f < g && !dump(f) && dump(g)
    ensures Reaches(dump, START, s) && !Contiguous(s.log)
  {
    s := TwoWriters(dump, f, g);
    s := Go(dump, START, s, Step(0, false));
    s := Go(dump, START, s, Step(2, false));
    s := Go(dump, START, s, Step(2, false));
    s := Go(dump, START, s, Step(2, false));
    var i := |s.log| - 1;
    assert s.log[i] == Piece(2, 0, 1) && s.log[i - 1] == Piece(0, 0, 0);
  }

  lemma {:induction false} DisciplinedReach(dump: nat -> bool, s: Sys)
    requires StopsForGood(dump) && Reaches(dump, START, s)
    ensures Inv(dump, s) && UndumpedInv(dump, s)
  {
    var actions :| Run(dump, START, actions) == Some(s);
    StartInv(dump);
    UndumpedRun(dump, START, actions);
  }

  /** The text of every call is contiguous in every interleaving exactly if no frame is dumped after an undumped one. */
  lemma {:induction false} ContiguousIff(dump: nat -> bool)
    ensures NeverSplit(dump) <==> StopsForGood(dump)
  {
    if StopsForGood(dump) {
      forall s | Reaches(dump, START, s)
        ensures Contiguous(s.log)
      {
        DisciplinedReach(dump, s);
      }
    } else {
      var f: nat, g: nat :| f < g && dump(g) && !dump(f);
      var s := SplitText(dump, f, g);
    }
  }

  /** A dumping call keeps all other threads out in every interleaving exactly under the same condition. */
  lemma {:induction false} ExclusiveIff(dump: nat -> bool)
    ensures Exclusive(dump) <==> StopsForGood(dump)
  {
    if StopsForGood(dump) {
      forall s: Sys, a: Action, u: Tid
        | Reaches(dump, START, s) && Dumping(Get(s, u)) && a.t != u && Next(dump, s, a).Some?
        ensures var s' := Next(dump, s, a).value;
                s'.log == s.log && s'.frame == s.frame && s'.owner == s.owner && s'.count == s.count
      {
        DisciplinedReach(dump, s);
        assert !Stray(dump, s, a);
        OthersWait(dump, s, a, u);
      }
    } else {
      var f: nat, g: nat :| f < g && dump(g) && !dump(f);
      var s := TwoWriters(dump, f, g);
      var a := Step(0, false);
      assert Dumping(Get(s, 2)) && a.t != 2 && Next(dump, s, a).Some?;
      assert |Next(dump, s, a).value.log| == |s.log| + 1;
    }
  }

  ghost predicate AllIdle(s: Sys) {
    forall t :: Get(s, t).Idle?
  }

  /** Every acquire has its release: no fault, and a free lock whenever no call is under way. */
  ghost predicate Balances(dump: nat -> bool) {
    forall s :: Reaches(dump, START, s) ==> !s.fault && (AllIdle(s) ==> s.owner.None? && s.count == 0)
  }

  /** Thread 0 tests a dumped frame, thread 1 presents up to an undumped one, and thread 0 never unlocks. */
  lemma {:induction false} LateLockStays(dump: nat -> bool, f: nat, g: nat)
    requires f < g && dump(f) && !dump(g)
    ensures !Balances(dump)
  {
    var s := TestThenPresent(dump, f, g);
    ReachSelf(dump, s);
    var th := Running(Generic, 0, HeadAcquire, false, 0);
    var s' := SoloStep(dump, s, s, 0, th, 0);
    th := th.(phase := HeadWrite, dumped := true);
    s' := SoloStep(dump, s, s', 0, th, 1);
    th := th.(phase := Driver, next := 1);
    s' := SoloStep(dump, s, s', 0, th, 1);
    s' := SoloStep(dump, s, s', 0, th.(phase := BodyCheck), 1);
    ReachTrans(dump, START, s, s');
    forall t ensures Get(s', t).Idle? {
      assert t == 0 || t == 1 || t > 1;
    }
    assert AllIdle(s') && s'.owner == Some(0);
  }

  ghost predicate Constant(dump: nat -> bool) {
    forall f: nat, g: nat :: dump(f) == dump(g)
  }

  /** With a constant dump flag the lock is held exactly as often as the owner's place in its call demands. */
  ghost predicate Exact(dump: nat -> bool, s: Sys, t: Tid) {
    var th := Get(s, t);
    && (s.owner == Some(t) ==> s.count == Level(th))
    && (th.Running? && th.phase in {HeadAcquire, HeadWrite} ==> dump(s.frame))
    && (th.Running? && th.phase in {Driver, BodyCheck} ==> th.dumped == dump(s.frame))
  }

  lemma {:induction false} ExactOwn(dump: nat -> bool, s: Sys, a: Action)
    requires Constant(dump) && ThreadInv(dump, s, a.t) && (s.owner.None? <==> s.count == 0) && Exact(dump, s, a.t)
    requires Next(dump, s, a).Some?
    ensures !Stray(dump, s, a) && Exact(dump, Next(dump, s, a).value, a.t)
  {
    var th := Get(s, a.t);
    if th.Running? && th.phase in {BodyRelease, FinalRelease} {
      ExactReleases(dump, s, a);
    } else if th.Running? {
      match th.phase
      case Enter =>
      case HeadCheck =>
      case HeadAcquire =>
      case _ =>
    }
  }

  lemma {:induction false} ExactReleases(dump: nat -> bool, s: Sys, a: Action)
    requires Get(s, a.t).Running? && Get(s, a.t).phase in {BodyRelease, FinalRelease}
    requires ThreadInv(dump, s, a.t) && (s.owner.None? <==> s.count == 0) && Exact(dump, s, a.t)
    requires Next(dump, s, a).Some?
    ensures !Stray(dump, s, a) && Exact(dump, Next(dump, s, a).value, a.t)
  {
  }

  ghost predicate ExactInv(dump: nat -> bool, s: Sys) {
    forall t :: Exact(dump, s, t)
  }

  lemma {:induction false} ExactNext(dump: nat -> bool, s: Sys, a: Action)
    requires Constant(dump) && Inv(dump, s) && ExactInv(dump, s) && Next(dump, s, a).Some?
    ensures !Stray(dump, s, a) && ExactInv(dump, Next(dump, s, a).value)
  {
    var s' := Next(dump, s, a).value;
    assert ThreadInv(dump, s, a.t) && Exact(dump, s, a.t);
    ExactOwn(dump, s, a);
    forall t ensures Exact(dump, s', t) {
      assert Exact(dump, s, t) && ThreadInv(dump, s, t);
      if t != a.t {
        ExactOther(dump, s, a, t);
      }
    }
  }

  lemma {:induction false} ExactOther(dump: nat -> bool, s: Sys, a: Action, t: Tid)
    requires Constant(dump) && ThreadInv(dump, s, a.t) && ThreadInv(dump, s, t) && Exact(dump, s, t) && t != a.t
    requires Next(dump, s, a).Some? && !Stray(dump, s, a)
    ensures Exact(dump, Next(dump, s, a).value, t)
  {
    var s' := Next(dump, s, a).value;
    assert Get(s', t) == Get(s, t) && dump(s'.frame) == dump(s.frame);
    if s'.owner == Some(t) {
      assert s.owner == Some(t);
      if Level(Get(s, t)) > 0 {
        OthersBlocked(dump, s, a, t);
      }
    }
  }

  lemma {:induction false} ExactRun(dump: nat -> bool, s: Sys, actions: seq<Action>)
    requires Constant(dump) && Inv(dump, s) && ExactInv(dump, s) && Run(dump, s, actions).Some?
    ensures Inv(dump, Run(dump, s, actions).value) && ExactInv(dump, Run(dump, s, actions).value)
    decreases |actions|
  {
    if actions != [] {
      ExactNext(dump, s, actions[0]);
      InvNext(dump, s, actions[0]);
      ExactRun(dump, Next(dump, s, actions[0]).value, actions[1..]);
    }
  }

  /** Acquires and releases balance in every interleaving exactly when all frames are dumped or none is. */
  lemma {:induction false} BalancesIff(dump: nat -> bool)
    ensures Balances(dump) <==> Constant(dump)
  {
    if Constant(dump) {
      forall s | Reaches(dump, START, s)
        ensures !s.fault && (AllIdle(s) ==> s.owner.None? && s.count == 0)
      {
        var actions :| Run(dump, START, actions) == Some(s);
        StartInv(dump);
        ExactRun(dump, START, actions);
        if s.owner.Some? {
          assert Exact(dump, s, s.owner.value);
        }
      }
    } else {
      var f: nat, g: nat :| dump(f) != dump(g);
      var lo, hi := if f < g then f else g, if f < g then g else f;
      if dump(lo) {
        LateLockStays(dump, lo, hi);
      } else {
        StrayFaults(dump, lo, hi);
      }
    }
  }
}
