/**
 The screenshot layer's run: a request for frames, then one present after another. The main results: after any
 number of presents the frames selected so far are exactly the requested ones, each once and in order; the maps are
 released at the last requested frame and not before, and are neither read nor filled again after that.
 */
module Screenshot {
  import opened Numerals
  import opened ScreenshotRange
  import Dump = FrameRanges

  type Handle = nat

  // ---------- The frame list ----------

  function CommaAt(s: string): (c: nat)
    ensures c <= |s| && ',' !in s[..c] && (c < |s| ==> s[c] == ',')
  {
    if s == "" || s[0] == ',' then 0
    else
      var c := 1 + CommaAt(s[1..]);
      assert s[..c] == [s[0]] + s[1..][..c - 1];
      c
  }

  /** atoi on a word that starts with a digit. */
  function Atoi(word: string): int {
    Narrow(DigitsValue(Dump.Split(word).0))
  }

  /** A word counts if it starts with a digit. */
  function WordFrames(word: string): set<int> {
    if word != "" && IsDigit(word[0]) then {Atoi(word)} else {}
  }

  /** The frames of a comma-separated list. */
  function ListFrames(s: string): set<int> {
    var c := CommaAt(s);
    WordFrames(s[..c]) + if c == |s| then {} else ListFrames(s[c + 1..])
  }

  function FramesText(fs: seq<nat>): string {
    if fs == [] then ""
    else if |fs| == 1 then Decimal(fs[0])
    else Decimal(fs[0]) + ("," + FramesText(fs[1..]))
  }

  lemma {:induction false} CommaBehind(d: string, rest: string)
    requires AllDigits(d) && (rest != "" ==> rest[0] == ',')
    ensures CommaAt(d + rest) == |d|
  {
    if d == "" {
      assert d + rest == rest;
    } else {
      CommaBehind(d[1..], rest);
      assert (d + rest)[1..] == d[1..] + rest;
      assert (d + rest)[0] == d[0];
    }
  }

  lemma {:induction false} WordIsAtoi(n: nat)
    ensures WordFrames(Decimal(n)) == {Narrow(n)}
  {
    var d := Decimal(n);
    assert d + "" == d;
    Dump.SplitIs(d, "");
    DecimalRoundTrip(n);
  }

  lemma {:induction false} WordIsNumber(n: nat)
    requires n <= INT_MAX
    ensures WordFrames(Decimal(n)) == {n}
  {
    WordIsAtoi(n);
  }

  lemma {:induction false} FirstWord(d: string, rest: string)
    requires AllDigits(d)
    ensures ListFrames(d + ("," + rest)) == WordFrames(d) + ListFrames(rest)
  {
    CommaBehind(d, "," + rest);
    var s := d + ("," + rest);
    assert s[..|d|] == d && s[|d| + 1..] == rest;
  }

  lemma {:induction false} OnlyWord(d: string)
    requires AllDigits(d)
    ensures ListFrames(d) == WordFrames(d)
  {
    assert d + "" == d;
    CommaBehind(d, "");
    assert d[..|d|] == d;
  }

  /** A printed list of frames is read back, whatever the order and however often a frame is in it. */
  lemma {:induction false} ListRoundTrip(fs: seq<nat>)
    requires forall k :: 0 <= k < |fs| ==> fs[k] <= INT_MAX
    ensures ListFrames(FramesText(fs)) == set f | f in fs
    decreases |fs|
  {
    if |fs| == 1 {
      WordIsNumber(fs[0]);
      OnlyWord(Decimal(fs[0]));
    } else if |fs| > 1 {
      WordIsNumber(fs[0]);
      FirstWord(Decimal(fs[0]), FramesText(fs[1..]));
      ListRoundTrip(fs[1..]);
      assert fs == [fs[0]] + fs[1..];
    }
  }

  /** isOptionBelongToScreenShotRange */
  predicate BelongsToRange(s: string) {
    '-' in s || s == "all"
  }

  lemma {:induction false} ListIsNoRange(fs: seq<nat>)
    ensures '-' !in FramesText(fs) && (fs != [] ==> FramesText(fs) != "" && IsDigit(FramesText(fs)[0]))
    ensures !BelongsToRange(FramesText(fs))
    decreases |fs|
  {
    if |fs| > 1 {
      ListIsNoRange(fs[1..]);
    }
    assert ("all")[0] == 'a';
  }

  // ---------- What a request asks for ----------

  predicate Requested(frames: set<int>, r: Range, f: int)
    requires Sensible(r)
  {
    f in frames || IsShot(f, r)
  }

  /** The frames and the range that a request string asks for. */
  function Asked(spec: string, before: Range): (set<int>, Range) {
    if BelongsToRange(spec) then ({}, Initialised(spec, before).1) else (ListFrames(spec), before)
  }

  /** A request string asks for the frame. */
  predicate Asks(spec: string, before: Range, f: int)
    requires !before.valid
  {
    SensibleRequest(spec, before);
    Requested(Asked(spec, before).0, Asked(spec, before).1, f)
  }

  lemma {:induction false} SensibleRequest(spec: string, before: Range)
    requires !before.valid
    ensures Sensible(Asked(spec, before).1)
  {
    if spec != "" {
      ZeroIffValid(spec, before);
    }
  }

  /** "S-C" asks for the frames from S to S+C-1, if the last one fits an int; with C = 0 it asks for every frame. */
  lemma {:induction false} PairAsks(start: nat, frameCount: nat, before: Range, f: int)
    requires start <= INT_MAX && frameCount <= INT_MAX && !before.valid
    ensures Asks(Decimal(start) + "-" + Decimal(frameCount), before, f)
       <==> frameCount == 0 || (start <= f < start + frameCount && start + frameCount - 1 <= INT_MAX)
  {
    var spec := Decimal(start) + "-" + Decimal(frameCount);
    PairParses(start, frameCount, before);
    assert spec[|Decimal(start)|] == '-' && BelongsToRange(spec);
    if frameCount > 0 {
      LastOfSteps(start, frameCount, 1);
      SelectsSteps(start, frameCount, 1, f);
      assert start <= f < start + frameCount ==> (f - start) * 1 < frameCount && f == start + (f - start) * 1;
    }
  }

  /**
   "S-C-I" asks for the frames S + k*I with k*I < C, if the last of them fits an int; with C = 0 for all frames that are
   multiples of I away from S; and with I = 0 for none.
   */
  lemma {:induction false} TripleAsks(start: nat, frameCount: nat, interval: nat, before: Range, f: int)
    requires start <= INT_MAX && frameCount <= INT_MAX && interval <= INT_MAX && !before.valid
    ensures Asks(Decimal(start) + "-" + Decimal(frameCount) + "-" + Decimal(interval), before, f)
       <==> && interval > 0
            && if frameCount == 0 then exists k: int :: f == start + k * interval
               else && (exists k: nat :: k * interval < frameCount && f == start + k * interval)
                    && forall k: nat :: k * interval < frameCount ==> start + k * interval <= INT_MAX
  {
    var spec := Decimal(start) + "-" + Decimal(frameCount) + "-" + Decimal(interval);
    TripleParses(start, frameCount, interval, before);
    assert spec[|Decimal(start)|] == '-' && BelongsToRange(spec);
    if interval == 0 {
      ZeroIffValid(spec, before);
    } else if frameCount > 0 {
      LastOfSteps(start, frameCount, interval);
      SelectsSteps(start, frameCount, interval, f);
    } else {
      EveryStep(start, interval, f);
    }
  }

  /** The range overflows exactly if some frame of its window does. */
  lemma {:induction false} LastOfSteps(start: nat, frameCount: nat, interval: nat)
    requires start <= INT_MAX && 0 < frameCount <= INT_MAX && interval > 0
    ensures Overflows(Normalised(start, frameCount, interval))
       <==> exists k: nat :: k * interval < frameCount && start + k * interval > INT_MAX
    ensures interval == 1 ==> (Overflows(Normalised(start, frameCount, interval)) <==> start + frameCount - 1 > INT_MAX)
  {
    var c := Normalised(start, frameCount, interval).count;
    var last: nat := c - 1;
    assert last * interval < frameCount;
    if k: nat :| k * interval < frameCount && start + k * interval > INT_MAX {
      StepIsCounted(k, frameCount, interval);
      FewerSteps(k, c, interval);
    }
    assert interval == 1 ==> last * interval == last && c * interval == c;
  }

  lemma {:induction false} EveryStep(start: nat, interval: nat, f: int)
    requires start <= INT_MAX && interval > 0
    ensures IsShot(f, Normalised(start, 0, interval)) <==> exists k: int :: f == start + k * interval
  {
    var away := if f >= start then f - start else start - f;
    if away % interval == 0 {
      var k := if f >= start then away / interval else -(away / interval);
      assert f == start + k * interval;
    }
    if k: int :| f == start + k * interval {
      var steps := if k >= 0 then k else -k;
      assert k < 0 ==> steps * interval == -(k * interval);
      Product(steps, interval);
    }
  }

  /** "all" asks for every frame. */
  lemma {:induction false} AllAsks(before: Range, f: int)
    requires !before.valid
    ensures Asks("all", before, f)
  {
  }

  /** A printed list asks for its frames and no others. */
  lemma {:induction false} ListAsks(fs: seq<nat>, before: Range, f: int)
    requires (forall k :: 0 <= k < |fs| ==> fs[k] <= INT_MAX) && !before.valid
    ensures Asks(FramesText(fs), before, f) <==> exists k :: 0 <= k < |fs| && fs[k] == f
  {
    ListIsNoRange(fs);
    ListRoundTrip(fs);
  }

  /** The requested frames among the first `n`, in order. */
  function SelectedBelow(frames: set<int>, r: Range, n: nat): seq<int>
    requires Sensible(r)
  {
    if n == 0 then []
    else SelectedBelow(frames, r, n - 1) + if Requested(frames, r, n - 1) then [n - 1] else []
  }

  /** Frame `f` completes the request: it is requested, no listed frame is left, and a range ends with it. */
  predicate Completes(frames: set<int>, r: Range, f: int)
    requires Sensible(r)
  {
    && f >= 0 && Requested(frames, r, f)
    && (forall g :: g in frames ==> 0 <= g <= f)
    && (r.valid ==> Limited(r) && f == EndFrame(r))
  }

  ghost predicate CompleteBelow(frames: set<int>, r: Range, n: nat)
    requires Sensible(r)
  {
    exists f :: 0 <= f < n && Completes(frames, r, f)
  }

  /** The frames of a list that the first `n` presents have not reached. */
  function Left(frames: set<int>, n: nat): set<int> {
    set f | f in frames && !(0 <= f < n)
  }

  lemma {:induction false} NothingLeft(frames: set<int>)
    ensures Left(frames, 0) == frames && {} + frames == frames && Left({}, 0) == {}
  {
  }

  /** The selection has every requested frame below `n`, no other, each once and in order. */
  lemma {:induction false} SelectedIs(frames: set<int>, r: Range, n: nat)
    requires Sensible(r)
    ensures var s := SelectedBelow(frames, r, n);
            && (forall f :: f in s <==> 0 <= f < n && Requested(frames, r, f))
            && (forall i, j :: 0 <= i < j < |s| ==> s[i] < s[j])
  {
    if n > 0 {
      SelectedIs(frames, r, n - 1);
      var before := SelectedBelow(frames, r, n - 1);
      assert forall i :: 0 <= i < |before| ==> before[i] in before;
    }
  }

  /** Nothing is requested behind a frame that completes the request. */
  lemma {:induction false} CompletesIsLast(frames: set<int>, r: Range, f: int, g: int)
    requires Sensible(r) && Completes(frames, r, f) && g > f
    ensures !Requested(frames, r, g)
  {
    if Overflows(r) && r.valid {
      OverflowSelectsNothing(r, f);
    } else if r.valid {
      EndIsBehindStart(r);
    }
  }

  /**
   The last requested frame completes the request exactly if no listed frame is negative and none is behind the end of
   the range.
   */
  lemma {:induction false} LastCompletesIff(frames: set<int>, r: Range, f: int)
    requires Sensible(r) && f >= 0 && Requested(frames, r, f) && forall g :: g > f ==> !Requested(frames, r, g)
    ensures Completes(frames, r, f)
       <==> && (forall g :: g in frames ==> g >= 0)
            && (r.valid && Limited(r) ==> forall g :: g in frames ==> g <= EndFrame(r))
    ensures !(r.valid && !Limited(r))
  {
    assert forall g :: g in frames ==> Requested(frames, r, g);
    if r.valid {
      IsEndIs(f, r);
      if Overflows(r) {
        OverflowSelectsNothing(r, f);
      } else if Limited(r) {
        EndIsBehindStart(r);
        assert IsShot(EndFrame(r), r);
        assert Requested(frames, r, EndFrame(r));
      } else {
        var g := if f >= r.startFrame then f else r.startFrame;
        NextShot(r, g);
        assert Requested(frames, r, r.startFrame + ((g - r.startFrame) / r.interval + 1) * r.interval);
      }
    }
  }

  lemma {:induction false} NextShot(r: Range, g: int)
    requires r.valid && !Limited(r) && 0 <= r.startFrame <= INT_MAX && r.interval > 0 && g >= r.startFrame
    ensures var next := r.startFrame + ((g - r.startFrame) / r.interval + 1) * r.interval;
            next > g && Sensible(r) ==> IsShot(next, r)
    ensures r.startFrame + ((g - r.startFrame) / r.interval + 1) * r.interval > g
  {
    var q := (g - r.startFrame) / r.interval;
    assert (q + 1) * r.interval == q * r.interval + r.interval;
    Product(q + 1, r.interval);
  }

  /** A list without negative frames is completed by its largest one. */
  lemma {:induction false} ListCompletes(frames: set<int>, r: Range, some: int) returns (last: int)
    requires some in frames && !r.valid && forall g :: g in frames ==> g >= 0
    ensures last in frames && Completes(frames, r, last)
    decreases frames
  {
    last := some;
    if more :| more in frames && more > some {
      last := ListCompletes(frames - {some}, r, more);
      assert more in frames - {some};
      assert forall g :: g in frames ==> g == some || g in frames - {some};
    }
  }

  /**
   Some frame completes a request exactly if something is requested, no listed frame is negative, and a range is
   limited, fits an int and ends with the listed frames or behind them.
   */
  lemma {:induction false} CompletesIff(frames: set<int>, r: Range)
    requires Sensible(r)
    ensures (exists f :: Completes(frames, r, f))
       <==> && (frames != {} || r.valid)
            && (forall g :: g in frames ==> g >= 0)
            && (r.valid ==> Limited(r) && !Overflows(r) && forall g :: g in frames ==> g <= EndFrame(r))
  {
    if f :| Completes(frames, r, f) {
      if r.valid && Overflows(r) {
        OverflowNeverCompletes(frames, r, f);
      }
    } else if r.valid && Limited(r) && !Overflows(r) {
      EndIsBehindStart(r);
      IsEndIs(EndFrame(r), r);
      assert !Completes(frames, r, EndFrame(r));
    } else if !r.valid && frames != {} && forall g :: g in frames ==> g >= 0 {
      var some :| some in frames;
      var last := ListCompletes(frames, r, some);
    }
  }

  lemma {:induction false} TwoWords(m: nat, n: nat)
    ensures ListFrames(Decimal(m) + ("," + Decimal(n))) == {Narrow(m), Narrow(n)}
  {
    FirstWord(Decimal(m), Decimal(n));
    OnlyWord(Decimal(n));
    WordIsAtoi(m);
    WordIsAtoi(n);
  }

  lemma {:induction false} Tenfold(n: nat, d: string)
    requires n > 0 && Decimal(n) == d
    ensures Decimal(10 * n) == d + "0"
  {
    assert 10 * n / 10 == n && 10 * n % 10 == 0;
    assert DigitChar(0) == '0';
  }

  lemma {:induction false} BigDecimal(n: nat)
    requires n == 3_000_000_000
    ensures Decimal(n) == "3000000000" && Narrow(n) == -1294967296
  {
    assert Decimal(3) == "3";
    Tenfold(3, "3");
    Tenfold(30, "30");
    Tenfold(300, "300");
    Tenfold(3_000, "3000");
    Tenfold(30_000, "30000");
    Tenfold(300_000, "300000");
    Tenfold(3_000_000, "3000000");
    Tenfold(30_000_000, "30000000");
    Tenfold(300_000_000, "300000000");
  }

  /** A number beyond an int is listed as a negative frame, which no present takes off: the maps are never released. */
  lemma {:induction false} WrappedNeverCompletes(list: string, r: Range)
    requires list == "5,3000000000" && Sensible(r) && !r.valid
    ensures ListFrames(list) == {5, -1294967296} && forall f :: !Completes(ListFrames(list), r, f)
  {
    WrappedList(list);
    NegativeNeverCompletes(ListFrames(list), r, -1294967296);
  }

  lemma {:induction false} WrappedList(list: string)
    requires list == "5,3000000000"
    ensures ListFrames(list) == {5, -1294967296}
  {
    var small: nat, big: nat := 5, 3_000_000_000;
    SmallDecimal(small);
    BigDecimal(big);
    TwoWords(small, big);
    BigList(list, Decimal(small), Decimal(big));
  }

  lemma {:induction false} SmallDecimal(n: nat)
    requires n == 5
    ensures Decimal(n) == "5"
  {
  }

  lemma {:induction false} BigList(list: string, a: string, b: string)
    requires list == "5,3000000000" && a == "5" && b == "3000000000"
    ensures list == a + ("," + b)
  {
  }

  lemma {:induction false} NegativeNeverCompletes(frames: set<int>, r: Range, g: int)
    requires Sensible(r) && g in frames && g < 0
    ensures forall f :: !Completes(frames, r, f)
  {
  }

  lemma {:induction false} RangeCompletes(r: Range)
    requires Sensible(r) && r.valid && Limited(r) && !Overflows(r)
    ensures Completes({}, r, EndFrame(r))
  {
    EndIsBehindStart(r);
    IsEndIs(EndFrame(r), r);
  }

  /** A range whose end is beyond an int never releases the maps, whatever is listed beside it. */
  lemma {:induction false} OverflowNeverCompletes(frames: set<int>, r: Range, f: int)
    requires Sensible(r) && r.valid && Overflows(r)
    ensures !Completes(frames, r, f)
  {
    OverflowSelectsNothing(r, f);
  }

  // ---------- The run ----------

  lemma {:induction false} SelectedInState(frames: set<int>, r: Range, n: nat)
    requires Sensible(r)
    ensures Requested(frames, r, n) <==> n in Left(frames, n) || IsShot(n, r)
    ensures Requested(frames, r, n) ==> Left(frames, n) != {} || r.valid
    ensures Left(frames, n) - {n} == Left(frames, n + 1)
    ensures n !in Left(frames, n) ==> Left(frames, n + 1) == Left(frames, n)
  {
  }

  /** What the code tests after a selected frame is whether the request is complete. */
  lemma {:induction false} CompletesInState(frames: set<int>, r: Range, n: nat)
    requires Sensible(r) && Requested(frames, r, n)
    ensures Left(frames, n + 1) == {} && IsEnd(n, r) <==> Completes(frames, r, n)
  {
    if r.valid {
      IsEndIs(n, r);
    }
    if Left(frames, n + 1) == {} {
      forall g | g in frames
        ensures 0 <= g <= n
      {
        assert g !in Left(frames, n + 1);
      }
    }
  }

  lemma {:induction false} CompleteBelowNext(frames: set<int>, r: Range, n: nat)
    requires Sensible(r)
    ensures CompleteBelow(frames, r, n + 1) <==> CompleteBelow(frames, r, n) || Completes(frames, r, n)
    ensures CompleteBelow(frames, r, n) ==> !Requested(frames, r, n)
  {
    if CompleteBelow(frames, r, n) {
      var f :| 0 <= f < n && Completes(frames, r, f);
      CompletesIsLast(frames, r, f, n);
    }
  }

  class Layer {
    var frameNumber: nat
    var screenshotFrames: set<int>
    var screenshotFramesReceived: bool
    const screenShotFrameRange: FrameRange

    /** A swapchain's images, empty until the application asks for them. */
    var swapchainMap: map<Handle, seq<Handle>>
    var imageMap: set<Handle>
    var physDeviceMap: set<Handle>

    /** The frames for which a file name was printed, and the files: frame and image. */
    var selected: seq<int>
    var files: seq<(int, Handle)>

    /** What was asked for, and the application's swapchains with their images. */
    ghost var askedFrames: set<int>
    ghost var askedRange: Range
    ghost var swapchains: map<Handle, seq<Handle>>

    predicate Done()
      reads this, screenShotFrameRange
    {
      screenshotFramesReceived && screenshotFrames == {} && !screenShotFrameRange.valid
    }

    /** Every swapchain of the application is in the maps. */
    ghost predicate MapsCover()
      reads this
    {
      forall s :: s in swapchains ==>
        s in swapchainMap && swapchainMap[s] == swapchains[s] && forall i :: i in swapchains[s] ==> i in imageMap
    }

    ghost predicate Released()
      reads this, screenShotFrameRange
    {
      Done() && swapchainMap == map[] && imageMap == {} && physDeviceMap == {}
    }

    ghost predicate Valid()
      reads this, screenShotFrameRange
    {
      ValidAt(frameNumber)
    }

    /** The state behind the first `n` presents: the request is complete and everything released, or it is not. */
    ghost predicate ValidAt(n: nat)
      reads this, screenShotFrameRange
    {
      && Sensible(askedRange)
      && selected == SelectedBelow(askedFrames, askedRange, n)
      && (if CompleteBelow(askedFrames, askedRange, n) then Released() else Waiting(n))
      && (!screenshotFramesReceived ==> askedFrames == {} && !askedRange.valid)
    }

    ghost predicate Waiting(n: nat)
      reads this, screenShotFrameRange
    {
      && screenshotFrames == Left(askedFrames, n) && screenShotFrameRange.Value() == askedRange
      && (Done() || MapsCover())
    }

    constructor (physDevices: set<Handle>)
      ensures Valid() && !screenshotFramesReceived && frameNumber == 0 && swapchains == map[]
      ensures physDeviceMap == physDevices && fresh(screenShotFrameRange)
    {
      screenShotFrameRange := new FrameRange();
      frameNumber, screenshotFrames, screenshotFramesReceived := 0, {}, false;
      swapchainMap, imageMap, physDeviceMap := map[], {}, physDevices;
      selected, files := [], [];
      askedFrames, swapchains := {}, map[];
      askedRange := Range(false, 0, SCREEN_SHOT_FRAMES_UNLIMITED, SCREEN_SHOT_FRAMES_INTERVAL_DEFAULT);
    }

    /** populate_frame_list: the one request of a run, before its first present. */
    method PopulateFrameList(spec: string)
      requires Valid() && !screenshotFramesReceived && frameNumber == 0
      modifies this`screenshotFrames, this`screenshotFramesReceived, this`askedFrames, this`askedRange
      modifies screenShotFrameRange
      ensures Valid() && screenshotFramesReceived && !old(askedRange.valid)
      ensures (askedFrames, askedRange) == Asked(spec, old(askedRange))
    {
      NothingLeft(screenshotFrames);
      if !BelongsToRange(spec) {
        var words := Words(spec);
        screenshotFrames := screenshotFrames + words;
        askedFrames := words;
        NothingLeft(words);
      } else {
        ZeroIffValid(spec, askedRange);
        var parsingStatus := screenShotFrameRange.Init(spec);
        askedRange := screenShotFrameRange.Value();
      }
      screenshotFramesReceived := true;
    }

    /** The loop of populate_frame_list. */
    static method Words(spec: string) returns (frames: set<int>)
      ensures frames == ListFrames(spec)
    {
      frames := {};
      var start: nat := 0;
      WholeList(spec);
      ghost var goal, rest := ListFrames(spec), ListFrames(spec);
      while start < |spec|
        invariant start <= |spec| && rest == ListFrames(spec[start..]) && frames + rest == goal
        decreases |spec| - start
      {
        var comma, word := NextWord(spec, start);
        rest := if comma == |spec| then {} else ListFrames(spec[comma + 1..]);
        Regroup(frames, WordFrames(word), rest);
        if word != "" && '0' <= word[0] <= '9' {
          frames := frames + {Atoi(word)};
        }
        if comma == |spec| {
          return;
        }
        start := comma + 1;
      }
    }

    static lemma {:induction false} WholeList(spec: string)
      ensures ListFrames(spec[0..]) == ListFrames(spec) && ListFrames([]) == {}
    {
      assert spec[0..] == spec;
    }

    static lemma {:induction false} Regroup(a: set<int>, b: set<int>, c: set<int>)
      ensures a + (b + c) == (a + b) + c && a + {} == a && (a + b) + {} == a + b
    {
    }

    static method NextWord(spec: string, start: nat) returns (comma: nat, word: string)
      requires start < |spec|
      ensures start <= comma <= |spec|
      ensures ListFrames(spec[start..])
              == WordFrames(word) + if comma == |spec| then {} else ListFrames(spec[comma + 1..])
    {
      ghost var rest := spec[start..];
      comma := start + CommaAt(spec[start..]);
      word := spec[start..comma];
      assert word == rest[..comma - start];
      assert comma < |spec| ==> rest[comma - start + 1..] == spec[comma + 1..];
    }

    /** CreateSwapchainKHR, after the driver has made the swapchain. */
    method CreateSwapchain(swapchain: Handle)
      requires Valid()
      modifies this`swapchainMap, this`swapchains
      ensures Valid() && swapchains == old(swapchains)[swapchain := []]
      ensures old(Done()) ==> swapchainMap == old(swapchainMap)
    {
      swapchains := swapchains[swapchain := []];
      if !Done() {
        swapchainMap := swapchainMap[swapchain := []];
      }
    }

    /** GetSwapchainImagesKHR, after the driver has filled in the images. */
    method GetSwapchainImages(swapchain: Handle, images: seq<Handle>)
      requires Valid() && swapchain in swapchains && images != []
      modifies this`swapchainMap, this`imageMap, this`swapchains
      ensures Valid() && swapchains == old(swapchains)[swapchain := images]
      ensures old(Done()) ==> swapchainMap == old(swapchainMap) && imageMap == old(imageMap)
    {
      swapchains := swapchains[swapchain := images];
      if !Done() {
        if swapchain in swapchainMap {
          imageMap := imageMap + set i | i in images;
          swapchainMap := swapchainMap[swapchain := images];
        }
      }
    }

    /** A frame that is not requested changes nothing. */
    lemma {:induction false} Skip()
      requires Valid() && !Requested(askedFrames, askedRange, frameNumber)
      ensures ValidAt(frameNumber + 1)
      ensures CompleteBelow(askedFrames, askedRange, frameNumber + 1)
              == CompleteBelow(askedFrames, askedRange, frameNumber)
    {
      CompleteBelowNext(askedFrames, askedRange, frameNumber);
      SelectedInState(askedFrames, askedRange, frameNumber);
    }

    /** What the code tests is whether the frame is requested; if so, the maps are there. */
    lemma {:induction false} SelectedIsRequested()
      requires Valid() && Sensible(screenShotFrameRange.Value())
      ensures (screenshotFrames != {} || screenShotFrameRange.valid)
              && (frameNumber in screenshotFrames || IsShot(frameNumber, screenShotFrameRange.Value()))
         <==> Requested(askedFrames, askedRange, frameNumber)
      ensures Requested(askedFrames, askedRange, frameNumber) ==>
                !CompleteBelow(askedFrames, askedRange, frameNumber) && Waiting(frameNumber) && MapsCover()
    {
      CompleteBelowNext(askedFrames, askedRange, frameNumber);
      SelectedInState(askedFrames, askedRange, frameNumber);
    }

    /** The part of QueuePresentKHR that names and writes the file of a requested frame. */
    method Capture(present: seq<(Handle, nat)>)
      requires Sensible(askedRange) && Requested(askedFrames, askedRange, frameNumber) && MapsCover()
      requires present != [] ==> present[0].0 in swapchains && present[0].1 < |swapchains[present[0].0]|
      requires selected == SelectedBelow(askedFrames, askedRange, frameNumber)
      modifies this`selected, this`files
      ensures selected == SelectedBelow(askedFrames, askedRange, frameNumber + 1)
      ensures files == old(files) + if present != [] then [(frameNumber, swapchains[present[0].0][present[0].1])]
                            else []
    {
      selected := selected + [frameNumber];
      if present != [] {
        var (swapchain, index) := present[0];
        files := files + [(frameNumber, swapchainMap[swapchain][index])];
      }
    }

    /** The part of QueuePresentKHR behind the writing of a requested frame. */
    method AfterCapture(inScreenShotFrames: bool)
      requires Sensible(askedRange) && Requested(askedFrames, askedRange, frameNumber)
      requires selected == SelectedBelow(askedFrames, askedRange, frameNumber + 1)
      requires !CompleteBelow(askedFrames, askedRange, frameNumber) && Waiting(frameNumber) && MapsCover()
      requires inScreenShotFrames <==> frameNumber in screenshotFrames
      requires !screenshotFramesReceived ==> askedFrames == {} && !askedRange.valid
      modifies this`screenshotFrames, this`swapchainMap, this`imageMap, this`physDeviceMap, screenShotFrameRange
      ensures ValidAt(frameNumber + 1)
      ensures !CompleteBelow(askedFrames, askedRange, frameNumber + 1) ==>
                swapchainMap == old(swapchainMap) && imageMap == old(imageMap) && physDeviceMap == old(physDeviceMap)
    {
      CompleteBelowNext(askedFrames, askedRange, frameNumber);
      SelectedInState(askedFrames, askedRange, frameNumber);
      CompletesInState(askedFrames, askedRange, frameNumber);
      if inScreenShotFrames {
        screenshotFrames := screenshotFrames - {frameNumber};
      }
      if screenshotFrames == {} && IsEnd(frameNumber, screenShotFrameRange.Value()) {
        swapchainMap, imageMap, physDeviceMap := map[], {}, {};
        screenShotFrameRange.valid := false;
      }
    }

    /** The branch of QueuePresentKHR for a requested frame. */
    method TakeFrame(present: seq<(Handle, nat)>, inScreenShotFrames: bool)
      requires Valid() && Requested(askedFrames, askedRange, frameNumber)
      requires !CompleteBelow(askedFrames, askedRange, frameNumber) && Waiting(frameNumber) && MapsCover()
      requires present != [] ==> present[0].0 in swapchains && present[0].1 < |swapchains[present[0].0]|
      requires inScreenShotFrames <==> frameNumber in screenshotFrames
      modifies this`screenshotFrames, this`swapchainMap, this`imageMap, this`physDeviceMap
      modifies this`selected, this`files, screenShotFrameRange
      ensures ValidAt(frameNumber + 1)
      ensures files == old(files) + if present != [] then [(frameNumber, swapchains[present[0].0][present[0].1])]
                            else []
      ensures !CompleteBelow(askedFrames, askedRange, frameNumber + 1) ==>
                swapchainMap == old(swapchainMap) && imageMap == old(imageMap) && physDeviceMap == old(physDeviceMap)
    {
      Capture(present);
      AfterCapture(inScreenShotFrames);
    }

    /** The part of QueuePresentKHR in front of the frame counter. */
    method ShowFrame(present: seq<(Handle, nat)>)
      requires Valid()
      requires present != [] ==> present[0].0 in swapchains && present[0].1 < |swapchains[present[0].0]|
      modifies this`screenshotFrames, this`swapchainMap, this`imageMap, this`physDeviceMap
      modifies this`selected, this`files, screenShotFrameRange
      ensures ValidAt(frameNumber + 1)
      ensures files == old(files) + if Requested(askedFrames, askedRange, frameNumber) && present != []
                                    then [(frameNumber, swapchains[present[0].0][present[0].1])] else []
      ensures !CompleteBelow(askedFrames, askedRange, frameNumber + 1) ==>
                swapchainMap == old(swapchainMap) && imageMap == old(imageMap) && physDeviceMap == old(physDeviceMap)
    {
      if screenshotFrames != {} || screenShotFrameRange.valid {
        var inScreenShotFrames := frameNumber in screenshotFrames;
        var inScreenShotFrameRange := IsShot(frameNumber, screenShotFrameRange.Value());
        SelectedIsRequested();
        if inScreenShotFrames || inScreenShotFrameRange {
          TakeFrame(present, inScreenShotFrames);
        } else {
          Skip();
        }
      } else {
        SelectedIsRequested();
        Skip();
      }
    }

    /**
     QueuePresentKHR. The present names swapchains with the index of an image of each. The lookup in swapchainMap
     is defined: the maps are not read once they are released.
     */
    method QueuePresent(present: seq<(Handle, nat)>)
      requires Valid()
      requires present != [] ==> present[0].0 in swapchains && present[0].1 < |swapchains[present[0].0]|
      modifies this`frameNumber, this`screenshotFrames, this`swapchainMap, this`imageMap, this`physDeviceMap
      modifies this`selected, this`files, screenShotFrameRange
      ensures Valid() && frameNumber == old(frameNumber) + 1
      ensures files == old(files) + if Requested(askedFrames, askedRange, old(frameNumber)) && present != []
                                    then [(old(frameNumber), swapchains[present[0].0][present[0].1])] else []
      ensures !CompleteBelow(askedFrames, askedRange, frameNumber) ==>
                swapchainMap == old(swapchainMap) && imageMap == old(imageMap) && physDeviceMap == old(physDeviceMap)
    {
      ShowFrame(present);
      frameNumber := frameNumber + 1;
    }
  }
}
